/**
 * How the two search views order their results: the `order` / `sort` request
 * parameters select the primary column passed to `order_by(primary, "id")`,
 * and `id` breaks ties. The primary column is compared the way the database
 * compares it (NULL after every value in ascending order), and a leading '-'
 * reverses the primary comparison only.
 */
module SearchOrdering {
  import opened Wrappers
  import opened Strings
  import opened Records

  // ---------------------------------------------------------------------------
  // Choosing the primary column

  const GlobalFallback: string := "source__holding_institution__siglum"
  const SourceFallback: string := "siglum"

  /** The `order` values the global search accepts and passes through unchanged. */
  predicate GlobalVerbatim(k: string) {
    k == "incipit" || k == "service" || k == "genre" || k == "cantus_id" || k == "mode"
  }

  /** The `order` values the per-source search accepts and passes through unchanged. */
  predicate SourceVerbatim(k: string) {
    k == "siglum" || k == "incipit" || k == "genre" || k == "cantus_id" || k == "mode" ||
    k == "feast" || k == "service"
  }

  /** The three display aliases both views share, or `None` for any other key. */
  function Alias(k: string): Option<string> {
    if k == "has_fulltext" then Some("manuscript_full_text")
    else if k == "has_melody" then Some("volpiano")
    else if k == "has_image" then Some("image_link")
    else None
  }

  /** The primary field of `ChantSearchView`: whitelisted key, alias, or the siglum fallback. */
  function GlobalOrderField(order: Option<string>): string {
    if order.Some? && GlobalVerbatim(order.value) then order.value
    else if order.Some? && Alias(order.value).Some? then Alias(order.value).value
    else GlobalFallback
  }

  /** The primary field of `ChantSearchMSView`; a missing `order` means "siglum". */
  function SourceOrderField(order: Option<string>): string {
    var k := if order.Some? then order.value else "siglum";
    if SourceVerbatim(k) then k
    else if Alias(k).Some? then Alias(k).value
    else SourceFallback
  }

  /** `f"-{order}"` when `sort` is "desc"; the field itself otherwise. */
  function WithDirection(field: string, sort: Option<string>): string {
    if sort == Some("desc") then "-" + field else field
  }

  function GlobalOrderBy(order: Option<string>, sort: Option<string>): string {
    WithDirection(GlobalOrderField(order), sort)
  }

  function SourceOrderBy(order: Option<string>, sort: Option<string>): string {
    WithDirection(SourceOrderField(order), sort)
  }

  /** How `order_by` reads its argument: a leading '-' means descending. */
  datatype Ordering = Ordering(field: string, descending: bool)

  function Interpret(spec: string): Ordering {
    if |spec| > 0 && spec[0] == '-' then Ordering(spec[1..], true) else Ordering(spec, false)
  }

  /** The fields `order_by` may receive from the global view. */
  predicate GlobalField(f: string) {
    GlobalVerbatim(f) || f == "manuscript_full_text" || f == "volpiano" || f == "image_link" ||
    f == GlobalFallback
  }

  /**
   * The global view orders by the requested key when it is whitelisted (the
   * three `has_*` keys through their aliases), by the holding institution's
   * siglum otherwise, descending exactly when `sort` is "desc".
   */
  lemma GlobalOrderByMeaning(order: Option<string>, sort: Option<string>)
    ensures var o := Interpret(GlobalOrderBy(order, sort));
      && GlobalField(o.field)
      && o.descending == (sort == Some("desc"))
      && (order.Some? && GlobalVerbatim(order.value) ==> o.field == order.value)
      && (order == Some("has_fulltext") ==> o.field == "manuscript_full_text")
      && (order == Some("has_melody") ==> o.field == "volpiano")
      && (order == Some("has_image") ==> o.field == "image_link")
      && (order.None? || (!GlobalVerbatim(order.value) && Alias(order.value).None?) ==>
            o.field == GlobalFallback)
  {
    var f := GlobalOrderField(order);
    assert f != [] && f[0] != '-';
    if sort == Some("desc") {
      assert ("-" + f)[1..] == f;
    }
  }

  /**
   * The per-source view orders by the requested key when it is whitelisted
   * (including "feast" and "siglum", through the same aliases), by "siglum"
   * when `order` is missing or unknown, descending exactly when `sort` is "desc".
   */
  lemma SourceOrderByMeaning(order: Option<string>, sort: Option<string>)
    ensures var o := Interpret(SourceOrderBy(order, sort));
      && o.descending == (sort == Some("desc"))
      && (order.Some? && SourceVerbatim(order.value) ==> o.field == order.value)
      && (order.Some? && Alias(order.value).Some? ==> o.field == Alias(order.value).value)
      && (order.None? || (!SourceVerbatim(order.value) && Alias(order.value).None?) ==>
            o.field == SourceFallback)
  {
    var f := SourceOrderField(order);
    assert f != [] && f[0] != '-';
    if sort == Some("desc") {
      assert ("-" + f)[1..] == f;
    }
  }

  // ---------------------------------------------------------------------------
  // Comparing rows

  /** A column value as the database compares it; `Missing` is NULL. */
  datatype SortValue = Missing | Num(n: int) | Text(t: string)

  function FromInt(v: Option<int>): SortValue {
    if v.Some? then Num(v.value) else Missing
  }

  function FromText(v: Option<string>): SortValue {
    if v.Some? then Text(v.value) else Missing
  }

  /** The value of the named field of a row (related rows are ordered by their id). */
  function KeyValue(r: Chant, field: string): SortValue {
    if field == "incipit" then FromText(r.incipit)
    else if field == "service" then FromInt(r.serviceId)
    else if field == "genre" then FromInt(r.genreId)
    else if field == "feast" then FromInt(r.feastId)
    else if field == "cantus_id" then FromText(r.cantusId)
    else if field == "mode" then FromText(r.mode)
    else if field == "manuscript_full_text" then FromText(r.fullText)
    else if field == "volpiano" then FromText(r.volpiano)
    else if field == "image_link" then FromText(r.imageLink)
    else if field == GlobalFallback then FromText(r.institutionSiglum)
    else if field == "siglum" then FromText(r.siglum)
    else Missing
  }

  /** Ascending order of column values, NULL last. */
  predicate ValueLess(x: SortValue, y: SortValue) {
    match x
    case Missing => false
    case Num(a) => (match y case Missing => true case Num(b) => a < b case Text(_) => true)
    case Text(a) => (match y case Missing => true case Num(_) => false case Text(b) => StrLess(a, b))
  }

  lemma ValueLessIrreflexive(x: SortValue)
    ensures !ValueLess(x, x)
  {
    if x.Text? {
      StrLessIrreflexive(x.t);
    }
  }

  lemma ValueLessTransitive(x: SortValue, y: SortValue, z: SortValue)
    requires ValueLess(x, y) && ValueLess(y, z)
    ensures ValueLess(x, z)
  {
    if x.Text? && y.Text? && z.Text? {
      StrLessTransitive(x.t, y.t, z.t);
    }
  }

  lemma ValueLessTotal(x: SortValue, y: SortValue)
    ensures x == y || ValueLess(x, y) || ValueLess(y, x)
  {
    if x.Text? && y.Text? {
      StrLessTotal(x.t, y.t);
    }
  }

  /** `order_by(o, "id")`: `a` is listed before `b`. */
  predicate Precedes(o: Ordering, a: Chant, b: Chant) {
    var x, y := KeyValue(a, o.field), KeyValue(b, o.field);
    if x != y then (if o.descending then ValueLess(y, x) else ValueLess(x, y))
    else a.id < b.id
  }

  lemma PrecedesIrreflexive(o: Ordering, a: Chant)
    ensures !Precedes(o, a, a)
  {
  }

  lemma PrecedesTransitive(o: Ordering, a: Chant, b: Chant, c: Chant)
    requires Precedes(o, a, b) && Precedes(o, b, c)
    ensures Precedes(o, a, c)
  {
    var x, y, z := KeyValue(a, o.field), KeyValue(b, o.field), KeyValue(c, o.field);
    if x != y && y != z {
      if o.descending {
        ValueLessTransitive(z, y, x);
        ValueLessIrreflexive(x);
      } else {
        ValueLessTransitive(x, y, z);
        ValueLessIrreflexive(x);
      }
    }
  }

  lemma PrecedesAsymmetric(o: Ordering, a: Chant, b: Chant)
    ensures !(Precedes(o, a, b) && Precedes(o, b, a))
  {
    if Precedes(o, a, b) && Precedes(o, b, a) {
      PrecedesTransitive(o, a, b, a);
    }
  }

  /**
   * The `id` tiebreak makes the order total: two rows with different ids are
   * always ordered one way or the other, whatever the primary field.
   */
  lemma PrecedesTotal(o: Ordering, a: Chant, b: Chant)
    requires a.id != b.id
    ensures Precedes(o, a, b) || Precedes(o, b, a)
  {
    ValueLessTotal(KeyValue(a, o.field), KeyValue(b, o.field));
  }

  /**
   * "-field" reverses the comparison of the primary field only: rows with
   * equal primary values stay in ascending `id` order in both directions.
   */
  lemma DescendingReversesPrimaryOnly(field: string, a: Chant, b: Chant)
    ensures KeyValue(a, field) != KeyValue(b, field) ==>
      (Precedes(Ordering(field, true), a, b) <==> Precedes(Ordering(field, false), b, a))
    ensures KeyValue(a, field) == KeyValue(b, field) ==>
      (Precedes(Ordering(field, true), a, b) <==> a.id < b.id) &&
      (Precedes(Ordering(field, false), a, b) <==> a.id < b.id)
  {
  }

  // ---------------------------------------------------------------------------
  // Listings

  /** Every earlier row precedes every later one. */
  predicate Ordered(o: Ordering, s: seq<Chant>) {
    forall i, j :: 0 <= i < j < |s| ==> Precedes(o, s[i], s[j])
  }

  /** Two ordered listings of the same rows start with the same row. */
  lemma OrderedHeads(o: Ordering, s: seq<Chant>, t: seq<Chant>)
    requires multiset(s) == multiset(t) && s != []
    requires Ordered(o, s) && Ordered(o, t)
    ensures t != [] && s[0] == t[0]
  {
    assert |multiset(t)| == |multiset(s)|;
    if s[0] != t[0] {
      assert t[0] in multiset(s);
      var i :| 0 <= i < |s| && s[i] == t[0];
      assert s[0] in multiset(t);
      var j :| 0 <= j < |t| && t[j] == s[0];
      PrecedesAsymmetric(o, s[0], t[0]);
      assert false;
    }
  }

  /** Removing the first row of a listing removes it from its rows. */
  lemma TailRows(s: seq<Chant>)
    requires s != []
    ensures multiset(s[1..]) == multiset(s) - multiset([s[0]])
  {
    assert s == [s[0]] + s[1..];
  }

  /**
   * Stable pagination: two listings of the same rows that both respect
   * `order_by(o, "id")` are identical, so every page is the same slice of
   * one sequence on every request.
   */
  lemma {:induction false} OrderedListingUnique(o: Ordering, s: seq<Chant>, t: seq<Chant>)
    requires multiset(s) == multiset(t)
    requires Ordered(o, s) && Ordered(o, t)
    ensures s == t
  {
    if s != [] {
      OrderedHeads(o, s, t);
      TailRows(s);
      TailRows(t);
      assert Ordered(o, s[1..]) && Ordered(o, t[1..]);
      OrderedListingUnique(o, s[1..], t[1..]);
      assert s == [s[0]] + s[1..] && t == [t[0]] + t[1..];
    }
  }

  // ---------------------------------------------------------------------------
  // Existence of the ordered listing

  /** No two rows share an id, as within one table. */
  predicate DistinctIds(s: seq<Chant>) {
    forall i, j :: 0 <= i < j < |s| ==> s[i].id != s[j].id
  }

  /** Inserting a row in front of the first row it precedes. */
  function Insert(o: Ordering, x: Chant, s: seq<Chant>): (r: seq<Chant>)
    ensures multiset(r) == multiset(s) + multiset{x}
  {
    if s == [] then [x]
    else if Precedes(o, x, s[0]) then [x] + s
    else
      assert s == [s[0]] + s[1..];
      [s[0]] + Insert(o, x, s[1..])
  }

  /** The rows sorted by `order_by(o, "id")`, by insertion. */
  function SortRows(o: Ordering, s: seq<Chant>): (r: seq<Chant>)
    ensures multiset(r) == multiset(s)
  {
    if s == [] then []
    else
      assert s == [s[0]] + s[1..];
      Insert(o, s[0], SortRows(o, s[1..]))
  }

  /** A row that precedes the first row of an ordered listing precedes all of it. */
  lemma InsertFront(o: Ordering, x: Chant, s: seq<Chant>)
    requires Ordered(o, s) && s != [] && Precedes(o, x, s[0])
    ensures Ordered(o, [x] + s)
  {
    forall j | 0 <= j < |s|
      ensures Precedes(o, x, s[j])
    {
      if j > 0 {
        PrecedesTransitive(o, x, s[0], s[j]);
      }
    }
    var r := [x] + s;
    forall i, j | 0 <= i < j < |r|
      ensures Precedes(o, r[i], r[j])
    {
      if i > 0 {
        assert r[i] == s[i - 1] && r[j] == s[j - 1];
      }
    }
  }

  /** A row that precedes every row of an ordered listing can head it. */
  lemma ConsOrdered(o: Ordering, c: Chant, t: seq<Chant>)
    requires Ordered(o, t)
    requires forall d :: d in t ==> Precedes(o, c, d)
    ensures Ordered(o, [c] + t)
  {
    var r := [c] + t;
    forall i, j | 0 <= i < j < |r|
      ensures Precedes(o, r[i], r[j])
    {
      if i == 0 {
        assert r[j] in t;
      } else {
        assert r[i] == t[i - 1] && r[j] == t[j - 1];
      }
    }
  }

  lemma {:induction false} InsertOrdered(o: Ordering, x: Chant, s: seq<Chant>)
    requires Ordered(o, s)
    requires forall c :: c in s ==> c.id != x.id
    ensures Ordered(o, Insert(o, x, s))
  {
    if s != [] && !Precedes(o, x, s[0]) {
      PrecedesTotal(o, x, s[0]);
      var t := Insert(o, x, s[1..]);
      InsertOrdered(o, x, s[1..]);
      forall c | c in t
        ensures Precedes(o, s[0], c)
      {
        assert c in multiset(t);
        if c != x {
          var j :| 1 <= j < |s| && s[j] == c;
        }
      }
      ConsOrdered(o, s[0], t);
    } else if s != [] {
      InsertFront(o, x, s);
    }
  }

  /**
   * Rows with distinct ids have a listing ordered by `order_by(o, "id")`:
   * a permutation of them that is `Ordered`. With `OrderedListingUnique`,
   * it is the only one.
   */
  lemma {:induction false} OrderedListingExists(o: Ordering, s: seq<Chant>)
    requires DistinctIds(s)
    ensures multiset(SortRows(o, s)) == multiset(s)
    ensures Ordered(o, SortRows(o, s))
  {
    if s != [] {
      assert DistinctIds(s[1..]);
      OrderedListingExists(o, s[1..]);
      var t := SortRows(o, s[1..]);
      forall c | c in t
        ensures c.id != s[0].id
      {
        assert c in multiset(s[1..]);
        var j :| 0 <= j < |s[1..]| && s[1..][j] == c;
        assert s[j + 1] == c;
      }
      InsertOrdered(o, s[0], t);
    }
  }

  /**
   * The tie `order_by(o, "id")` leaves open in the global view: a chant and
   * a sequence (separate tables, each numbering its own ids) with the same
   * id and the same primary value precede one another in neither direction,
   * so no listing of both is `Ordered` and the database may return them in
   * either order.
   */
  lemma UnionTieUnordered(o: Ordering, a: Chant)
    requires a.kind == ChantRow
    ensures var b := a.(kind := SequenceRow);
      a != b && !Precedes(o, a, b) && !Precedes(o, b, a) && !Ordered(o, [a, b]) && !Ordered(o, [b, a])
  {
    var b := a.(kind := SequenceRow);
    assert KeyValue(a, o.field) == KeyValue(b, o.field);
    assert [a, b][0] == a && [a, b][1] == b;
    assert [b, a][0] == b && [b, a][1] == a;
  }
}
