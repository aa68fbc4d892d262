/**
 * The rules of the chant input page (`ChantCreateView`, views/chant.py):
 * the initial form values taken from the source's latest chant, the ranking
 * of the feasts that usually follow the latest chant's feast, the incipit
 * computed from the standard-spelling text, and the duplicate check made
 * before a new chant is saved.
 */
module ChantCreate {
  import opened Wrappers
  import opened Strings
  import opened Seqs
  import opened Records

  // ---------------------------------------------------------------------------
  // get_initial

  /** A form value that is a foreign key id or the empty string. */
  datatype Blankable = Blank | Id(id: int)

  /**
   * The initial values of the form; `service` is `None` when the dictionary
   * has no "service" entry at all.
   */
  datatype Initial = Initial(folio: string, feast: Blankable, service: Option<Blankable>, cSequence: int, imageLink: string)

  const DefaultFolio := "001r"

  function IdOrBlank(id: Option<int>): Blankable {
    if id.Some? then Id(id.value) else Blank
  }

  function TextOrBlank(s: Option<string>): string {
    if Truthy(s) then s.value else ""
  }

  /**
   * The initial values; `latest` is the source's most recently updated chant,
   * `None` when the source has no chant.
   */
  function InitialValues(latest: Option<Chant>): (v: Initial)
    ensures v.folio != ""
    ensures v.service.Some? <==> latest.Some?
    ensures latest.None? ==> v == Initial(DefaultFolio, Blank, None, 1, "")
    ensures latest.Some? ==> v.cSequence == 1 + (if latest.value.cSequence.Some? then latest.value.cSequence.value else 0)
    ensures latest.Some? && Truthy(latest.value.folio) ==> v.folio == latest.value.folio.value
    ensures latest.Some? && !Truthy(latest.value.folio) ==> v.folio == DefaultFolio
    ensures latest.Some? ==> (v.feast.Id? <==> latest.value.feastId.Some?)
    ensures latest.Some? && latest.value.feastId.Some? ==> v.feast == Id(latest.value.feastId.value)
    ensures latest.Some? ==> (v.service.value.Id? <==> latest.value.serviceId.Some?)
    ensures latest.Some? && latest.value.serviceId.Some? ==> v.service == Some(Id(latest.value.serviceId.value))
    ensures latest.Some? && Truthy(latest.value.imageLink) ==> v.imageLink == latest.value.imageLink.value
    ensures latest.Some? && !Truthy(latest.value.imageLink) ==> v.imageLink == ""
  {
    match latest
    case None => Initial(DefaultFolio, Blank, None, 1, "")
    case Some(c) =>
      Initial(
        if Truthy(c.folio) then c.folio.value else DefaultFolio,
        IdOrBlank(c.feastId),
        Some(IdOrBlank(c.serviceId)),
        1 + (if c.cSequence.Some? then c.cSequence.value else 0),
        TextOrBlank(c.imageLink))
  }

  /**
   * A chant entered with the initial values goes on the latest chant's
   * folio (when it has one) and never collides with the latest chant's
   * (folio, c_sequence). When the latest chant also has the highest
   * c_sequence on its folio, the suggested (folio, c_sequence) is taken by
   * no chant of the source.
   */
  lemma InitialFollowsLatest(chants: seq<Chant>, latest: Chant)
    requires Truthy(latest.folio)
    ensures var v := InitialValues(Some(latest));
      (Some(v.folio), Some(v.cSequence)) != (latest.folio, latest.cSequence)
    ensures var v := InitialValues(Some(latest));
      (forall c :: c in chants && c.folio == latest.folio && c.cSequence.Some? ==>
         latest.cSequence.Some? && c.cSequence.value <= latest.cSequence.value) ==>
      forall c :: c in chants ==> (c.folio, c.cSequence) != (Some(v.folio), Some(v.cSequence))
  {
    var v := InitialValues(Some(latest));
    forall c | c in chants && (forall d :: d in chants && d.folio == latest.folio && d.cSequence.Some? ==>
         latest.cSequence.Some? && d.cSequence.value <= latest.cSequence.value)
      ensures (c.folio, c.cSequence) != (Some(v.folio), Some(v.cSequence))
    {
      if c.folio == Some(v.folio) && c.cSequence.Some? {
        assert c.cSequence.value <= latest.cSequence.value < v.cSequence;
      }
    }
  }

  // ---------------------------------------------------------------------------
  // get_suggested_feasts

  /** One entry of the `Counter`: a feast and how often it followed. */
  datatype FeastCount = FeastCount(feast: int, count: nat)

  /** The chant with the given id in the chant table, if any. */
  function FindChant(table: seq<Chant>, id: int): (r: Option<Chant>)
    ensures r.Some? ==> r.value in table && r.value.id == id
    ensures r.None? ==> forall c :: c in table ==> c.id != id
  {
    if table == [] then None
    else if table[0].id == id then Some(table[0])
    else FindChant(table[1..], id)
  }

  /**
   * The chants that end the feast `current` (`feast=None` matches chants
   * without a feast).
   */
  function Enders(table: seq<Chant>, current: Option<int>): seq<Chant> {
    Where(table, (c: Chant) => c.isLastInFeast && c.feastId == current)
  }

  /** The feast of the `next_chant` of `c`, if that chant exists and has a feast. */
  function NextFeast(table: seq<Chant>, c: Chant): Option<int> {
    if c.nextChantId.None? then None
    else
      var next := FindChant(table, c.nextChantId.value);
      if next.Some? then next.value.feastId else None
  }

  /** The feasts that follow the enders, in order, with repetitions. */
  function NextFeasts(table: seq<Chant>, enders: seq<Chant>): seq<int> {
    if enders == [] then []
    else
      var f := NextFeast(table, enders[0]);
      (if f.Some? then [f.value] else []) + NextFeasts(table, enders[1..])
  }

  /** The items of `Counter(s)` for the distinct values `d`, in the order of `d`. */
  function Tally(d: seq<int>, s: seq<int>): (r: seq<FeastCount>)
    ensures |r| == |d|
    ensures forall i :: 0 <= i < |d| ==> r[i] == FeastCount(d[i], Count(s, d[i]))
  {
    if d == [] then [] else [FeastCount(d[0], Count(s, d[0]))] + Tally(d[1..], s)
  }

  /** Counter items in first-encounter order. */
  function CounterItems(s: seq<int>): seq<FeastCount> {
    Tally(Dedup(s), s)
  }

  /** Sort key giving `sorted(..., key=count, reverse=True)` as an ascending stable sort. */
  function ByCountDescending(fc: FeastCount): int {
    -(fc.count as int)
  }

  function SuggestedFeasts(table: seq<Chant>, current: Option<int>): seq<FeastCount> {
    SortByKey(CounterItems(NextFeasts(table, Enders(table, current))), ByCountDescending)
  }

  /** The sum of the counts. */
  function Total(fcs: seq<FeastCount>): nat {
    if fcs == [] then 0 else fcs[0].count + Total(fcs[1..])
  }

  lemma {:induction false} TotalAppend(a: seq<FeastCount>, b: seq<FeastCount>)
    ensures Total(a + b) == Total(a) + Total(b)
  {
    if a == [] {
      assert a + b == b;
    } else {
      assert (a + b)[1..] == a[1..] + b;
      TotalAppend(a[1..], b);
    }
  }

  lemma {:induction false} TotalInsert(x: FeastCount, s: seq<FeastCount>)
    ensures Total(Insert(x, s, ByCountDescending)) == x.count + Total(s)
  {
    if s != [] && ByCountDescending(x) > ByCountDescending(s[0]) {
      TotalInsert(x, s[1..]);
      assert ([s[0]] + Insert(x, s[1..], ByCountDescending))[1..] == Insert(x, s[1..], ByCountDescending);
    } else {
      assert ([x] + s)[1..] == s;
    }
  }

  lemma {:induction false} TotalSort(s: seq<FeastCount>)
    ensures Total(SortByKey(s, ByCountDescending)) == Total(s)
  {
    if s != [] {
      TotalSort(s[1..]);
      TotalInsert(s[0], SortByKey(s[1..], ByCountDescending));
    }
  }

  lemma {:induction false} DistinctCount(d: seq<int>, x: int)
    requires Distinct(d)
    ensures Count(d, x) == if x in d then 1 else 0
  {
    if d != [] {
      DistinctCount(d[1..], x);
      assert x in d <==> x == d[0] || x in d[1..];
    }
  }

  lemma {:induction false} TallySnoc(d: seq<int>, s: seq<int>, x: int)
    ensures Total(Tally(d, s + [x])) == Total(Tally(d, s)) + Count(d, x)
  {
    if d != [] {
      TallySnoc(d[1..], s, x);
      CountAppend(s, [x], d[0]);
    }
  }

  lemma {:induction false} TallyAppendKey(d: seq<int>, x: int, s: seq<int>)
    ensures Total(Tally(d + [x], s)) == Total(Tally(d, s)) + Count(s, x)
  {
    assert Tally(d + [x], s) == Tally(d, s) + [FeastCount(x, Count(s, x))];
    TotalAppend(Tally(d, s), [FeastCount(x, Count(s, x))]);
  }

  /** The counts of a `Counter` add up to the number of values counted. */
  lemma {:induction false} CounterTotal(s: seq<int>)
    ensures Total(CounterItems(s)) == |s|
  {
    if s != [] {
      var init, x := s[..|s| - 1], s[|s| - 1];
      assert s == init + [x];
      CounterTotal(init);
      var d := Dedup(init);
      TallySnoc(d, init, x);
      DistinctCount(d, x);
      if x !in d {
        assert Dedup(s) == d + [x];
        TallyAppendKey(d, x, s);
        CountPositive(init, x);
        CountAppend(init, [x], x);
      }
    }
  }

  /**
   * Each suggestion carries the number of times its feast followed, which is
   * positive, and every feast that followed is suggested.
   */
  lemma SuggestedFeastsCounts(table: seq<Chant>, current: Option<int>)
    ensures var next, r := NextFeasts(table, Enders(table, current)), SuggestedFeasts(table, current);
      && (forall fc :: fc in r ==> fc.count == Count(next, fc.feast) && fc.count > 0)
      && (forall f :: f in next ==> exists fc :: fc in r && fc.feast == f)
  {
    var next := NextFeasts(table, Enders(table, current));
    var items := CounterItems(next);
    var d := Dedup(next);
    var r := SuggestedFeasts(table, current);
    forall fc | fc in r ensures fc.count == Count(next, fc.feast) && fc.count > 0 {
      assert fc in multiset(items);
      var i :| 0 <= i < |items| && items[i] == fc;
      CountPositive(next, d[i]);
    }
    forall f | f in next ensures exists fc :: fc in r && fc.feast == f {
      var i :| 0 <= i < |d| && d[i] == f;
      assert items[i] in multiset(r);
    }
  }

  /** No feast is suggested twice. */
  lemma SuggestedFeastsDistinct(table: seq<Chant>, current: Option<int>)
    ensures Distinct(FeastsOf(SuggestedFeasts(table, current)))
  {
    RankedFeastsDistinct(NextFeasts(table, Enders(table, current)));
  }

  /** The feasts of a list of counts. */
  function FeastsOf(fcs: seq<FeastCount>): (r: seq<int>)
    ensures |r| == |fcs| && forall i :: 0 <= i < |fcs| ==> r[i] == fcs[i].feast
  {
    seq(|fcs|, i requires 0 <= i < |fcs| => fcs[i].feast)
  }

  lemma RankedFeastsDistinct(s: seq<int>)
    ensures Distinct(FeastsOf(SortByKey(CounterItems(s), ByCountDescending)))
  {
    var items := CounterItems(s);
    assert FeastsOf(items) == Dedup(s);
    PermutationKeepsFeastsDistinct(items, SortByKey(items, ByCountDescending));
  }

  lemma PermutationKeepsFeastsDistinct(s: seq<FeastCount>, t: seq<FeastCount>)
    requires Distinct(FeastsOf(s)) && multiset(s) == multiset(t)
    ensures Distinct(FeastsOf(t))
  {
    assert Distinct(s) by {
      forall a, b | 0 <= a < b < |s| ensures s[a] != s[b] {
        assert FeastsOf(s)[a] != FeastsOf(s)[b];
      }
    }
    PermutationDistinct(s, t);
    var f := FeastsOf(t);
    forall i, j | 0 <= i < j < |f| ensures f[i] != f[j] {
      assert t[i] in multiset(s) && t[j] in multiset(s);
      var a :| 0 <= a < |s| && s[a] == t[i];
      var b :| 0 <= b < |s| && s[b] == t[j];
      assert FeastsOf(s)[a] == t[i].feast && FeastsOf(s)[b] == t[j].feast;
    }
  }

  /**
   * The counts add up to the number of next chants that exist and have a
   * feast, and never increase along the list.
   */
  lemma SuggestedFeastsRanked(table: seq<Chant>, current: Option<int>)
    ensures var next, r := NextFeasts(table, Enders(table, current)), SuggestedFeasts(table, current);
      && Total(r) == |next|
      && (forall i, j :: 0 <= i < j < |r| ==> r[i].count >= r[j].count)
  {
    var next := NextFeasts(table, Enders(table, current));
    var items := CounterItems(next);
    CounterTotal(next);
    TotalSort(items);
    SortByKeySorted(items, ByCountDescending);
  }

  lemma CounterItemsDistinct(s: seq<int>)
    ensures Distinct(CounterItems(s))
  {
    var items, d := CounterItems(s), Dedup(s);
    forall a, b | 0 <= a < b < |items| ensures items[a] != items[b] {
      assert d[a] != d[b];
    }
  }

  /**
   * Feasts with equal counts keep the order in which they first followed the
   * current feast.
   */
  lemma SuggestedFeastsTies(table: seq<Chant>, current: Option<int>, i: int, j: int)
    requires 0 <= i < j < |SuggestedFeasts(table, current)|
    requires SuggestedFeasts(table, current)[i].count == SuggestedFeasts(table, current)[j].count
    ensures var next, r := NextFeasts(table, Enders(table, current)), SuggestedFeasts(table, current);
      r[i].feast in next && r[j].feast in next && FirstIndex(next, r[i].feast) < FirstIndex(next, r[j].feast)
  {
    var next := NextFeasts(table, Enders(table, current));
    var items := CounterItems(next);
    var d := Dedup(next);
    var r := SuggestedFeasts(table, current);
    CounterItemsDistinct(next);
    SortByKeyTies(items, ByCountDescending, i, j);
    var a := FirstIndex(items, r[i]);
    var b := FirstIndex(items, r[j]);
    DedupOrder(next);
    assert r[i].feast == d[a] && r[j].feast == d[b];
  }

  // ---------------------------------------------------------------------------
  // The incipit: whole words of the standard-spelling text, under 30 characters

  const IncipitLimit := 30

  /** "w1 w2 ... wk ": the first `k` words, each followed by a space. */
  function Accumulated(words: seq<string>, k: nat): string
    requires k <= |words|
  {
    if k == 0 then "" else Accumulated(words, k - 1) + words[k - 1] + " "
  }

  /** Taking `k` words stays under the limit, and taking one more would reach it. */
  predicate TakesWords(words: seq<string>, k: nat) {
    k <= |words| && |Accumulated(words, k)| < IncipitLimit &&
    (k < |words| ==> |Accumulated(words, k + 1)| >= IncipitLimit)
  }

  lemma {:induction false} AccumulatedGrows(words: seq<string>, j: nat, k: nat)
    requires j <= k <= |words|
    ensures |Accumulated(words, j)| <= |Accumulated(words, k)|
    decreases k - j
  {
    if j < k {
      AccumulatedGrows(words, j, k - 1);
    }
  }

  /** Exactly one number of words is taken. */
  lemma TakesWordsUnique(words: seq<string>, j: nat, k: nat)
    requires TakesWords(words, j) && TakesWords(words, k)
    ensures j == k
  {
    if j < k {
      AccumulatedGrows(words, j + 1, k);
    } else if k < j {
      AccumulatedGrows(words, k + 1, j);
    }
  }

  /** The number of words taken, counting from `i`. */
  function WordsFrom(words: seq<string>, i: nat): (k: nat)
    requires i <= |words| && |Accumulated(words, i)| < IncipitLimit
    ensures i <= k && TakesWords(words, k)
    decreases |words| - i
  {
    if i == |words| || |Accumulated(words, i + 1)| >= IncipitLimit then i
    else WordsFrom(words, i + 1)
  }

  /** The incipit of a standard-spelling text. */
  function IncipitOf(text: string): string {
    var words := Split(text, ' ');
    Strip(Accumulated(words, WordsFrom(words, 0)), ' ')
  }

  method Incipit(text: string) returns (incipit: string)
    ensures incipit == IncipitOf(text)
  {
    var words := Split(text, ' ');
    var acc := "";
    var i := 0;
    while i < |words|
      invariant 0 <= i <= |words|
      invariant acc == Accumulated(words, i) && |acc| < IncipitLimit
    {
      var next := acc + words[i] + " ";
      if |next| >= IncipitLimit {
        break;
      }
      acc := next;
      i := i + 1;
    }
    assert TakesWords(words, i);
    TakesWordsUnique(words, i, WordsFrom(words, 0));
    incipit := Strip(acc, ' ');
  }

  lemma {:induction false} AccumulatedJoin(words: seq<string>, k: nat)
    requires k < |words|
    ensures Accumulated(words, k) + Join(words[k..], ' ') == Join(words, ' ')
  {
    if k > 0 {
      AccumulatedJoin(words, k - 1);
      assert words[k - 1..][1..] == words[k..];
    }
  }

  lemma AccumulatedPrefix(words: seq<string>, k: nat)
    requires 1 <= |words| && k <= |words|
    ensures IsPrefix(Accumulated(words, k), Join(words, ' ') + " ")
  {
    if k < |words| {
      AccumulatedJoin(words, k);
    } else {
      AccumulatedJoin(words, k - 1);
      assert words[k - 1..] == [words[k - 1]];
    }
  }

  /** The words taken, each followed by a space, begin the text plus a space. */
  lemma IncipitPrefix(text: string)
    ensures var words := Split(text, ' ');
      IsPrefix(Accumulated(words, WordsFrom(words, 0)), text + " ")
  {
    var words := Split(text, ' ');
    AccumulatedPrefix(words, WordsFrom(words, 0));
    JoinSplit(text, ' ');
  }

  /** Stripping only shortens, so the incipit stays under the limit. */
  lemma IncipitShort(text: string)
    ensures |IncipitOf(text)| < IncipitLimit
  {
    var words := Split(text, ' ');
    var acc := Accumulated(words, WordsFrom(words, 0));
    StripShape(acc, ' ');
    var a: nat, b: nat :| acc == Repeat(' ', a) + Strip(acc, ' ') + Repeat(' ', b);
  }

  /** A first word of 29 characters or more leaves no room: no word is taken. */
  lemma IncipitLongFirstWord(text: string)
    requires |Split(text, ' ')[0]| >= IncipitLimit - 1
    ensures IncipitOf(text) == ""
  {
    var words := Split(text, ' ');
    assert Accumulated(words, 1) == words[0] + " ";
  }

  /** A text that fits with its trailing space is taken whole. */
  lemma IncipitWholeText(text: string)
    requires |text| + 1 < IncipitLimit
    ensures IncipitOf(text) == Strip(text + " ", ' ')
  {
    var words := Split(text, ' ');
    var k := WordsFrom(words, 0);
    JoinSplit(text, ' ');
    if k < |words| {
      AccumulatedPrefix(words, k + 1);
      assert false;
    }
    AccumulatedJoin(words, k - 1);
    assert words[k - 1..] == [words[k - 1]];
  }

  /**
   * The incipit is whole words: the text stripped from a prefix of the
   * standard-spelling text (plus one trailing space) that ends at a word
   * boundary; it is shorter than 30 characters; it is empty when the first
   * word alone has 29 characters or more; a text whose words all fit is
   * its own incipit, stripped.
   */
  lemma IncipitShape(text: string)
    ensures var words := Split(text, ' ');
      var acc := Accumulated(words, WordsFrom(words, 0));
      && IncipitOf(text) == Strip(acc, ' ')
      && IsPrefix(acc, text + " ")
      && |IncipitOf(text)| < IncipitLimit
      && (|words[0]| >= IncipitLimit - 1 ==> IncipitOf(text) == "")
      && (|text| + 1 < IncipitLimit ==> IncipitOf(text) == Strip(text + " ", ' '))
  {
    IncipitPrefix(text);
    IncipitShort(text);
    if |Split(text, ' ')[0]| >= IncipitLimit - 1 {
      IncipitLongFirstWord(text);
    }
    if |text| + 1 < IncipitLimit {
      IncipitWholeText(text);
    }
  }

  // ---------------------------------------------------------------------------
  // form_valid: the duplicate check and the save

  datatype CreateError =
    | /** The standard-spelling text is missing (`None.split` raises). */
      NoStandardText
    | /** A chant with the same source, folio and `c_sequence` exists. */
      DuplicateSequence

  /** Some chant of `chants` has this source, folio and `c_sequence`. */
  predicate Taken(chants: seq<Chant>, source: int, folio: Option<string>, cSequence: Option<int>) {
    exists c :: c in chants && c.sourceId == Some(source) && c.folio == folio && c.cSequence == cSequence
  }

  /** No two chants of one source share a folio and `c_sequence`. */
  predicate Unique(chants: seq<Chant>) {
    forall i, j :: 0 <= i < j < |chants| && chants[i].sourceId.Some? ==>
      (chants[i].sourceId, chants[i].folio, chants[i].cSequence) != (chants[j].sourceId, chants[j].folio, chants[j].cSequence)
  }

  /** The chant table, as far as creating chants is concerned. */
  class ChantStore {
    var chants: seq<Chant>

    constructor (initial: seq<Chant>)
      ensures chants == initial
    {
      chants := initial;
    }

    /**
     * Saves the submitted chant in `source` for `user`, unless a chant of the
     * source already has its folio and `c_sequence`.
     */
    method Create(form: Chant, source: int, user: int) returns (res: Result<Chant, CreateError>)
      modifies this
      ensures form.stdText.None? ==> res == Err(NoStandardText) && chants == old(chants)
      ensures form.stdText.Some? && Taken(old(chants), source, form.folio, form.cSequence) ==>
        res == Err(DuplicateSequence) && chants == old(chants)
      ensures form.stdText.Some? && !Taken(old(chants), source, form.folio, form.cSequence) ==>
        var saved := form.(sourceId := Some(source), incipit := Some(IncipitOf(form.stdText.value)),
                           createdBy := Some(user), lastUpdatedBy := Some(user));
        res == Ok(saved) && chants == old(chants) + [saved]
      ensures Unique(old(chants)) ==> Unique(chants)
    {
      if form.stdText.None? {
        return Err(NoStandardText);
      }
      var instance := form.(sourceId := Some(source));
      var incipit := Incipit(form.stdText.value);
      instance := instance.(incipit := Some(incipit));
      if exists c :: c in chants && c.sourceId == Some(source) && c.folio == instance.folio && c.cSequence == instance.cSequence {
        return Err(DuplicateSequence);
      }
      instance := instance.(createdBy := Some(user), lastUpdatedBy := Some(user));
      NewKeyKeepsUnique(chants, instance);
      chants := chants + [instance];
      res := Ok(instance);
    }
  }

  /** Appending a chant whose key is not taken keeps the table free of duplicates. */
  lemma NewKeyKeepsUnique(chants: seq<Chant>, c: Chant)
    requires c.sourceId.Some?
    requires !Taken(chants, c.sourceId.value, c.folio, c.cSequence)
    ensures Unique(chants) ==> Unique(chants + [c])
  {
    var s := chants + [c];
    if Unique(chants) {
      forall i, j | 0 <= i < j < |s| && s[i].sourceId.Some?
        ensures (s[i].sourceId, s[i].folio, s[i].cSequence) != (s[j].sourceId, s[j].folio, s[j].cSequence)
      {
        if j == |chants| {
          assert s[i] in chants;
        }
      }
    }
  }
}
