/**
 * The chant search views: `ChantSearchView.get_queryset` (all sources) and
 * `ChantSearchMSView.get_queryset` (one source). Each request parameter that
 * is given adds one lookup to a `Q` object (`q &= Q(...)`); the keyword and
 * indexing-notes lookups are applied as further filters; the global view
 * concatenates the chant and sequence results (`union(all=True)`), and both
 * views end with `order_by(primary, "id")`.
 *
 * The database is the two input sequences; a filter keeps the rows a lookup
 * holds for, in their input order.
 */
module ChantSearch {
  import opened Wrappers
  import opened Strings
  import opened Seqs
  import opened Records
  import opened SearchOrdering

  // ---------------------------------------------------------------------------
  // Request parameters

  /** The query string, one value per name (`request.GET.get(name)`). */
  type Params = map<string, string>

  function Param(get: Params, name: string): Option<string> {
    if name in get then Some(get[name]) else None
  }

  /** `request.GET.get(name)` is truthy: present and not empty. */
  predicate Given(get: Params, name: string) {
    name in get && get[name] != ""
  }

  // ---------------------------------------------------------------------------
  // Lookups and Q objects

  datatype MatchOp = Contains | StartsWith

  /** The `op` parameter: "contains" selects substring matching, anything else prefix matching. */
  function MatchOpOf(op: Option<string>): MatchOp {
    if op == Some("contains") then Contains else StartsWith
  }

  /** `field__icontains` / `field__istartswith`; a NULL column never matches. */
  predicate TextMatches(field: Option<string>, term: string, op: MatchOp) {
    field.Some? &&
    match op
    case Contains => IContains(field.value, term)
    case StartsWith => IStartsWith(field.value, term)
  }

  /** The keyword lookup, OR-ed over the three text columns. */
  predicate KeywordMatches(r: Chant, term: string, op: MatchOp) {
    TextMatches(r.fullText, term, op) || TextMatches(r.stdText, term, op) ||
    TextMatches(r.incipit, term, op)
  }

  /** One `Q(...)` lookup. */
  datatype Lookup =
    | ServiceIs(serviceId: int)
    | GenreIs(genreId: int)
    | CantusIdContains(cantusId: string)
    | ModeIs(mode: string)
    | PositionIs(position: string)
    | VolpianoIsNull(isNull: bool)
    | FeastNameContains(feastName: string)
    | Keyword(term: string, op: MatchOp)
    | NotesMatch(notes: string, op: MatchOp)
    | SourcePublished

  predicate Satisfies(r: Chant, l: Lookup) {
    match l
    case ServiceIs(id) => r.serviceId == Some(id)
    case GenreIs(id) => r.genreId == Some(id)
    case CantusIdContains(t) => TextMatches(r.cantusId, t, Contains)
    case ModeIs(m) => r.mode == Some(m)
    case PositionIs(p) => r.position == Some(p)
    case VolpianoIsNull(isNull) => r.volpiano.None? == isNull
    case FeastNameContains(t) => TextMatches(r.feastName, t, Contains)
    case Keyword(t, op) => KeywordMatches(r, t, op)
    case NotesMatch(t, op) => TextMatches(r.indexingNotes, t, op)
    case SourcePublished => r.published
  }

  /** A `Q` object as `q &= Q(...)` builds it: the empty `Q()` or a conjunction. */
  datatype Q = Everything | And(left: Q, right: Lookup)

  predicate Holds(q: Q, r: Chant) {
    match q
    case Everything => true
    case And(left, l) => Holds(left, r) && Satisfies(r, l)
  }

  /** `queryset.filter(q)`: the rows `q` holds for, in their order. */
  function Filter(rows: seq<Chant>, q: Q): seq<Chant> {
    Where(rows, r => Holds(q, r))
  }

  lemma FilterEverything(rows: seq<Chant>)
    ensures Filter(rows, Everything) == rows
  {
    WhereAll(rows, r => Holds(Everything, r));
  }

  /** Three filters in a row keep exactly the rows that satisfy all three. */
  lemma FilterThrice(rows: seq<Chant>, a: Q, b: Q, c: Q, spec: Chant -> bool)
    requires forall r :: spec(r) == (Holds(a, r) && Holds(b, r) && Holds(c, r))
    ensures Filter(Filter(Filter(rows, a), b), c) == Where(rows, spec)
  {
    var pa, pb, pc := r => Holds(a, r), r => Holds(b, r), r => Holds(c, r);
    var pab := r => Holds(a, r) && Holds(b, r);
    WhereWhere(rows, pa, pb, pab);
    WhereWhere(rows, pab, pc, spec);
  }

  // ---------------------------------------------------------------------------
  // What a returned row satisfies

  /** The search-form fields that become lookups. */
  datatype FormField =
    | ServiceParam | GenreParam | CantusIdParam | ModeParam | PositionParam
    | MelodiesParam        // global view: only "true" filters
    | SourceMelodiesParam  // per-source view: "true" and "false" both filter
    | FeastParam | KeywordParam | NotesParam

  /** The query-string name of a form field. */
  function Name(f: FormField): string {
    match f
    case ServiceParam => "service"
    case GenreParam => "genre"
    case CantusIdParam => "cantus_id"
    case ModeParam => "mode"
    case PositionParam => "position"
    case MelodiesParam => "melodies"
    case SourceMelodiesParam => "melodies"
    case FeastParam => "feast"
    case KeywordParam => "keyword"
    case NotesParam => "indexing_notes"
  }

  /** What a form field demands of a row; nothing when it is not given. */
  predicate FieldOk(get: Params, f: FormField, r: Chant) {
    !Given(get, Name(f)) ||
    var v := get[Name(f)];
    match f
    case ServiceParam => r.serviceId.Some? && r.serviceId == ParseInt(v)
    case GenreParam => r.genreId.Some? && r.genreId == ParseInt(v)
    case CantusIdParam => TextMatches(r.cantusId, v, Contains)
    case ModeParam => r.mode == Some(v)
    case PositionParam => r.position == Some(v)
    case MelodiesParam => v == "true" ==> r.volpiano.Some?
    case SourceMelodiesParam => (v == "true" ==> r.volpiano.Some?) && (v == "false" ==> r.volpiano.None?)
    case FeastParam => TextMatches(r.feastName, v, Contains)
    case KeywordParam => KeywordMatches(r, v, MatchOpOf(Param(get, "op")))
    case NotesParam => TextMatches(r.indexingNotes, v, MatchOpOf(Param(get, "indexing_notes_op")))
  }

  /** Every field in `fs` matches. */
  predicate AllOk(get: Params, fs: seq<FormField>, r: Chant) {
    forall i :: 0 <= i < |fs| ==> FieldOk(get, fs[i], r)
  }

  lemma AllOkAppend(get: Params, fs: seq<FormField>, f: FormField, r: Chant)
    ensures AllOk(get, fs + [f], r) == (AllOk(get, fs, r) && FieldOk(get, f, r))
  {
    assert forall i :: 0 <= i < |fs| ==> (fs + [f])[i] == fs[i];
    assert (fs + [f])[|fs|] == f;
  }

  /** The global form, in the order the view adds the lookups (the keyword comes last). */
  const GlobalForm: seq<FormField> :=
    [ServiceParam, GenreParam, CantusIdParam, ModeParam, PositionParam, MelodiesParam, FeastParam, KeywordParam]

  /** The per-source form: no position, both melody values, and the indexing notes last. */
  const SourceForm: seq<FormField> :=
    [ServiceParam, GenreParam, CantusIdParam, ModeParam, SourceMelodiesParam, FeastParam, KeywordParam, NotesParam]

  /** The search form of the global view: every given field matches. */
  predicate FormMatch(get: Params, r: Chant) {
    AllOk(get, GlobalForm, r)
  }

  /** The search form of the per-source view: every given field matches. */
  predicate SourceFormMatch(get: Params, r: Chant) {
    AllOk(get, SourceForm, r)
  }

  /** The search bar: a Cantus ID search when the term has a digit, an incipit search otherwise. */
  predicate SearchBarMatch(term: string, r: Chant) {
    if HasDigit(term) then TextMatches(r.cantusId, term, Contains)
    else KeywordMatches(r, term, StartsWith)
  }

  /** A row the global search returns: visible to the caller, and matching the bar or the form. */
  predicate GlobalMatch(get: Params, authenticated: bool, r: Chant) {
    (authenticated || r.published) &&
    if Given(get, "search_bar") then SearchBarMatch(get["search_bar"], r) else FormMatch(get, r)
  }

  /** A numeric id parameter that is given but that Python's `int` refuses. */
  predicate BadId(get: Params, name: string) {
    Given(get, name) && ParseInt(get[name]).None?
  }

  datatype SearchError = InvalidParameter(name: string) | SourceNotFound

  /**
   * A queryset as a view returns it: its rows in the order the filters and the
   * union leave them, and the primary field of its `order_by` (`none()` has none).
   */
  datatype Listing = Listing(rows: seq<Chant>, orderBy: Option<string>)

  // ---------------------------------------------------------------------------
  // Building the Q object field by field

  /** `q` demands exactly the fields `fs`. */
  ghost predicate Demands(q: Q, get: Params, fs: seq<FormField>) {
    forall r :: Holds(q, r) == AllOk(get, fs, r)
  }

  /** Conjoining the lookup of field `f` makes `q` demand `f` as well. */
  lemma AddField(q: Q, l: Lookup, get: Params, fs: seq<FormField>, f: FormField)
    requires Demands(q, get, fs)
    requires forall r :: Satisfies(r, l) == FieldOk(get, f, r)
    ensures Demands(And(q, l), get, fs + [f])
  {
    forall r {
      AllOkAppend(get, fs, f, r);
    }
  }

  /** A field that demands nothing needs no lookup. */
  lemma SkipField(q: Q, get: Params, fs: seq<FormField>, f: FormField)
    requires Demands(q, get, fs)
    requires forall r :: FieldOk(get, f, r)
    ensures Demands(q, get, fs + [f])
  {
    forall r {
      AllOkAppend(get, fs, f, r);
    }
  }

  /**
   * The lookups both views build first, from the service, genre, Cantus ID
   * and mode fields. A malformed genre id fails at once (`int(genre)`); a
   * malformed service id only fails when the query runs, and its lookup is
   * not part of `q`.
   */
  method IdQuery(get: Params) returns (q: Q, genreInvalid: bool, serviceInvalid: bool)
    ensures genreInvalid == BadId(get, "genre")
    ensures serviceInvalid == BadId(get, "service")
    ensures !genreInvalid ==> Demands(q, get, if serviceInvalid then GlobalForm[1..4] else GlobalForm[..4])
  {
    q, genreInvalid, serviceInvalid := Everything, false, false;
    ghost var fs: seq<FormField> := [];
    if Given(get, "service") {
      var id := ParseInt(get["service"]);
      if id.Some? {
        AddField(q, ServiceIs(id.value), get, fs, ServiceParam);
        q := And(q, ServiceIs(id.value));
      } else {
        serviceInvalid := true;
      }
    } else {
      SkipField(q, get, fs, ServiceParam);
    }
    if !serviceInvalid {
      fs := fs + [ServiceParam];
    }
    if Given(get, "genre") {
      var id := ParseInt(get["genre"]);
      if id.None? {
        genreInvalid := true;
        return;
      }
      AddField(q, GenreIs(id.value), get, fs, GenreParam);
      q := And(q, GenreIs(id.value));
    } else {
      SkipField(q, get, fs, GenreParam);
    }
    fs := fs + [GenreParam];
    if Given(get, "cantus_id") {
      AddField(q, CantusIdContains(get["cantus_id"]), get, fs, CantusIdParam);
      q := And(q, CantusIdContains(get["cantus_id"]));
    } else {
      SkipField(q, get, fs, CantusIdParam);
    }
    fs := fs + [CantusIdParam];
    if Given(get, "mode") {
      AddField(q, ModeIs(get["mode"]), get, fs, ModeParam);
      q := And(q, ModeIs(get["mode"]));
    } else {
      SkipField(q, get, fs, ModeParam);
    }
    fs := fs + [ModeParam];
    assert fs == if serviceInvalid then GlobalForm[1..4] else GlobalForm[..4];
  }

  /** The `Q` object of a view: the id lookups, then position (global view only), melodies and feast. */
  method FormQuery(get: Params, perSource: bool) returns (q: Q, genreInvalid: bool, serviceInvalid: bool)
    ensures genreInvalid == BadId(get, "genre")
    ensures serviceInvalid == BadId(get, "service")
    ensures !genreInvalid && !serviceInvalid ==>
      Demands(q, get, if perSource then SourceForm[..6] else GlobalForm[..7])
  {
    q, genreInvalid, serviceInvalid := IdQuery(get);
    if genreInvalid {
      return;
    }
    ghost var fs := if serviceInvalid then GlobalForm[1..4] else GlobalForm[..4];
    assert SourceForm[..4] == GlobalForm[..4];
    if !perSource {
      if Given(get, "position") {
        AddField(q, PositionIs(get["position"]), get, fs, PositionParam);
        q := And(q, PositionIs(get["position"]));
      } else {
        SkipField(q, get, fs, PositionParam);
      }
      fs := fs + [PositionParam];
    }
    var melodies := if perSource then SourceMelodiesParam else MelodiesParam;
    if Given(get, "melodies") && get["melodies"] == "true" {
      AddField(q, VolpianoIsNull(false), get, fs, melodies);
      q := And(q, VolpianoIsNull(false));
    } else if perSource && Given(get, "melodies") && get["melodies"] == "false" {
      AddField(q, VolpianoIsNull(true), get, fs, melodies);
      q := And(q, VolpianoIsNull(true));
    } else {
      SkipField(q, get, fs, melodies);
    }
    fs := fs + [melodies];
    if Given(get, "feast") {
      AddField(q, FeastNameContains(get["feast"]), get, fs, FeastParam);
      q := And(q, FeastNameContains(get["feast"]));
    } else {
      SkipField(q, get, fs, FeastParam);
    }
    fs := fs + [FeastParam];
    assert !serviceInvalid ==> fs == if perSource then SourceForm[..6] else GlobalForm[..7];
  }

  /** The last filter of a view: the lookup of one text field, or no filter when it is not given. */
  function TextFilter(get: Params, f: FormField): (q: Q)
    requires f == KeywordParam || f == NotesParam
    ensures forall r :: Holds(q, r) == FieldOk(get, f, r)
  {
    if !Given(get, Name(f)) then Everything
    else if f == KeywordParam then And(Everything, Keyword(get[Name(f)], MatchOpOf(Param(get, "op"))))
    else And(Everything, NotesMatch(get[Name(f)], MatchOpOf(Param(get, "indexing_notes_op"))))
  }

  /** The per-source `Q` object, then the keyword, then the notes filter: the per-source form. */
  lemma SourceFilters(get: Params, rows: seq<Chant>, q: Q, keywordFilter: Q, notesFilter: Q)
    requires Demands(q, get, SourceForm[..6])
    requires forall r :: Holds(keywordFilter, r) == FieldOk(get, KeywordParam, r)
    requires forall r :: Holds(notesFilter, r) == FieldOk(get, NotesParam, r)
    ensures Filter(Filter(Filter(rows, q), keywordFilter), notesFilter) ==
      Where(rows, r => SourceFormMatch(get, r))
  {
    assert SourceForm == SourceForm[..6] + [KeywordParam] + [NotesParam];
    forall r
      ensures SourceFormMatch(get, r) ==
        (AllOk(get, SourceForm[..6], r) && FieldOk(get, KeywordParam, r) && FieldOk(get, NotesParam, r))
    {
      AllOkAppend(get, SourceForm[..6], KeywordParam, r);
      AllOkAppend(get, SourceForm[..6] + [KeywordParam], NotesParam, r);
    }
    FilterThrice(rows, q, keywordFilter, notesFilter, r => SourceFormMatch(get, r));
  }

  // ---------------------------------------------------------------------------
  // ChantSearchView.get_queryset

  /**
   * The visibility filter, then the `Q` object, then the keyword filter (or
   * the search-bar lookup) keep exactly the rows `GlobalMatch` describes.
   */
  lemma GlobalFilters(get: Params, authenticated: bool, rows: seq<Chant>, pre: Q, q: Q, post: Q)
    requires forall r :: Holds(pre, r) == (authenticated || r.published)
    requires Given(get, "search_bar") ==>
      forall r :: (Holds(q, r) && Holds(post, r)) == SearchBarMatch(get["search_bar"], r)
    requires !Given(get, "search_bar") ==> Demands(q, get, GlobalForm[..7])
    requires !Given(get, "search_bar") ==> forall r :: Holds(post, r) == FieldOk(get, KeywordParam, r)
    ensures Filter(Filter(Filter(rows, pre), q), post) ==
      Where(rows, r => GlobalMatch(get, authenticated, r))
  {
    if !Given(get, "search_bar") {
      assert GlobalForm == GlobalForm[..7] + [KeywordParam];
      forall r
        ensures FormMatch(get, r) == (AllOk(get, GlobalForm[..7], r) && FieldOk(get, KeywordParam, r))
      {
        AllOkAppend(get, GlobalForm[..7], KeywordParam, r);
      }
    }
    FilterThrice(rows, pre, q, post, r => GlobalMatch(get, authenticated, r));
  }

  method GlobalSearch(get: Params, authenticated: bool, chants: seq<Chant>, sequences: seq<Chant>)
    returns (res: Result<Listing, SearchError>)
    ensures |get| == 0 ==> res == Ok(Listing([], None))
    ensures |get| > 0 && !Given(get, "search_bar") && BadId(get, "genre") ==>
      res == Err(InvalidParameter("genre"))
    ensures |get| > 0 && !Given(get, "search_bar") && !BadId(get, "genre") && BadId(get, "service") ==>
      res == Err(InvalidParameter("service"))
    ensures |get| > 0 && (Given(get, "search_bar") || (!BadId(get, "genre") && !BadId(get, "service"))) ==>
      res == Ok(Listing(
        Where(chants, r => GlobalMatch(get, authenticated, r)) +
        Where(sequences, r => GlobalMatch(get, authenticated, r)),
        Some(GlobalOrderBy(Param(get, "order"), Param(get, "sort")))))
  {
    if |get| == 0 {
      return Ok(Listing([], None));
    }
    var chantSet, sequenceSet;
    if Given(get, "search_bar") {
      chantSet := SearchBarRows(get, authenticated, chants);
      sequenceSet := SearchBarRows(get, authenticated, sequences);
    } else {
      var q, genreInvalid, serviceInvalid := FormQuery(get, false);
      if genreInvalid {
        return Err(InvalidParameter("genre"));
      }
      // Filtering with a malformed id fails in the database layer.
      if serviceInvalid {
        return Err(InvalidParameter("service"));
      }
      chantSet := FormRows(get, authenticated, chants, q);
      sequenceSet := FormRows(get, authenticated, sequences, q);
    }
    var orderBy := GlobalOrderBy(Param(get, "order"), Param(get, "sort"));
    res := Ok(Listing(chantSet + sequenceSet, Some(orderBy)));
  }

  /**
   * The search-bar branch on one table: visibility, then the Cantus ID
   * lookup when the term has a digit, the incipit lookup otherwise.
   */
  method SearchBarRows(get: Params, authenticated: bool, rows: seq<Chant>) returns (out: seq<Chant>)
    requires Given(get, "search_bar")
    ensures out == Where(rows, r => GlobalMatch(get, authenticated, r))
  {
    var published := And(Everything, SourcePublished);
    ghost var pre := if authenticated then Everything else published;
    if authenticated {
      out := rows;
      FilterEverything(rows);
    } else {
      out := Filter(rows, published);
    }
    var term := get["search_bar"];
    var q, post;
    if HasDigit(term) {
      q, post := And(Everything, CantusIdContains(term)), Everything;
      out := Filter(out, q);
      FilterEverything(out);
    } else {
      q, post := Everything, And(Everything, Keyword(term, StartsWith));
      FilterEverything(out);
      out := Filter(out, post);
    }
    GlobalFilters(get, authenticated, rows, pre, q, post);
  }

  /** The form branch on one table: visibility, the form's `Q` object, then the keyword filter. */
  method FormRows(get: Params, authenticated: bool, rows: seq<Chant>, q: Q) returns (out: seq<Chant>)
    requires !Given(get, "search_bar") && Demands(q, get, GlobalForm[..7])
    ensures out == Where(rows, r => GlobalMatch(get, authenticated, r))
  {
    var published := And(Everything, SourcePublished);
    ghost var pre := if authenticated then Everything else published;
    if !authenticated {
      out := Filter(rows, published);
    } else {
      out := rows;
      FilterEverything(rows);
    }
    out := Filter(out, q);
    var post := TextFilter(get, KeywordParam);
    if Given(get, "keyword") {
      out := Filter(out, post);
    } else {
      FilterEverything(out);
    }
    GlobalFilters(get, authenticated, rows, pre, q, post);
  }

  // ---------------------------------------------------------------------------
  // ChantSearchMSView.get_queryset

  /** A source row with its chant and sequence sets. */
  datatype Source = Source(id: int, segmentId: int, chants: seq<Chant>, sequences: seq<Chant>)

  /** The segment whose sources list sequences instead of chants. */
  const SequenceSegment: int := 4064

  /** The source whose melodies are withheld from melody searches. */
  const MelodiesWithheld: int := 680970

  /** `Source.objects.get(id=id)`: the source with that id, if any. */
  function FindSource(sources: seq<Source>, id: int): (s: Option<Source>)
    ensures s.Some? ==> s.value in sources && s.value.id == id
    ensures s.None? ==> forall i :: 0 <= i < |sources| ==> sources[i].id != id
  {
    if sources == [] then None
    else if sources[0].id == id then Some(sources[0])
    else FindSource(sources[1..], id)
  }

  /** The rows a source lists: its sequences in the sequence segment, its chants otherwise. */
  function SourceRows(s: Source): seq<Chant> {
    if s.segmentId == SequenceSegment then s.sequences else s.chants
  }

  method SourceSearch(get: Params, sourcePk: int, sources: seq<Source>)
    returns (res: Result<Listing, SearchError>)
    ensures |get| == 0 ==> res == Ok(Listing([], None))
    ensures Param(get, "melodies") == Some("true") && sourcePk == MelodiesWithheld ==>
      res == Ok(Listing([], None))
    ensures |get| > 0 && !(Param(get, "melodies") == Some("true") && sourcePk == MelodiesWithheld) ==>
      if BadId(get, "genre") then res == Err(InvalidParameter("genre"))
      else if FindSource(sources, sourcePk).None? then res == Err(SourceNotFound)
      else if BadId(get, "service") then res == Err(InvalidParameter("service"))
      else res == Ok(Listing(
        Where(SourceRows(FindSource(sources, sourcePk).value), r => SourceFormMatch(get, r)),
        Some(SourceOrderBy(Param(get, "order"), Param(get, "sort")))))
  {
    if |get| == 0 {
      return Ok(Listing([], None));
    }
    if Param(get, "melodies") == Some("true") && sourcePk == MelodiesWithheld {
      return Ok(Listing([], None));
    }
    var q, genreInvalid, serviceInvalid := FormQuery(get, true);
    if genreInvalid {
      return Err(InvalidParameter("genre"));
    }
    var orderBy := SourceOrderBy(Param(get, "order"), Param(get, "sort"));
    var source := FindSource(sources, sourcePk);
    if source.None? {
      return Err(SourceNotFound);
    }
    // Filtering with a malformed id fails in the database layer.
    if serviceInvalid {
      return Err(InvalidParameter("service"));
    }
    var queryset := FilterSourceRows(get, SourceRows(source.value), q);
    res := Ok(Listing(queryset, Some(orderBy)));
  }

  /** The per-source filters in turn: the `Q` object, the keyword, then the indexing notes. */
  method FilterSourceRows(get: Params, rows: seq<Chant>, q: Q) returns (queryset: seq<Chant>)
    requires Demands(q, get, SourceForm[..6])
    ensures queryset == Where(rows, r => SourceFormMatch(get, r))
  {
    queryset := Filter(rows, q);
    var keywordFilter := TextFilter(get, KeywordParam);
    if Given(get, "keyword") {
      queryset := Filter(queryset, keywordFilter);
    } else {
      FilterEverything(queryset);
    }
    var notesFilter := TextFilter(get, NotesParam);
    if Given(get, "indexing_notes") {
      queryset := Filter(queryset, notesFilter);
    } else {
      FilterEverything(queryset);
    }
    SourceFilters(get, rows, q, keywordFilter, notesFilter);
  }

  // ---------------------------------------------------------------------------
  // Properties of the two searches

  /**
   * A row is in the global result exactly when it is a chant or a sequence
   * that matches; in particular an anonymous caller only sees published rows.
   */
  lemma GlobalResultMembers(get: Params, authenticated: bool, chants: seq<Chant>, sequences: seq<Chant>, r: Chant)
    ensures var spec := x => GlobalMatch(get, authenticated, x);
      r in Where(chants, spec) + Where(sequences, spec) <==>
      (r in chants || r in sequences) && GlobalMatch(get, authenticated, r)
    ensures var spec := x => GlobalMatch(get, authenticated, x);
      !authenticated && r in Where(chants, spec) + Where(sequences, spec) ==> r.published
  {
    var spec := x => GlobalMatch(get, authenticated, x);
    WhereMembers(chants, spec, r);
    WhereMembers(sequences, spec, r);
  }

  /** "melodies=false" constrains nothing in the global search. */
  lemma GlobalMelodiesFalseUnconstrained(get: Params, r: Chant)
    requires Param(get, "melodies") == Some("false")
    ensures FormMatch(get, r) == FormMatch(get - {"melodies"}, r)
  {
    var get' := get - {"melodies"};
    assert forall n :: n != "melodies" ==> Param(get', n) == Param(get, n) && Given(get', n) == Given(get, n);
  }

  /** "melodies=false" keeps only rows without a melody in the per-source search. */
  lemma SourceMelodiesFalseNull(get: Params, r: Chant)
    requires Param(get, "melodies") == Some("false")
    ensures SourceFormMatch(get, r) ==> r.volpiano.None?
  {
    assert SourceForm[4] == SourceMelodiesParam;
  }

  /** With a search bar term, the form fields are ignored. */
  lemma SearchBarIgnoresForm(get: Params, authenticated: bool, r: Chant)
    requires Given(get, "search_bar")
    ensures GlobalMatch(get, authenticated, r) ==
      GlobalMatch(map["search_bar" := get["search_bar"]], authenticated, r)
  {
  }
}
