/**
 * The source edit page (`SourceEditChantsView`, views/chant.py) and the folio
 * navigation it shares with the chant detail page: which chants are listed
 * (a feast filter wins over a folio filter; by default the first folio), the
 * previous and next folio, and how a save by a user who may not proofread
 * keeps the proofreading fields as they were.
 */
module SourceEdit {
  import opened Wrappers
  import opened Strings
  import opened Seqs
  import opened Records
  import opened ChantSearch

  // ---------------------------------------------------------------------------
  // The folio list: `values_list("folio").distinct().order_by("folio")`

  /**
   * The order of folios in the list: text by code point, and `NULL` after
   * every text (PostgreSQL sorts nulls last in ascending order).
   */
  predicate FolioBefore(a: Option<string>, b: Option<string>) {
    match a
    case None => false
    case Some(x) => b.None? || StrLess(x, b.value)
  }

  lemma FolioBeforeIrreflexive(a: Option<string>)
    ensures !FolioBefore(a, a)
  {
    if a.Some? {
      StrLessIrreflexive(a.value);
    }
  }

  lemma FolioBeforeTransitive(a: Option<string>, b: Option<string>, c: Option<string>)
    requires FolioBefore(a, b) && FolioBefore(b, c)
    ensures FolioBefore(a, c)
  {
    if c.Some? {
      StrLessTransitive(a.value, b.value, c.value);
    }
  }

  lemma FolioBeforeTotal(a: Option<string>, b: Option<string>)
    ensures a == b || FolioBefore(a, b) || FolioBefore(b, a)
  {
    if a.Some? && b.Some? {
      StrLessTotal(a.value, b.value);
    }
  }

  /** Each element comes strictly before the later ones (so none repeats). */
  predicate StrictlySorted(s: seq<Option<string>>) {
    forall i, j :: 0 <= i < j < |s| ==> FolioBefore(s[i], s[j])
  }

  /** Puts `x` in its place in a strictly sorted list, unless it is already there. */
  function InsertFolio(x: Option<string>, s: seq<Option<string>>): seq<Option<string>> {
    if s == [] then [x]
    else if x == s[0] then s
    else if FolioBefore(x, s[0]) then [x] + s
    else [s[0]] + InsertFolio(x, s[1..])
  }

  lemma {:induction false} InsertFolioMembers(x: Option<string>, s: seq<Option<string>>, y: Option<string>)
    ensures y in InsertFolio(x, s) <==> y == x || y in s
  {
    if s != [] && x != s[0] && !FolioBefore(x, s[0]) {
      InsertFolioMembers(x, s[1..], y);
      assert y in s <==> y == s[0] || y in s[1..];
    }
  }

  lemma {:induction false} InsertFolioSorted(x: Option<string>, s: seq<Option<string>>)
    requires StrictlySorted(s)
    ensures StrictlySorted(InsertFolio(x, s))
  {
    if s == [] || x == s[0] {
    } else if FolioBefore(x, s[0]) {
      var r := [x] + s;
      forall i, j | 0 <= i < j < |r| ensures FolioBefore(r[i], r[j]) {
        if i == 0 && j > 1 {
          FolioBeforeTransitive(x, s[0], s[j - 1]);
        }
      }
    } else {
      FolioBeforeTotal(x, s[0]);
      InsertFolioSorted(x, s[1..]);
      var t := InsertFolio(x, s[1..]);
      var r := [s[0]] + t;
      forall k | 0 <= k < |t| ensures FolioBefore(s[0], t[k]) {
        InsertFolioMembers(x, s[1..], t[k]);
      }
      assert forall i, j :: 0 <= i < j < |r| ==> FolioBefore(r[i], r[j]) by {
        forall i, j | 0 <= i < j < |r| ensures FolioBefore(r[i], r[j]) {
          if i > 0 {
            assert r[i] == t[i - 1] && r[j] == t[j - 1];
          } else {
            assert r[j] == t[j - 1];
          }
        }
      }
    }
  }

  /** The folios of the chants, in row order, `None` for a chant without one. */
  function ChantFolios(chants: seq<Chant>): (r: seq<Option<string>>)
    ensures |r| == |chants| && forall i :: 0 <= i < |chants| ==> r[i] == chants[i].folio
  {
    seq(|chants|, i requires 0 <= i < |chants| => chants[i].folio)
  }

  function SortFolios(fs: seq<Option<string>>): seq<Option<string>> {
    if fs == [] then [] else InsertFolio(fs[0], SortFolios(fs[1..]))
  }

  lemma {:induction false} SortFoliosSpec(fs: seq<Option<string>>)
    ensures StrictlySorted(SortFolios(fs))
    ensures forall y :: y in SortFolios(fs) <==> y in fs
  {
    if fs != [] {
      SortFoliosSpec(fs[1..]);
      InsertFolioSorted(fs[0], SortFolios(fs[1..]));
      forall y ensures y in SortFolios(fs) <==> y in fs {
        InsertFolioMembers(fs[0], SortFolios(fs[1..]), y);
        assert y in fs <==> y == fs[0] || y in fs[1..];
      }
    }
  }

  /** The distinct folios of the source's chants, `NULL` included, in order. */
  function FolioList(chants: seq<Chant>): seq<Option<string>> {
    SortFolios(ChantFolios(chants))
  }

  /**
   * The folio list is strictly ordered and holds exactly the folios of the
   * chants (the `NULL` folio too, when a chant has none).
   */
  lemma FolioListSpec(chants: seq<Chant>)
    ensures StrictlySorted(FolioList(chants))
    ensures forall f :: f in FolioList(chants) <==> exists c :: c in chants && c.folio == f
  {
    var fs := ChantFolios(chants);
    SortFoliosSpec(fs);
    forall f ensures f in FolioList(chants) <==> exists c :: c in chants && c.folio == f {
      if f in fs {
        var i :| 0 <= i < |fs| && fs[i] == f;
        assert chants[i] in chants;
      }
      if exists c :: c in chants && c.folio == f {
        var c :| c in chants && c.folio == f;
        var i :| 0 <= i < |chants| && chants[i] == c;
        assert fs[i] == f;
      }
    }
  }

  // ---------------------------------------------------------------------------
  // get_queryset: the chants listed on the edit page

  datatype EditError =
    | /** `feast__id` given text that is not a number. */
      InvalidFeastId
    | /** `Http404`: the source has no folio to select. */
      NoFolios

  /**
   * The chants listed for the source whose chants are `chants`, given the
   * request's parameters.
   */
  function EditSelection(chants: seq<Chant>, get: Params): (r: Result<seq<Chant>, EditError>)
    ensures r.Err? ==> chants != []
    ensures r == Err(InvalidFeastId) <==> chants != [] && BadId(get, "feast")
  {
    if chants == [] then Ok([])
    else if Given(get, "feast") then
      match ParseInt(get["feast"])
      case None => Err(InvalidFeastId)
      case Some(id) => Ok(Where(chants, (c: Chant) => c.feastId == Some(id)))
    else if Given(get, "folio") then
      Ok(Where(chants, (c: Chant) => c.folio == Some(get["folio"])))
    else
      var folios := FolioList(chants);
      if folios == [] then Err(NoFolios)
      else Ok(Where(chants, (c: Chant) => c.folio == folios[0]))
  }

  /**
   * A feast filter takes precedence: with a valid feast id, exactly the
   * source's chants of that feast are listed, whatever the folio parameter.
   */
  lemma FeastTakesPrecedence(chants: seq<Chant>, get: Params, id: int)
    requires chants != [] && Given(get, "feast") && ParseInt(get["feast"]) == Some(id)
    ensures EditSelection(chants, get).Ok?
    ensures forall c :: c in EditSelection(chants, get).value <==> c in chants && c.feastId == Some(id)
    ensures EditSelection(chants, get) == EditSelection(chants, get - {"folio"})
  {
    forall c ensures c in EditSelection(chants, get).value <==> c in chants && c.feastId == Some(id) {
      WhereMembers(chants, (x: Chant) => x.feastId == Some(id), c);
    }
    assert (get - {"folio"})["feast"] == get["feast"];
  }

  /** Without a feast, a folio parameter lists exactly that folio's chants. */
  lemma FolioFilter(chants: seq<Chant>, get: Params)
    requires chants != [] && !Given(get, "feast") && Given(get, "folio")
    ensures EditSelection(chants, get).Ok?
    ensures forall c :: c in EditSelection(chants, get).value <==> c in chants && c.folio == Some(get["folio"])
  {
    forall c ensures c in EditSelection(chants, get).value <==> c in chants && c.folio == Some(get["folio"]) {
      WhereMembers(chants, (x: Chant) => x.folio == Some(get["folio"]), c);
    }
  }

  /**
   * With neither parameter, the chants of the first folio are listed; that
   * list is never empty, its folio comes before every other folio of the
   * source, and the `Http404` for a source without folios cannot happen once
   * the source has a chant (the folio list includes `NULL`).
   */
  lemma DefaultIsFirstFolio(chants: seq<Chant>, get: Params)
    requires chants != [] && !Given(get, "feast") && !Given(get, "folio")
    ensures EditSelection(chants, get).Ok?
    ensures var rows := EditSelection(chants, get).value;
      && rows != []
      && (forall c :: c in rows ==> c.folio == rows[0].folio)
      && (forall c :: c in chants && c.folio != rows[0].folio ==> FolioBefore(rows[0].folio, c.folio))
  {
    FolioListSpec(chants);
    assert chants[0] in chants;
    var folios := FolioList(chants);
    assert folios != [];
    var first := folios[0];
    var p := (c: Chant) => c.folio == first;
    var rows := Where(chants, p);
    assert first in folios;
    var c0 :| c0 in chants && c0.folio == first;
    WhereMembers(chants, p, c0);
    forall c | c in rows ensures c.folio == first {
      WhereMembers(chants, p, c);
    }
    assert rows[0].folio == first;
    forall c | c in chants && c.folio != first ensures FolioBefore(first, c.folio) {
      assert c.folio in folios;
      var k :| 0 <= k < |folios| && folios[k] == c.folio;
    }
  }

  // ---------------------------------------------------------------------------
  // Previous and next folio

  /** The neighbours of an entry of the folio list; `None` for "no such folio". */
  datatype Nav<T> = Nav(previous: Option<T>, next: Option<T>)

  /**
   * `index = folios.index(x)`, then the entries either side of it; `None`
   * when `x` is not in the list (`index` raises `ValueError`).
   */
  function Neighbours<T(==)>(list: seq<T>, x: T): (r: Option<Nav<T>>)
    ensures r.None? <==> x !in list
  {
    if x !in list then None
    else
      var i := FirstIndex(list, x);
      Some(Nav(if i != 0 then Some(list[i - 1]) else None,
               if i < |list| - 1 then Some(list[i + 1]) else None))
  }

  lemma FirstIndexDistinct<T>(list: seq<T>, i: int)
    requires Distinct(list) && 0 <= i < |list|
    ensures FirstIndex(list, list[i]) == i
  {
    var k := FirstIndex(list, list[i]);
    assert list[k] == list[i];
  }

  /**
   * In a list without repetitions, the previous folio's next folio is the
   * current one, and the next folio's previous folio is the current one.
   */
  lemma NeighboursAdjacent<T>(list: seq<T>, x: T)
    requires Distinct(list) && x in list
    ensures var n := Neighbours(list, x).value;
      && (n.previous.Some? ==> Neighbours(list, n.previous.value) == Some(Nav(Neighbours(list, n.previous.value).value.previous, Some(x))))
      && (n.next.Some? ==> Neighbours(list, n.next.value) == Some(Nav(Some(x), Neighbours(list, n.next.value).value.next)))
  {
    var i := FirstIndex(list, x);
    if i > 0 {
      FirstIndexDistinct(list, i - 1);
    }
    if i < |list| - 1 {
      FirstIndexDistinct(list, i + 1);
    }
  }

  /** In a strictly sorted list, order of entries is order of positions. */
  lemma SortedPositions(list: seq<Option<string>>, k: int, j: int)
    requires StrictlySorted(list) && 0 <= k < |list| && 0 <= j < |list|
    ensures FolioBefore(list[k], list[j]) <==> k < j
  {
    FolioBeforeIrreflexive(list[k]);
    if j < k {
      FolioBeforeAsymmetric(list[j], list[k]);
    }
  }

  lemma StrictlySortedDistinct(list: seq<Option<string>>)
    requires StrictlySorted(list)
    ensures Distinct(list)
  {
    forall i, j | 0 <= i < j < |list| ensures list[i] != list[j] {
      FolioBeforeIrreflexive(list[i]);
    }
  }

  /**
   * On the folio list: there is no previous folio exactly when no folio of
   * the source comes before `x`; a previous folio comes before `x` with no
   * folio of the source strictly between.
   */
  lemma PreviousIsNearest(chants: seq<Chant>, x: Option<string>)
    requires x in FolioList(chants)
    ensures var list, n := FolioList(chants), Neighbours(FolioList(chants), x).value;
      && (n.previous.None? <==> forall y :: y in list ==> !FolioBefore(y, x))
      && (n.previous.Some? ==> FolioBefore(n.previous.value, x))
      && (n.previous.Some? ==> forall y :: y in list ==> !(FolioBefore(n.previous.value, y) && FolioBefore(y, x)))
  {
    var list := FolioList(chants);
    FolioListSpec(chants);
    var i := FirstIndex(list, x);
    forall y | y in list ensures FolioBefore(y, x) ==> i > 0 && !FolioBefore(list[i - 1], y) {
      var k :| 0 <= k < |list| && list[k] == y;
      SortedPositions(list, k, i);
      if i > 0 {
        SortedPositions(list, i - 1, k);
      }
    }
    if i > 0 {
      SortedPositions(list, i - 1, i);
    }
  }

  /**
   * On the folio list: there is no next folio exactly when no folio of the
   * source comes after `x`; a next folio comes after `x` with no folio of
   * the source strictly between. The list's entries are `Option<string>`
   * because it includes the NULL folio, so a next entry `Some(None)` (the
   * NULL folio, listed last) and no next entry (`None`) are told apart here,
   * while the view reads `None` in both cases and shows no next link.
   */
  lemma NextIsNearest(chants: seq<Chant>, x: Option<string>)
    requires x in FolioList(chants)
    ensures var list, n := FolioList(chants), Neighbours(FolioList(chants), x).value;
      && (n.next.None? <==> forall y :: y in list ==> !FolioBefore(x, y))
      && (n.next.Some? ==> FolioBefore(x, n.next.value))
      && (n.next.Some? ==> forall y :: y in list ==> !(FolioBefore(x, y) && FolioBefore(y, n.next.value)))
  {
    var list := FolioList(chants);
    FolioListSpec(chants);
    var i := FirstIndex(list, x);
    forall y | y in list ensures FolioBefore(x, y) ==> i < |list| - 1 && !FolioBefore(y, list[i + 1]) {
      var k :| 0 <= k < |list| && list[k] == y;
      SortedPositions(list, i, k);
      if i < |list| - 1 {
        SortedPositions(list, k, i + 1);
      }
    }
    if i < |list| - 1 {
      SortedPositions(list, i, i + 1);
    }
  }

  lemma FolioBeforeAsymmetric(a: Option<string>, b: Option<string>)
    requires FolioBefore(a, b)
    ensures !FolioBefore(b, a)
  {
    if FolioBefore(b, a) {
      FolioBeforeTransitive(a, b, a);
      FolioBeforeIrreflexive(a);
    }
  }

  /**
   * The chant detail page looks up the chant's own folio, which is always in
   * its source's folio list, so the lookup never fails there.
   */
  lemma DetailNavigationDefined(chants: seq<Chant>, c: Chant)
    requires c in chants
    ensures Neighbours(FolioList(chants), c.folio).Some?
  {
    FolioListSpec(chants);
  }

  /**
   * The folio the edit page navigates from: the `folio` parameter, or the
   * first folio; `None` for `Http404` (the parameter names no folio of the
   * source).
   */
  function EditNavigation(chants: seq<Chant>, get: Params): (r: Option<Nav<Option<string>>>)
    requires chants != []
  {
    var folios := FolioList(chants);
    var folio := if Given(get, "folio") then Some(get["folio"]) else if folios != [] then folios[0] else None;
    Neighbours(folios, folio)
  }

  /**
   * The edit page's navigation fails exactly when the `folio` parameter
   * names a folio no chant of the source has; the default folio has no
   * previous folio.
   */
  lemma EditNavigationDefined(chants: seq<Chant>, get: Params)
    requires chants != []
    ensures EditNavigation(chants, get).None? <==>
      Given(get, "folio") && forall c :: c in chants ==> c.folio != Some(get["folio"])
    ensures !Given(get, "folio") ==> EditNavigation(chants, get).Some? && EditNavigation(chants, get).value.previous.None?
  {
    FolioListSpec(chants);
    assert chants[0] in chants;
    var folios := FolioList(chants);
    assert folios != [];
    if !Given(get, "folio") {
      StrictlySortedDistinct(folios);
      FirstIndexDistinct(folios, 0);
    }
  }

  // ---------------------------------------------------------------------------
  // form_valid: the proofreading fields

  /**
   * The form fields whose change withdraws a proofread flag: `volpiano`,
   * `manuscript_full_text_std_spelling` and `manuscript_full_text`. The
   * form's other changed fields play no part here.
   */
  datatype TextField = VolpianoField | StdSpellingField | FullTextField

  /** The fields only a proofreader may change. */
  datatype Proofreading = Proofreading(
    chantRange: Option<string>,
    volpianoProofread: bool,
    stdProofread: bool,
    fullTextProofread: bool,
    /** `proofread_by`, by user id */
    proofreadBy: seq<int>)

  /**
   * The proofreading fields saved with an edit: the submitted ones for a
   * proofreader; otherwise the original ones, with a flag cleared when the
   * field it vouches for changed.
   */
  function SavedProofreading(submitted: Proofreading, original: Proofreading, canProofread: bool, changed: set<TextField>): Proofreading {
    if canProofread then submitted
    else original.(
      volpianoProofread := original.volpianoProofread && VolpianoField !in changed,
      stdProofread := original.stdProofread && StdSpellingField !in changed,
      fullTextProofread := original.fullTextProofread && FullTextField !in changed)
  }

  /** The chant being saved from the edit form. */
  class EditedChant {
    var proofreading: Proofreading
    var lastUpdatedBy: Option<int>

    constructor (submitted: Proofreading)
      ensures proofreading == submitted && lastUpdatedBy == None
    {
      proofreading := submitted;
      lastUpdatedBy := None;
    }

    /**
     * Applies the rules of a save by `user`: `original` is the stored chant's
     * proofreading, `changed` the form's changed fields.
     */
    method FormValid(original: Proofreading, canProofread: bool, changed: set<TextField>, user: int)
      modifies this
      ensures proofreading == SavedProofreading(old(proofreading), original, canProofread, changed)
      ensures lastUpdatedBy == Some(user)
    {
      var proofreaders: seq<int> := [];
      if !canProofread {
        proofreading := proofreading.(
          chantRange := original.chantRange,
          volpianoProofread := original.volpianoProofread,
          stdProofread := original.stdProofread,
          fullTextProofread := original.fullTextProofread);
        proofreaders := original.proofreadBy;
        if VolpianoField in changed {
          proofreading := proofreading.(volpianoProofread := false);
        }
        if StdSpellingField in changed {
          proofreading := proofreading.(stdProofread := false);
        }
        if FullTextField in changed {
          proofreading := proofreading.(fullTextProofread := false);
        }
      }
      lastUpdatedBy := Some(user);
      if !canProofread {
        proofreading := proofreading.(proofreadBy := proofreaders);
      }
    }
  }

  /**
   * A user who may not proofread cannot set a proofread flag, change the
   * chant range or the proofreaders; a flag survives only when its field
   * did not change.
   */
  lemma NonProofreaderCannotProofread(submitted: Proofreading, original: Proofreading, changed: set<TextField>)
    ensures var s := SavedProofreading(submitted, original, false, changed);
      && s.chantRange == original.chantRange
      && s.proofreadBy == original.proofreadBy
      && (s.volpianoProofread ==> original.volpianoProofread)
      && (s.stdProofread ==> original.stdProofread)
      && (s.fullTextProofread ==> original.fullTextProofread)
      && (s.volpianoProofread <==> original.volpianoProofread && VolpianoField !in changed)
      && (s.stdProofread <==> original.stdProofread && StdSpellingField !in changed)
      && (s.fullTextProofread <==> original.fullTextProofread && FullTextField !in changed)
  {
  }

  /** Saving with nothing changed leaves a non-proofreader's edit with the original fields. */
  lemma UnchangedEditKeepsOriginal(submitted: Proofreading, original: Proofreading)
    ensures SavedProofreading(submitted, original, false, {}) == original
  {
  }
}
