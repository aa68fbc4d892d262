/**
 * The grouping helpers of the chant pages (views/chant.py:109-176): the
 * folio/feast pairs offered by the feast selector, one folio's chants grouped
 * by feast, and one feast's chants grouped by folio. A query result is the
 * sequence of rows the database returns, in the order it returns them.
 */
module Grouping {
  import opened Wrappers
  import opened Seqs
  import opened Records

  // ---------------------------------------------------------------------------
  // get_feast_selector_options: `list(dict.fromkeys(triples))`

  /** One `(folio, feast_id, feast__name)` triple of the feast selector. */
  datatype FeastOption = FeastOption(folio: Option<string>, feastId: int, feastName: Option<string>)

  /** The triples of the rows that have a feast (`exclude(feast=None)`), in row order. */
  function Triples(rows: seq<Chant>): seq<FeastOption> {
    if rows == [] then []
    else
      var c := rows[|rows| - 1];
      Triples(rows[..|rows| - 1]) +
      (if c.feastId.Some? then [FeastOption(c.folio, c.feastId.value, c.feastName)] else [])
  }

  /** `o` is the triple of some row of `rows` that has a feast. */
  ghost predicate TripleOfSome(rows: seq<Chant>, o: FeastOption) {
    exists c :: c in rows && c.feastId == Some(o.feastId) && c.folio == o.folio && c.feastName == o.feastName
  }

  lemma {:induction false} TriplesMembers(rows: seq<Chant>, o: FeastOption)
    ensures o in Triples(rows) <==> TripleOfSome(rows, o)
  {
    if rows != [] {
      var init, c := rows[..|rows| - 1], rows[|rows| - 1];
      assert rows == init + [c];
      TriplesMembers(init, o);
      if TripleOfSome(rows, o) {
        var d :| d in rows && d.feastId == Some(o.feastId) && d.folio == o.folio && d.feastName == o.feastName;
        if d != c {
          assert d in init;
        }
      }
    }
  }

  /**
   * The feast selector's options: every triple of a row with a feast, each
   * once.
   */
  function FeastSelectorOptions(rows: seq<Chant>): (r: seq<FeastOption>)
    ensures Distinct(r)
    ensures forall o :: o in r <==> TripleOfSome(rows, o)
  {
    var t := Triples(rows);
    assert forall o :: o in t <==> TripleOfSome(rows, o) by {
      forall o ensures o in t <==> TripleOfSome(rows, o) {
        TriplesMembers(rows, o);
      }
    }
    Dedup(t)
  }

  /** The options are in the order in which their triples first occur. */
  lemma FeastSelectorOptionsOrder(rows: seq<Chant>, i: int, j: int)
    requires 0 <= i < j < |FeastSelectorOptions(rows)|
    ensures FeastSelectorOptions(rows)[i] in Triples(rows) && FeastSelectorOptions(rows)[j] in Triples(rows)
    ensures FirstIndex(Triples(rows), FeastSelectorOptions(rows)[i]) < FirstIndex(Triples(rows), FeastSelectorOptions(rows)[j])
  {
    DedupOrder(Triples(rows));
  }

  // ---------------------------------------------------------------------------
  // A `defaultdict(list)`

  /** `d[k]` on a `defaultdict(list)`: a missing key reads as the empty list. */
  function Get<K>(d: map<K, seq<Chant>>, k: K): seq<Chant> {
    if k in d then d[k] else []
  }

  // ---------------------------------------------------------------------------
  // get_chants_with_feasts

  datatype FeastGroup = FeastGroup(feast: Option<int>, chants: seq<Chant>)

  /** The chants whose feast is `feast` (`None`: no feast), in input order. */
  function FeastMembers(chants: seq<Chant>, feast: Option<int>): seq<Chant> {
    Where(chants, (c: Chant) => c.feastId == feast)
  }

  /**
   * `Feast.objects.filter(id__in=...)`: the feasts that some chant has, in
   * the order of the feast table `feasts` (the database's order).
   */
  function FeastsPresent(chants: seq<Chant>, feasts: seq<int>): seq<int> {
    Where(feasts, id => FeastMembers(chants, Some(id)) != [])
  }

  function FeastGroupsOf(ids: seq<int>, chants: seq<Chant>): seq<FeastGroup> {
    seq(|ids|, i requires 0 <= i < |ids| => FeastGroup(Some(ids[i]), FeastMembers(chants, Some(ids[i]))))
  }

  /** A group per feast present, in table order, then the no-feast group. */
  function FeastGroups(chants: seq<Chant>, feasts: seq<int>): seq<FeastGroup> {
    FeastGroupsOf(FeastsPresent(chants, feasts), chants) + [FeastGroup(None, FeastMembers(chants, None))]
  }

  /** Appends `c` to `d[k]`, as `defaultdict(list)[k].append(c)` does. */
  function Appended<K(!new)>(d: map<K, seq<Chant>>, k: K, c: Chant): (r: map<K, seq<Chant>>)
    ensures k in r && r[k] == Get(d, k) + [c]
    ensures forall j :: j != k ==> Get(r, j) == Get(d, j)
  {
    d[k := Get(d, k) + [c]]
  }

  /** What reading one more chant does to the chants of feast `k`. */
  lemma FeastMembersStep(chants: seq<Chant>, i: int, k: Option<int>)
    requires 0 <= i < |chants|
    ensures FeastMembers(chants[..i + 1], k) ==
      FeastMembers(chants[..i], k) + (if chants[i].feastId == k then [chants[i]] else [])
  {
    assert chants[..i + 1] == chants[..i] + [chants[i]];
    WhereSnoc(chants[..i], chants[i], (x: Chant) => x.feastId == k);
  }

  lemma FeastGroupsOfSnoc(ids: seq<int>, f: int, chants: seq<Chant>)
    ensures FeastGroupsOf(ids + [f], chants) ==
      FeastGroupsOf(ids, chants) + [FeastGroup(Some(f), FeastMembers(chants, Some(f)))]
  {
  }

  /**
   * The first loop of `get_chants_with_feasts`: files every chant under its
   * feast, or under `None` when it has none.
   */
  method FileByFeast(chants: seq<Chant>) returns (groups: map<Option<int>, seq<Chant>>)
    ensures forall k :: Get(groups, k) == FeastMembers(chants, k)
    ensures forall k :: k in groups ==> groups[k] != []
  {
    groups := map[];
    var i := 0;
    while i < |chants|
      invariant 0 <= i <= |chants|
      invariant forall k :: Get(groups, k) == FeastMembers(chants[..i], k)
      invariant forall k :: k in groups ==> groups[k] != []
    {
      var c := chants[i];
      ghost var before := groups;
      if c.feastId.Some? {
        groups := Appended(groups, Some(c.feastId.value), c);
      } else {
        groups := Appended(groups, None, c);
      }
      forall k ensures Get(groups, k) == FeastMembers(chants[..i + 1], k) {
        FeastMembersStep(chants, i, k);
        assert Get(before, k) == FeastMembers(chants[..i], k);
      }
      i := i + 1;
    }
    assert chants[..i] == chants;
  }

  /**
   * Groups the chants of one folio by feast; `feasts` is the feast table in
   * the database's order.
   */
  method ChantsWithFeasts(chants: seq<Chant>, feasts: seq<int>) returns (out: seq<FeastGroup>)
    ensures out == FeastGroups(chants, feasts)
  {
    var groups := FileByFeast(chants);
    var feastObjects := Where(feasts, id => Some(id) in groups);
    WhereExt(feasts, id => Some(id) in groups, id => FeastMembers(chants, Some(id)) != []);
    out := [];
    var j := 0;
    while j < |feastObjects|
      invariant 0 <= j <= |feastObjects|
      invariant out == FeastGroupsOf(feastObjects[..j], chants)
    {
      var f := feastObjects[j];
      assert Get(groups, Some(f)) == FeastMembers(chants, Some(f));
      out := out + [FeastGroup(Some(f), Get(groups, Some(f)))];
      FeastGroupsOfSnoc(feastObjects[..j], f, chants);
      assert feastObjects[..j + 1] == feastObjects[..j] + [f];
      j := j + 1;
    }
    assert feastObjects[..j] == feastObjects;
    out := out + [FeastGroup(None, Get(groups, None))];
  }

  /**
   * With feast ids unique in the table and every chant's feast in it: each
   * chant is in exactly the group of its own feast (or the no-feast group),
   * groups hold only input chants, in input order, and the no-feast group
   * comes last.
   */
  lemma FeastGroupsPartition(chants: seq<Chant>, feasts: seq<int>)
    requires Distinct(feasts)
    requires forall c :: c in chants && c.feastId.Some? ==> c.feastId.value in feasts
    ensures var g := FeastGroups(chants, feasts);
      && g != [] && g[|g| - 1].feast == None
      && (forall i, j :: 0 <= i < j < |g| ==> g[i].feast != g[j].feast)
      && (forall c :: c in chants ==> exists i :: 0 <= i < |g| && g[i].feast == c.feastId)
      && (forall i, c :: 0 <= i < |g| && c in g[i].chants ==> c in chants && c.feastId == g[i].feast)
      && (forall i, c :: 0 <= i < |g| && c in chants && c.feastId == g[i].feast ==> c in g[i].chants)
  {
    var g := FeastGroups(chants, feasts);
    var present := FeastsPresent(chants, feasts);
    var p := id => FeastMembers(chants, Some(id)) != [];
    forall i, j | 0 <= i < j < |g| ensures g[i].feast != g[j].feast {
      if j < |g| - 1 {
        WhereMembers(feasts, p, present[i]);
        WhereMembers(feasts, p, present[j]);
        assert Before(present, present[i], present[j]);
        if present[i] == present[j] {
          WhereBefore(feasts, p, present[i], present[j]);
        }
      }
    }
    forall c | c in chants ensures exists i :: 0 <= i < |g| && g[i].feast == c.feastId {
      if c.feastId.Some? {
        var id := c.feastId.value;
        WhereMembers(chants, (x: Chant) => x.feastId == Some(id), c);
        WhereMembers(feasts, p, id);
        var i :| 0 <= i < |present| && present[i] == id;
        assert g[i].feast == c.feastId;
      } else {
        assert g[|g| - 1].feast == c.feastId;
      }
    }
    forall i, c | 0 <= i < |g| ensures c in g[i].chants <==> c in chants && c.feastId == g[i].feast {
      WhereMembers(chants, (x: Chant) => x.feastId == g[i].feast, c);
    }
  }

  /** Each feast group keeps the input order of its chants. */
  lemma FeastGroupKeepsOrder(chants: seq<Chant>, feasts: seq<int>, i: int, x: Chant, y: Chant)
    requires 0 <= i < |FeastGroups(chants, feasts)|
    requires Before(FeastGroups(chants, feasts)[i].chants, x, y)
    ensures Before(chants, x, y)
  {
    var g := FeastGroups(chants, feasts)[i];
    WhereBefore(chants, (c: Chant) => c.feastId == g.feast, x, y);
  }

  // ---------------------------------------------------------------------------
  // get_chants_with_folios

  datatype FolioGroup = FolioGroup(folio: string, chants: seq<Chant>)

  /** `sorted` compared `None` with a `c_sequence` (Python raises `TypeError`). */
  datatype GroupingError = CannotCompareNone

  /** The truthy folios of the chants, in input order, with repetitions. */
  function Folios(chants: seq<Chant>): seq<string> {
    if chants == [] then []
    else
      var c := chants[|chants| - 1];
      Folios(chants[..|chants| - 1]) + (if Truthy(c.folio) then [c.folio.value] else [])
  }

  lemma {:induction false} FoliosMembers(chants: seq<Chant>, k: string)
    ensures k in Folios(chants) <==> k != "" && exists c :: c in chants && c.folio == Some(k)
  {
    if chants != [] {
      var init, c := chants[..|chants| - 1], chants[|chants| - 1];
      assert chants == init + [c];
      FoliosMembers(init, k);
      if k != "" && exists d :: d in chants && d.folio == Some(k) {
        var d :| d in chants && d.folio == Some(k);
        if d != c {
          assert d in init;
        }
      }
    }
  }

  /** The dictionary's keys: the truthy folios in first-seen order. */
  function FolioKeys(chants: seq<Chant>): seq<string> {
    Dedup(Folios(chants))
  }

  /** The chants filed under folio `k`, in input order. */
  function FolioMembers(chants: seq<Chant>, k: string): seq<Chant> {
    Where(chants, (c: Chant) => c.folio == Some(k))
  }

  /** The `c_sequence` sort key; only read for groups with no `None` key. */
  function SequenceKey(c: Chant): int {
    if c.cSequence.Some? then c.cSequence.value else 0
  }

  /** Sorting the group compares a `None` key: two or more chants, one without `c_sequence`. */
  predicate Unorderable(group: seq<Chant>) {
    |group| >= 2 && exists i :: 0 <= i < |group| && group[i].cSequence.None?
  }

  function FolioGroupsOf(keys: seq<string>, chants: seq<Chant>): seq<FolioGroup> {
    seq(|keys|, i requires 0 <= i < |keys| => FolioGroup(keys[i], SortByKey(FolioMembers(chants, keys[i]), SequenceKey)))
  }

  /** What reading one more chant does to the folio keys. */
  lemma FolioStep(chants: seq<Chant>, i: int)
    requires 0 <= i < |chants|
    ensures var c, keys := chants[i], FolioKeys(chants[..i]);
      FolioKeys(chants[..i + 1]) == if Truthy(c.folio) && c.folio.value !in keys then keys + [c.folio.value] else keys
  {
    var c := chants[i];
    assert chants[..i + 1] == chants[..i] + [c];
    assert chants[..i + 1][..i] == chants[..i];
    var s := Folios(chants[..i + 1]);
    if Truthy(c.folio) {
      assert s == Folios(chants[..i]) + [c.folio.value];
      assert s[..|s| - 1] == Folios(chants[..i]);
    } else {
      assert s == Folios(chants[..i]);
    }
  }

  lemma FolioMembersStep(chants: seq<Chant>, i: int, k: string)
    requires 0 <= i < |chants|
    ensures FolioMembers(chants[..i + 1], k) ==
      FolioMembers(chants[..i], k) + (if chants[i].folio == Some(k) then [chants[i]] else [])
  {
    assert chants[..i + 1] == chants[..i] + [chants[i]];
    WhereSnoc(chants[..i], chants[i], (x: Chant) => x.folio == Some(k));
  }

  /** `keys` and `groups` hold the first `i` chants filed by folio. */
  ghost predicate FiledByFolio(chants: seq<Chant>, i: int, keys: seq<string>, groups: map<string, seq<Chant>>)
    requires 0 <= i <= |chants|
  {
    && keys == FolioKeys(chants[..i])
    && (forall k :: k in groups <==> k in keys)
    && "" !in keys
    && (forall k :: k != "" ==> Get(groups, k) == FolioMembers(chants[..i], k))
  }

  /** A chant without a folio is filed nowhere. */
  lemma FileWithoutFolio(chants: seq<Chant>, i: int, keys: seq<string>, groups: map<string, seq<Chant>>)
    requires 0 <= i < |chants| && !Truthy(chants[i].folio)
    requires FiledByFolio(chants, i, keys, groups)
    ensures FiledByFolio(chants, i + 1, keys, groups)
  {
    FolioStep(chants, i);
    forall k | k != "" ensures Get(groups, k) == FolioMembers(chants[..i + 1], k) {
      FolioMembersStep(chants, i, k);
    }
  }

  /** A chant with a non-empty folio is appended to that folio's chants only. */
  lemma FileUnderFolio(chants: seq<Chant>, i: int, groups: map<string, seq<Chant>>, r: map<string, seq<Chant>>)
    requires 0 <= i < |chants| && Truthy(chants[i].folio)
    requires forall k :: k != "" ==> Get(groups, k) == FolioMembers(chants[..i], k)
    requires r == Appended(groups, chants[i].folio.value, chants[i])
    ensures forall k :: k != "" ==> Get(r, k) == FolioMembers(chants[..i + 1], k)
  {
    forall k | k != "" ensures Get(r, k) == FolioMembers(chants[..i + 1], k) {
      FolioMembersStep(chants, i, k);
    }
  }

  /** Filing under a folio already seen keeps the keys. */
  lemma FileUnderSeenFolio(chants: seq<Chant>, i: int, keys: seq<string>, groups: map<string, seq<Chant>>, r: map<string, seq<Chant>>)
    requires 0 <= i < |chants| && Truthy(chants[i].folio) && chants[i].folio.value in groups
    requires FiledByFolio(chants, i, keys, groups)
    requires r == Appended(groups, chants[i].folio.value, chants[i])
    ensures FiledByFolio(chants, i + 1, keys, r)
  {
    FolioStep(chants, i);
    FileUnderFolio(chants, i, groups, r);
  }

  /** Filing under a new folio adds it as the last key. */
  lemma FileUnderNewFolio(chants: seq<Chant>, i: int, keys: seq<string>, groups: map<string, seq<Chant>>, r: map<string, seq<Chant>>)
    requires 0 <= i < |chants| && Truthy(chants[i].folio) && chants[i].folio.value !in groups
    requires FiledByFolio(chants, i, keys, groups)
    requires r == Appended(groups, chants[i].folio.value, chants[i])
    ensures FiledByFolio(chants, i + 1, keys + [chants[i].folio.value], r)
  {
    var f := chants[i].folio.value;
    assert f !in keys && f != "";
    FolioStep(chants, i);
    FileUnderFolio(chants, i, groups, r);
    assert r == groups[f := Get(groups, f) + [chants[i]]];
    forall k ensures k in r <==> k in keys + [f] {
      assert k in keys + [f] <==> k in keys || k == f;
    }
  }

  /**
   * The first loop of `get_chants_with_folios`: files every chant with a
   * non-empty folio under that folio, keys in insertion order.
   */
  method FileByFolio(chants: seq<Chant>) returns (keys: seq<string>, groups: map<string, seq<Chant>>)
    ensures keys == FolioKeys(chants)
    ensures forall k :: k in groups <==> k in keys
    ensures forall k :: k in keys ==> groups[k] == FolioMembers(chants, k)
  {
    keys := [];
    groups := map[];
    var i := 0;
    assert chants[..i] == [];
    while i < |chants|
      invariant 0 <= i <= |chants|
      invariant FiledByFolio(chants, i, keys, groups)
    {
      var c := chants[i];
      if !Truthy(c.folio) {
        FileWithoutFolio(chants, i, keys, groups);
      } else if c.folio.value in groups {
        var r := Appended(groups, c.folio.value, c);
        FileUnderSeenFolio(chants, i, keys, groups, r);
        groups := r;
      } else {
        var r := Appended(groups, c.folio.value, c);
        FileUnderNewFolio(chants, i, keys, groups, r);
        keys, groups := keys + [c.folio.value], r;
      }
      i := i + 1;
    }
    assert chants[..i] == chants;
    assert forall k :: k in keys ==> k != "" && Get(groups, k) == FolioMembers(chants, k);
  }

  lemma FolioGroupsOfSnoc(keys: seq<string>, k: string, chants: seq<Chant>)
    ensures FolioGroupsOf(keys + [k], chants) ==
      FolioGroupsOf(keys, chants) + [FolioGroup(k, SortByKey(FolioMembers(chants, k), SequenceKey))]
  {
  }

  /**
   * Groups the chants of one feast by folio, dropping chants without a folio,
   * and sorts each group by `c_sequence`.
   */
  method ChantsWithFolios(chants: seq<Chant>) returns (res: Result<seq<FolioGroup>, GroupingError>)
    ensures res.Ok? <==> forall k :: k in FolioKeys(chants) ==> !Unorderable(FolioMembers(chants, k))
    ensures res.Ok? ==> res.value == FolioGroupsOf(FolioKeys(chants), chants)
  {
    var keys, groups := FileByFolio(chants);
    var out: seq<FolioGroup> := [];
    var j := 0;
    while j < |keys|
      invariant 0 <= j <= |keys|
      invariant out == FolioGroupsOf(keys[..j], chants)
      invariant forall m :: 0 <= m < j ==> !Unorderable(FolioMembers(chants, keys[m]))
    {
      var k := keys[j];
      var group := groups[k];
      assert group == FolioMembers(chants, k);
      if Unorderable(group) {
        assert k in FolioKeys(chants);
        return Err(CannotCompareNone);
      }
      out := out + [FolioGroup(k, SortByKey(group, SequenceKey))];
      FolioGroupsOfSnoc(keys[..j], k, chants);
      assert keys[..j + 1] == keys[..j] + [k];
      j := j + 1;
    }
    assert keys[..j] == keys;
    res := Ok(out);
  }

  /**
   * The folio keys are distinct, are exactly the non-empty folios of the
   * chants, and appear in the order in which they are first seen.
   */
  lemma FolioKeysFirstSeen(chants: seq<Chant>)
    ensures Distinct(FolioKeys(chants))
    ensures forall k :: k in FolioKeys(chants) <==> k != "" && exists c :: c in chants && c.folio == Some(k)
    ensures forall i, j :: 0 <= i < j < |FolioKeys(chants)| ==>
      FirstIndex(Folios(chants), FolioKeys(chants)[i]) < FirstIndex(Folios(chants), FolioKeys(chants)[j])
  {
    forall k ensures k in FolioKeys(chants) <==> k != "" && exists c :: c in chants && c.folio == Some(k) {
      FoliosMembers(chants, k);
    }
    DedupOrder(Folios(chants));
  }

  /**
   * Each folio group is a rearrangement of the chants on that folio, sorted
   * by `c_sequence`, with chants of equal `c_sequence` in input order.
   */
  lemma FolioGroupSorted(chants: seq<Chant>, i: int, s: int)
    requires 0 <= i < |FolioKeys(chants)|
    ensures var g := FolioGroupsOf(FolioKeys(chants), chants)[i];
      && multiset(g.chants) == multiset(FolioMembers(chants, g.folio))
      && SortedBy(g.chants, SequenceKey)
      && WithKey(g.chants, SequenceKey, s) == WithKey(FolioMembers(chants, g.folio), SequenceKey, s)
  {
    var members := FolioMembers(chants, FolioKeys(chants)[i]);
    SortByKeySorted(members, SequenceKey);
    SortByKeyStable(members, SequenceKey, s);
  }

  /**
   * When the grouping succeeded, every key a group of two or more chants was
   * sorted on is a real `c_sequence`.
   */
  lemma FolioGroupKeysPresent(chants: seq<Chant>, i: int)
    requires forall k :: k in FolioKeys(chants) ==> !Unorderable(FolioMembers(chants, k))
    requires 0 <= i < |FolioKeys(chants)|
    ensures var g := FolioGroupsOf(FolioKeys(chants), chants)[i];
      |g.chants| >= 2 ==> forall c :: c in g.chants ==> c.cSequence.Some?
  {
    var g := FolioGroupsOf(FolioKeys(chants), chants)[i];
    var members := FolioMembers(chants, g.folio);
    assert g.folio in FolioKeys(chants);
    if |g.chants| >= 2 {
      forall c | c in g.chants ensures c.cSequence.Some? {
        assert c in multiset(members);
        var m :| 0 <= m < |members| && members[m] == c;
      }
    }
  }

  /**
   * Only chants without a folio are dropped: every chant with a non-empty
   * folio is in the group of that folio, and a group holds only chants on
   * its folio.
   */
  lemma FolioGroupsCover(chants: seq<Chant>)
    ensures var g := FolioGroupsOf(FolioKeys(chants), chants);
      && (forall c :: c in chants && Truthy(c.folio) ==> exists i :: 0 <= i < |g| && g[i].folio == c.folio.value && c in g[i].chants)
      && (forall i, c :: 0 <= i < |g| && c in g[i].chants ==> c in chants && c.folio == Some(g[i].folio))
  {
    var keys := FolioKeys(chants);
    var g := FolioGroupsOf(keys, chants);
    forall c | c in chants && Truthy(c.folio)
      ensures exists i :: 0 <= i < |g| && g[i].folio == c.folio.value && c in g[i].chants
    {
      var f := c.folio.value;
      FoliosMembers(chants, f);
      var i :| 0 <= i < |keys| && keys[i] == f;
      WhereMembers(chants, (x: Chant) => x.folio == Some(f), c);
      assert c in multiset(g[i].chants);
    }
    forall i, c | 0 <= i < |g| && c in g[i].chants ensures c in chants && c.folio == Some(g[i].folio) {
      assert c in multiset(FolioMembers(chants, g[i].folio));
      WhereMembers(chants, (x: Chant) => x.folio == Some(g[i].folio), c);
    }
  }
}
