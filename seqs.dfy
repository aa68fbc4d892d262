/**
 * Sequence operations the views use on query results: Python's
 * `list(dict.fromkeys(xs))` (first-occurrence de-duplication), `Counter`,
 * filtering (a queryset `.filter`, or an `if` inside a loop), and the stable
 * `sorted(xs, key=...)`.
 */
module Seqs {

  // ---------------------------------------------------------------------------
  // Membership, positions and relative order

  predicate Distinct<T(==)>(s: seq<T>) {
    forall i, j :: 0 <= i < j < |s| ==> s[i] != s[j]
  }

  /** The index of the first occurrence of `x` in `s`. */
  function FirstIndex<T(==)>(s: seq<T>, x: T): (i: nat)
    requires x in s
    ensures i < |s| && s[i] == x && x !in s[..i]
  {
    if s[0] == x then 0 else 1 + FirstIndex(s[1..], x)
  }

  /** `x` occurs in `s` at some position before some position holding `y`. */
  predicate Before<T(==)>(s: seq<T>, x: T, y: T) {
    exists a, b :: 0 <= a < b < |s| && s[a] == x && s[b] == y
  }

  /** Number of occurrences of `x` in `s` (one entry of a `Counter`). */
  function Count<T(==)>(s: seq<T>, x: T): nat {
    if s == [] then 0 else (if s[0] == x then 1 else 0) + Count(s[1..], x)
  }

  lemma {:induction false} CountAppend<T>(s: seq<T>, t: seq<T>, x: T)
    ensures Count(s + t, x) == Count(s, x) + Count(t, x)
  {
    if s != [] {
      assert (s + t)[1..] == s[1..] + t;
      CountAppend(s[1..], t, x);
    } else {
      assert s + t == t;
    }
  }

  lemma {:induction false} CountPositive<T>(s: seq<T>, x: T)
    ensures Count(s, x) > 0 <==> x in s
  {
    if s != [] {
      CountPositive(s[1..], x);
      assert x in s <==> s[0] == x || x in s[1..];
    }
  }

  // ---------------------------------------------------------------------------
  // First-occurrence de-duplication: `list(dict.fromkeys(s))`

  function Dedup<T(==)>(s: seq<T>): (r: seq<T>)
    ensures forall i :: 0 <= i < |s| ==> s[i] in r
    ensures forall i :: 0 <= i < |r| ==> r[i] in s
    ensures Distinct(r)
  {
    if s == [] then []
    else
      var d := Dedup(s[..|s| - 1]);
      var x := s[|s| - 1];
      assert s == s[..|s| - 1] + [x];
      if x in d then d else d + [x]
  }

  /** Appending an element that already occurred does not move any first occurrence. */
  lemma {:induction false} FirstIndexAppend<T>(s: seq<T>, x: T, y: T)
    requires y in s
    ensures FirstIndex(s + [x], y) == FirstIndex(s, y)
  {
    if s[0] != y {
      assert (s + [x])[1..] == s[1..] + [x];
      FirstIndexAppend(s[1..], x, y);
    }
  }

  /** The entries of `Dedup(s)` are in the order of their first occurrences in `s`. */
  lemma {:induction false} DedupOrder<T>(s: seq<T>)
    ensures forall i, j :: 0 <= i < j < |Dedup(s)| ==> FirstIndex(s, Dedup(s)[i]) < FirstIndex(s, Dedup(s)[j])
  {
    if s != [] {
      var init, x := s[..|s| - 1], s[|s| - 1];
      var d := Dedup(init);
      var r := Dedup(s);
      assert s == init + [x];
      DedupOrder(init);
      forall i, j | 0 <= i < j < |r| ensures FirstIndex(s, r[i]) < FirstIndex(s, r[j]) {
        if j < |d| {
          assert r[i] == d[i] && r[j] == d[j];
          FirstIndexAppend(init, x, d[i]);
          FirstIndexAppend(init, x, d[j]);
        } else {
          assert x !in d && r[j] == x && r[i] == d[i];
          FirstIndexAppend(init, x, d[i]);
        }
      }
    }
  }

  /** In a sequence without repetitions, relative order is order of positions. */
  lemma DistinctBefore<T>(s: seq<T>, x: T, y: T)
    requires Distinct(s) && Before(s, x, y)
    ensures FirstIndex(s, x) < FirstIndex(s, y)
  {
    var a, b :| 0 <= a < b < |s| && s[a] == x && s[b] == y;
    var i, j := FirstIndex(s, x), FirstIndex(s, y);
    assert i == a && j == b;
  }

  lemma DistinctMultiplicity<T>(s: seq<T>, a: int)
    requires Distinct(s) && 0 <= a < |s|
    ensures multiset(s)[s[a]] == 1
  {
    assert s == s[..a] + [s[a]] + s[a + 1..];
    assert s[a] !in s[..a];
    assert s[a] !in s[a + 1..] by {
      var t := s[a + 1..];
      forall j | 0 <= j < |t| ensures t[j] != s[a] {
        assert t[j] == s[a + 1 + j];
      }
    }
  }

  lemma SeqMultiplicity<T>(s: seq<T>, i: int, j: int)
    requires 0 <= i < j < |s| && s[i] == s[j]
    ensures multiset(s)[s[i]] >= 2
  {
    assert s == s[..i] + [s[i]] + s[i + 1..j] + [s[j]] + s[j + 1..];
  }

  /** A rearrangement of a sequence without repetitions has none either. */
  lemma PermutationDistinct<T>(s: seq<T>, t: seq<T>)
    requires Distinct(s) && multiset(s) == multiset(t)
    ensures Distinct(t)
  {
    forall i, j | 0 <= i < j < |t| ensures t[i] != t[j] {
      if t[i] == t[j] {
        SeqMultiplicity(t, i, j);
        assert t[i] in multiset(s);
        var a :| 0 <= a < |s| && s[a] == t[i];
        DistinctMultiplicity(s, a);
      }
    }
  }

  // ---------------------------------------------------------------------------
  // Filtering

  /** The elements of `s` that satisfy `p`, in their order in `s`. */
  function Where<T>(s: seq<T>, p: T -> bool): seq<T> {
    if s == [] then [] else (if p(s[0]) then [s[0]] else []) + Where(s[1..], p)
  }

  /** An element is kept exactly when it is in `s` and satisfies `p`. */
  lemma {:induction false} WhereMembers<T>(s: seq<T>, p: T -> bool, x: T)
    ensures x in Where(s, p) <==> x in s && p(x)
  {
    if s != [] {
      WhereMembers(s[1..], p, x);
      assert x in s <==> x == s[0] || x in s[1..];
    }
  }

  lemma {:induction false} WhereCount<T>(s: seq<T>, p: T -> bool, x: T)
    ensures Count(Where(s, p), x) == if p(x) then Count(s, x) else 0
  {
    if s != [] {
      WhereCount(s[1..], p, x);
      CountAppend(if p(s[0]) then [s[0]] else [], Where(s[1..], p), x);
    }
  }

  /** Filtering a concatenation filters both parts. */
  lemma {:induction false} WhereConcat<T>(s: seq<T>, t: seq<T>, p: T -> bool)
    ensures Where(s + t, p) == Where(s, p) + Where(t, p)
  {
    if s == [] {
      assert s + t == t;
    } else {
      var head := if p(s[0]) then [s[0]] else [];
      assert (s + t)[0] == s[0] && (s + t)[1..] == s[1..] + t;
      assert Where(s + t, p) == head + Where(s[1..] + t, p);
      WhereConcat(s[1..], t, p);
      assert Where(s, p) == head + Where(s[1..], p);
    }
  }

  /** Filtering a sequence extended by one element. */
  lemma WhereSnoc<T>(s: seq<T>, x: T, p: T -> bool)
    ensures Where(s + [x], p) == Where(s, p) + (if p(x) then [x] else [])
  {
    WhereConcat(s, [x], p);
    assert Where([x], p) == (if p(x) then [x] else []) by {
      assert [x][1..] == [];
    }
  }

  /** Two filters in a row are one filter by the conjunction. */
  lemma {:induction false} WhereWhere<T>(s: seq<T>, p: T -> bool, q: T -> bool, pq: T -> bool)
    requires forall x :: pq(x) == (p(x) && q(x))
    ensures Where(Where(s, p), q) == Where(s, pq)
  {
    if s != [] {
      WhereWhere(s[1..], p, q, pq);
      var head := if p(s[0]) then [s[0]] else [];
      WhereConcat(head, Where(s[1..], p), q);
      if p(s[0]) {
        assert Where(head, q) == if q(s[0]) then [s[0]] else [] by {
          assert head[1..] == [];
        }
      }
    }
  }

  /** Filters that agree on every element give the same result. */
  lemma {:induction false} WhereExt<T>(s: seq<T>, p: T -> bool, q: T -> bool)
    requires forall x :: p(x) == q(x)
    ensures Where(s, p) == Where(s, q)
  {
    if s != [] {
      WhereExt(s[1..], p, q);
    }
  }

  /** A filter that keeps everything is the identity. */
  lemma {:induction false} WhereAll<T>(s: seq<T>, p: T -> bool)
    requires forall x :: x in s ==> p(x)
    ensures Where(s, p) == s
  {
    if s != [] {
      WhereAll(s[1..], p);
      assert [s[0]] + s[1..] == s;
    }
  }

  /** A filter keeps the relative order of the elements it keeps. */
  lemma {:induction false} WhereKeepsBefore<T>(s: seq<T>, p: T -> bool, x: T, y: T)
    requires Before(s, x, y) && p(x) && p(y)
    ensures Before(Where(s, p), x, y)
  {
    var a, b :| 0 <= a < b < |s| && s[a] == x && s[b] == y;
    var w := Where(s, p);
    var tail := Where(s[1..], p);
    if a == 0 {
      WhereMembers(s[1..], p, y);
      assert s[1..][b - 1] == y;
      var k :| 0 <= k < |tail| && tail[k] == y;
      assert w[0] == x && w[k + 1] == y;
    } else {
      assert s[1..][a - 1] == x && s[1..][b - 1] == y;
      WhereKeepsBefore(s[1..], p, x, y);
      var c, d :| 0 <= c < d < |tail| && tail[c] == x && tail[d] == y;
      var off := if p(s[0]) then 1 else 0;
      assert w[c + off] == x && w[d + off] == y;
    }
  }

  /** Relative order in a filtered sequence is relative order in the original. */
  lemma {:induction false} WhereBefore<T>(s: seq<T>, p: T -> bool, x: T, y: T)
    requires Before(Where(s, p), x, y)
    ensures Before(s, x, y)
  {
    var w := Where(s, p);
    var tail := Where(s[1..], p);
    var a, b :| 0 <= a < b < |w| && w[a] == x && w[b] == y;
    if p(s[0]) && a == 0 {
      assert tail[b - 1] == y;
      WhereMembers(s[1..], p, y);
      var k :| 0 <= k < |s[1..]| && s[1..][k] == y;
      assert s[0] == x && s[k + 1] == y;
    } else {
      var off := if p(s[0]) then 1 else 0;
      assert tail[a - off] == x && tail[b - off] == y;
      WhereBefore(s[1..], p, x, y);
      var c, d :| 0 <= c < d < |s[1..]| && s[1..][c] == x && s[1..][d] == y;
      assert s[c + 1] == x && s[d + 1] == y;
    }
  }

  // ---------------------------------------------------------------------------
  // Stable sorting by an integer key: `sorted(s, key=key)`

  predicate SortedBy<T>(s: seq<T>, key: T -> int) {
    forall i, j :: 0 <= i < j < |s| ==> key(s[i]) <= key(s[j])
  }

  /** The elements of `s` whose key is `k`, in their order in `s`. */
  function WithKey<T>(s: seq<T>, key: T -> int, k: int): seq<T> {
    Where(s, x => key(x) == k)
  }

  /** Puts `x` in front of the first element whose key is not smaller. */
  function Insert<T>(x: T, s: seq<T>, key: T -> int): (r: seq<T>)
    ensures multiset(r) == multiset(s) + multiset{x}
  {
    if s == [] || key(x) <= key(s[0]) then [x] + s
    else
      assert s == [s[0]] + s[1..];
      [s[0]] + Insert(x, s[1..], key)
  }

  /** Insertion sort; an element is inserted before the later elements with the same key. */
  function SortByKey<T>(s: seq<T>, key: T -> int): (r: seq<T>)
    ensures multiset(r) == multiset(s)
  {
    if s == [] then []
    else
      assert s == [s[0]] + s[1..];
      Insert(s[0], SortByKey(s[1..], key), key)
  }

  lemma {:induction false} InsertSorted<T>(x: T, s: seq<T>, key: T -> int)
    requires SortedBy(s, key)
    ensures SortedBy(Insert(x, s, key), key)
  {
    if s != [] && key(x) > key(s[0]) {
      InsertSorted(x, s[1..], key);
      var r := Insert(x, s[1..], key);
      forall i | 0 <= i < |r| ensures key(s[0]) <= key(r[i]) {
        assert r[i] in multiset(r);
        assert r[i] in multiset(s[1..]) + multiset{x};
        if r[i] != x {
          assert r[i] in s[1..];
        }
      }
    }
  }

  lemma {:induction false} InsertWithKey<T>(x: T, s: seq<T>, key: T -> int, k: int)
    ensures WithKey(Insert(x, s, key), key, k) ==
            (if key(x) == k then [x] else []) + WithKey(s, key, k)
  {
    var p := y => key(y) == k;
    if s == [] || key(x) <= key(s[0]) {
      assert ([x] + s)[1..] == s;
    } else {
      InsertWithKey(x, s[1..], key, k);
      var r := Insert(x, s[1..], key);
      assert ([s[0]] + r)[1..] == r;
    }
  }

  /** The result of `SortByKey` is ordered by key. */
  lemma {:induction false} SortByKeySorted<T>(s: seq<T>, key: T -> int)
    ensures SortedBy(SortByKey(s, key), key)
  {
    if s != [] {
      SortByKeySorted(s[1..], key);
      InsertSorted(s[0], SortByKey(s[1..], key), key);
    }
  }

  /** Stability: the elements sharing a key keep their input order. */
  lemma {:induction false} SortByKeyStable<T>(s: seq<T>, key: T -> int, k: int)
    ensures WithKey(SortByKey(s, key), key, k) == WithKey(s, key, k)
  {
    if s != [] {
      SortByKeyStable(s[1..], key, k);
      InsertWithKey(s[0], SortByKey(s[1..], key), key, k);
    }
  }

  /**
   * Stability stated on positions: when the input has no repetitions, two
   * results with the same key appear in the order of their input positions.
   */
  lemma SortByKeyTies<T>(s: seq<T>, key: T -> int, i: int, j: int)
    requires Distinct(s)
    requires 0 <= i < j < |SortByKey(s, key)|
    requires key(SortByKey(s, key)[i]) == key(SortByKey(s, key)[j])
    ensures SortByKey(s, key)[i] in s && SortByKey(s, key)[j] in s
    ensures FirstIndex(s, SortByKey(s, key)[i]) < FirstIndex(s, SortByKey(s, key)[j])
  {
    var r := SortByKey(s, key);
    var k := key(r[i]);
    var p := y => key(y) == k;
    assert r[i] in multiset(s) && r[j] in multiset(s);
    WhereKeepsBefore(r, p, r[i], r[j]);
    SortByKeyStable(s, key, k);
    WhereBefore(s, p, r[i], r[j]);
    DistinctBefore(s, r[i], r[j]);
  }
}
