/**
 * The stable sort that `list.sort(key=..., reverse=...)` performs, for an
 * integer key: a functional insertion sort `Sort`, the in-place method
 * `InsertionSort` proved equal to it, and the facts that make it Python's sort:
 * the result is ordered, a permutation, stable, and the only list that is all three.
 */
module StableSort {

  /** Key `j` goes strictly before key `k`: ascending, or descending for `reverse=True`. */
  predicate Before(j: int, k: int, descending: bool)
  {
    if descending then j > k else j < k
  }

  /** No element is followed by one whose key goes strictly before its own. */
  predicate Sorted<T>(s: seq<T>, key: T -> int, descending: bool)
  {
    forall i, j :: 0 <= i < j < |s| ==> !Before(key(s[j]), key(s[i]), descending)
  }

  /** The elements of `s` whose key is `k`, in their order in `s`. */
  function WithKey<T>(s: seq<T>, key: T -> int, k: int): seq<T>
  {
    if s == [] then [] else WithKey(s[..|s| - 1], key, k) + (if key(s[|s| - 1]) == k then [s[|s| - 1]] else [])
  }

  /** Elements with equal keys come in the same relative order in `r` as in `s`. */
  ghost predicate Stable<T>(r: seq<T>, s: seq<T>, key: T -> int)
  {
    forall k :: WithKey(r, key, k) == WithKey(s, key, k)
  }

  /** Where insertion sort puts `x` in the sorted `s`: after every element that `x` does not go strictly before. */
  function InsertPos<T>(x: T, s: seq<T>, key: T -> int, descending: bool): (p: nat)
    ensures p <= |s|
  {
    if s == [] || !Before(key(x), key(s[|s| - 1]), descending) then |s|
    else InsertPos(x, s[..|s| - 1], key, descending)
  }

  function Insert<T>(x: T, s: seq<T>, key: T -> int, descending: bool): seq<T>
  {
    var p := InsertPos(x, s, key, descending);
    s[..p] + [x] + s[p..]
  }

  /** Insertion sort: each element in turn is inserted into the sorted list of those before it. */
  function Sort<T>(s: seq<T>, key: T -> int, descending: bool): seq<T>
  {
    if s == [] then [] else Insert(s[|s| - 1], Sort(s[..|s| - 1], key, descending), key, descending)
  }

  /** `list.sort` done in place on an array, by insertion. */
  method InsertionSort<T>(a: array<T>, key: T -> int, descending: bool)
    modifies a
    ensures a[..] == Sort(old(a[..]), key, descending)
  {
    ghost var s := a[..];
    var i := 0;
    while i < a.Length
      invariant 0 <= i <= a.Length
      invariant a[..i] == Sort(s[..i], key, descending)
      invariant a[i..] == s[i..]
    {
      assert s[..i + 1][..i] == s[..i] && s[..i + 1][i] == s[i];
      InsertAt(a, i, key, descending);
      i := i + 1;
    }
    assert s[..a.Length] == s;
  }

  /** One step of the sort: moves `a[i]` left into its place in the sorted prefix `a[..i]`. */
  method InsertAt<T>(a: array<T>, i: nat, key: T -> int, descending: bool)
    requires i < a.Length
    modifies a
    ensures a[..i + 1] == Insert(old(a[i]), old(a[..i]), key, descending)
    ensures a[i + 1..] == old(a[i + 1..])
  {
    var x := a[i];
    ghost var sorted := a[..i];
    var j := i;
    while j > 0 && Before(key(x), key(a[j - 1]), descending)
      invariant 0 <= j <= i
      invariant a[..j] == sorted[..j]
      invariant a[j + 1..i + 1] == sorted[j..i]
      invariant a[i + 1..] == old(a[i + 1..])
      invariant InsertPos(x, sorted, key, descending) == InsertPos(x, sorted[..j], key, descending)
    {
      assert sorted[..j][..j - 1] == sorted[..j - 1];
      a[j] := a[j - 1];
      j := j - 1;
    }
    a[j] := x;
    assert InsertPos(x, sorted, key, descending) == j by {
      if j > 0 {
        assert sorted[..j][j - 1] == sorted[j - 1];
      }
    }
    assert a[..i + 1] == sorted[..j] + [x] + sorted[j..];
  }

  /** Everything before the insertion point may precede `x`; everything from it on goes strictly after `x`. */
  lemma {:induction false} InsertPosBounds<T>(x: T, s: seq<T>, key: T -> int, descending: bool)
    ensures var p := InsertPos(x, s, key, descending);
      && (p > 0 ==> !Before(key(x), key(s[p - 1]), descending))
      && forall k :: p <= k < |s| ==> Before(key(x), key(s[k]), descending)
  {
    if s != [] && Before(key(x), key(s[|s| - 1]), descending) {
      var init := s[..|s| - 1];
      InsertPosBounds(x, init, key, descending);
    }
  }

  lemma {:induction false} WithKeyConcat<T>(a: seq<T>, b: seq<T>, key: T -> int, k: int)
    ensures WithKey(a + b, key, k) == WithKey(a, key, k) + WithKey(b, key, k)
  {
    if b == [] {
      assert a + b == a;
    } else {
      var c := a + b;
      assert c[..|c| - 1] == a + b[..|b| - 1];
      assert c[|c| - 1] == b[|b| - 1];
      WithKeyConcat(a, b[..|b| - 1], key, k);
    }
  }

  lemma {:induction false} WithKeyNone<T>(s: seq<T>, key: T -> int, k: int)
    requires forall i :: 0 <= i < |s| ==> key(s[i]) != k
    ensures WithKey(s, key, k) == []
  {
    if s != [] {
      WithKeyNone(s[..|s| - 1], key, k);
    }
  }

  lemma {:induction false} WithKeyMember<T>(s: seq<T>, key: T -> int, k: int, e: T)
    requires e in WithKey(s, key, k)
    ensures exists i :: 0 <= i < |s| && s[i] == e && key(e) == k
  {
    var init := s[..|s| - 1];
    if e in WithKey(init, key, k) {
      WithKeyMember(init, key, k, e);
      var i :| 0 <= i < |init| && init[i] == e && key(e) == k;
      assert s[i] == e;
    } else {
      assert s[|s| - 1] == e;
    }
  }

  lemma InsertSorted<T>(x: T, s: seq<T>, key: T -> int, descending: bool)
    requires Sorted(s, key, descending)
    ensures Sorted(Insert(x, s, key, descending), key, descending)
  {
    var p := InsertPos(x, s, key, descending);
    InsertPosBounds(x, s, key, descending);
    var r := Insert(x, s, key, descending);
    assert |r| == |s| + 1;
    forall i, j | 0 <= i < j < |r| ensures !Before(key(r[j]), key(r[i]), descending) {
      if j < p {
        assert r[i] == s[i] && r[j] == s[j];
      } else if j == p {
        assert r[i] == s[i] && r[j] == x;
        assert !Before(key(s[p - 1]), key(s[i]), descending) || i == p - 1;
      } else if i == p {
        assert r[i] == x && r[j] == s[j - 1];
      } else if i < p {
        assert r[i] == s[i] && r[j] == s[j - 1];
      } else {
        assert r[i] == s[i - 1] && r[j] == s[j - 1];
      }
    }
  }

  lemma InsertWithKey<T>(x: T, s: seq<T>, key: T -> int, descending: bool, k: int)
    ensures WithKey(Insert(x, s, key, descending), key, k)
         == WithKey(s, key, k) + (if key(x) == k then [x] else [])
  {
    var p := InsertPos(x, s, key, descending);
    var lo, hi := s[..p], s[p..];
    assert s == lo + hi;
    assert Insert(x, s, key, descending) == (lo + [x]) + hi;
    WithKeyConcat(lo, hi, key, k);
    WithKeyConcat(lo + [x], hi, key, k);
    WithKeySnoc(lo, x, key, k);
    if key(x) == k {
      InsertPosBounds(x, s, key, descending);
      WithKeyNone(hi, key, k);
    }
  }

  lemma WithKeySnoc<T>(s: seq<T>, x: T, key: T -> int, k: int)
    ensures WithKey(s + [x], key, k) == WithKey(s, key, k) + (if key(x) == k then [x] else [])
  {
    assert (s + [x])[..|s|] == s;
  }

  /** The sort orders by key: non-decreasing, or non-increasing when descending. */
  lemma {:induction false} SortIsSorted<T>(s: seq<T>, key: T -> int, descending: bool)
    ensures Sorted(Sort(s, key, descending), key, descending)
  {
    if s != [] {
      SortIsSorted(s[..|s| - 1], key, descending);
      InsertSorted(s[|s| - 1], Sort(s[..|s| - 1], key, descending), key, descending);
    }
  }

  /** The sort is a permutation of its input. */
  lemma {:induction false} SortIsPermutation<T>(s: seq<T>, key: T -> int, descending: bool)
    ensures multiset(Sort(s, key, descending)) == multiset(s)
  {
    if s != [] {
      var init, x := s[..|s| - 1], s[|s| - 1];
      SortIsPermutation(init, key, descending);
      var sorted := Sort(init, key, descending);
      var p := InsertPos(x, sorted, key, descending);
      assert sorted == sorted[..p] + sorted[p..];
      assert s == init + [x];
    }
  }

  /** The sort is stable: elements with equal keys keep their relative order. */
  lemma {:induction false} SortIsStable<T>(s: seq<T>, key: T -> int, descending: bool)
    ensures Stable(Sort(s, key, descending), s, key)
  {
    if s != [] {
      var init, x := s[..|s| - 1], s[|s| - 1];
      SortIsStable(init, key, descending);
      forall k ensures WithKey(Sort(s, key, descending), key, k) == WithKey(s, key, k) {
        InsertWithKey(x, Sort(init, key, descending), key, descending, k);
      }
    }
  }

  /** Two lists that are both sorted and hold every key's elements in the same order are equal. */
  lemma {:induction false} SortedStableUnique<T>(r1: seq<T>, r2: seq<T>, key: T -> int, descending: bool)
    requires Sorted(r1, key, descending) && Sorted(r2, key, descending)
    requires Stable(r1, r2, key)
    ensures r1 == r2
    decreases |r1| + |r2|
  {
    if r1 == [] || r2 == [] {
      if r1 != [] {
        LastHasKey(r1, key);
      } else if r2 != [] {
        LastHasKey(r2, key);
      }
    } else {
      var x1, x2 := r1[|r1| - 1], r2[|r2| - 1];
      var init1, init2 := r1[..|r1| - 1], r2[..|r2| - 1];
      LastKeysAgree(r1, r2, key, descending);
      var k := key(x1);
      assert WithKey(r1, key, k) == WithKey(init1, key, k) + [x1];
      assert WithKey(r2, key, k) == WithKey(init2, key, k) + [x2];
      assert WithKey(r1, key, k) == WithKey(r2, key, k);
      SnocInjective(WithKey(init1, key, k), WithKey(init2, key, k), x1, x2);
      forall k' ensures WithKey(init1, key, k') == WithKey(init2, key, k') {
        assert WithKey(r1, key, k') == WithKey(r2, key, k');
        if k' != k {
          assert WithKey(r1, key, k') == WithKey(init1, key, k');
          assert WithKey(r2, key, k') == WithKey(init2, key, k');
        }
      }
      SortedInit(r1, key, descending);
      SortedInit(r2, key, descending);
      SortedStableUnique(init1, init2, key, descending);
    }
  }

  lemma SnocInjective<T>(a: seq<T>, b: seq<T>, x: T, y: T)
    requires a + [x] == b + [y]
    ensures a == b && x == y
  {
    assert |a| == |b|;
    assert (a + [x])[|a|] == x && (b + [y])[|b|] == y;
    assert (a + [x])[..|a|] == a && (b + [y])[..|b|] == b;
  }

  lemma LastHasKey<T>(s: seq<T>, key: T -> int)
    requires s != []
    ensures s[|s| - 1] in WithKey(s, key, key(s[|s| - 1]))
  {
  }

  lemma SortedInit<T>(s: seq<T>, key: T -> int, descending: bool)
    requires s != [] && Sorted(s, key, descending)
    ensures Sorted(s[..|s| - 1], key, descending)
  {
  }

  /** In two sorted lists with equal per-key subsequences, the last elements have the same key. */
  lemma LastKeysAgree<T>(r1: seq<T>, r2: seq<T>, key: T -> int, descending: bool)
    requires r1 != [] && r2 != []
    requires Sorted(r1, key, descending) && Sorted(r2, key, descending)
    requires Stable(r1, r2, key)
    ensures key(r1[|r1| - 1]) == key(r2[|r2| - 1])
  {
    var k1, k2 := key(r1[|r1| - 1]), key(r2[|r2| - 1]);
    LastHasKey(r1, key);
    LastHasKey(r2, key);
    assert r1[|r1| - 1] in WithKey(r2, key, k1);
    WithKeyMember(r2, key, k1, r1[|r1| - 1]);
    var i :| 0 <= i < |r2| && key(r2[i]) == k1;
    assert r2[|r2| - 1] in WithKey(r1, key, k2);
    WithKeyMember(r1, key, k2, r2[|r2| - 1]);
    var j :| 0 <= j < |r1| && key(r1[j]) == k2;
    if i < |r2| - 1 { assert !Before(k2, k1, descending); }
    if j < |r1| - 1 { assert !Before(k1, k2, descending); }
  }

  /**
   * Any sorted, stable rearrangement is this one: so `Sort` is the list that
   * Python's `list.sort` (a stable sort, also with `reverse=True`) produces.
   */
  lemma {:induction false} SortIsTheStableSort<T>(s: seq<T>, r: seq<T>, key: T -> int, descending: bool)
    requires Sorted(r, key, descending) && Stable(r, s, key)
    ensures r == Sort(s, key, descending)
  {
    SortIsSorted(s, key, descending);
    SortIsStable(s, key, descending);
    SortedStableUnique(r, Sort(s, key, descending), key, descending);
  }
}
