// Python's `list.sort(key=..., reverse=True)` and `sorted(...)`: a stable
// sort by an integer key. Equal keys keep their arrival order.

module Ordering {
  import opened Common

  predicate SortedDescBy<T>(s: seq<T>, key: T -> int)
  {
    forall i, j :: 0 <= i < j < |s| ==> key(s[i]) >= key(s[j])
  }

  /** The elements whose key is `k`, in order. */
  function WithKey<T>(s: seq<T>, key: T -> int, k: int): seq<T>
  {
    if |s| == 0 then [] else WithKey(s[..|s| - 1], key, k) + (if key(s[|s| - 1]) == k then [s[|s| - 1]] else [])
  }

  lemma WithKeySnoc<T>(s: seq<T>, x: T, key: T -> int)
    ensures forall k :: WithKey(s + [x], key, k) == WithKey(s, key, k) + (if key(x) == k then [x] else [])
  {
    assert (s + [x])[..|s|] == s;
  }

  /** A non-empty sequence has its last element in that element's key group. */
  lemma LastInItsGroup<T>(s: seq<T>, key: T -> int)
    requires |s| > 0
    ensures WithKey(s, key, key(s[|s| - 1])) == WithKey(s[..|s| - 1], key, key(s[|s| - 1])) + [s[|s| - 1]]
  {
  }

  lemma {:induction false} WithKeyMembers<T>(s: seq<T>, key: T -> int, k: int)
    ensures forall z :: z in WithKey(s, key, k) ==> z in s && key(z) == k
  {
    if |s| > 0 {
      WithKeyMembers(s[..|s| - 1], key, k);
      assert s == s[..|s| - 1] + [s[|s| - 1]];
    }
  }

  /**
   * Places `x` after every element whose key is at least `key(x)`: where a
   * stable descending sort puts an element that arrives last.
   */
  function InsertBy<T>(s: seq<T>, x: T, key: T -> int): (r: seq<T>)
    ensures multiset(r) == multiset(s) + multiset{x} && |r| == |s| + 1
    ensures SortedDescBy(s, key) ==> SortedDescBy(r, key)
    ensures forall k :: WithKey(r, key, k) == WithKey(s, key, k) + (if key(x) == k then [x] else [])
  {
    if |s| == 0 then
      WithKeySnoc([], x, key);
      assert [] + [x] == [x];
      [x]
    else if key(s[|s| - 1]) >= key(x) then
      WithKeySnoc(s, x, key);
      s + [x]
    else
      var init := s[..|s| - 1];
      var last := s[|s| - 1];
      var mid := InsertBy(init, x, key);
      InsertBeforeLast(s, init, last, x, mid, key);
      mid + [last]
  }

  lemma InsertBeforeLast<T>(s: seq<T>, init: seq<T>, last: T, x: T, mid: seq<T>, key: T -> int)
    requires |s| > 0 && init == s[..|s| - 1] && last == s[|s| - 1]
    requires key(last) < key(x)
    requires multiset(mid) == multiset(init) + multiset{x}
    requires SortedDescBy(init, key) ==> SortedDescBy(mid, key)
    requires forall k :: WithKey(mid, key, k) == WithKey(init, key, k) + (if key(x) == k then [x] else [])
    ensures multiset(mid + [last]) == multiset(s) + multiset{x}
    ensures SortedDescBy(s, key) ==> SortedDescBy(mid + [last], key)
    ensures forall k :: WithKey(mid + [last], key, k) == WithKey(s, key, k) + (if key(x) == k then [x] else [])
  {
    MultisetBeforeLast(s, init, last, x, mid);
    if SortedDescBy(s, key) {
      SortedBeforeLastOf(s, init, last, x, mid, key);
    }
    WithKeyBeforeLast(s, init, last, x, mid, key);
  }

  lemma MultisetBeforeLast<T>(s: seq<T>, init: seq<T>, last: T, x: T, mid: seq<T>)
    requires |s| > 0 && init == s[..|s| - 1] && last == s[|s| - 1]
    requires multiset(mid) == multiset(init) + multiset{x}
    ensures multiset(mid + [last]) == multiset(s) + multiset{x}
  {
    assert s == init + [last];
  }

  lemma SortedBeforeLastOf<T>(s: seq<T>, init: seq<T>, last: T, x: T, mid: seq<T>, key: T -> int)
    requires |s| > 0 && init == s[..|s| - 1] && last == s[|s| - 1]
    requires key(last) < key(x)
    requires multiset(mid) == multiset(init) + multiset{x}
    requires SortedDescBy(init, key) ==> SortedDescBy(mid, key)
    requires SortedDescBy(s, key)
    ensures SortedDescBy(mid + [last], key)
  {
    assert s == init + [last];
    LastKeyIsSmallest(init, last, key);
    SortedBeforeLast(init, last, x, mid, key);
  }

  lemma WithKeyBeforeLast<T>(s: seq<T>, init: seq<T>, last: T, x: T, mid: seq<T>, key: T -> int)
    requires |s| > 0 && init == s[..|s| - 1] && last == s[|s| - 1]
    requires key(last) < key(x)
    requires forall k :: WithKey(mid, key, k) == WithKey(init, key, k) + (if key(x) == k then [x] else [])
    ensures forall k :: WithKey(mid + [last], key, k) == WithKey(s, key, k) + (if key(x) == k then [x] else [])
  {
    assert s == init + [last];
    forall k
      ensures WithKey(mid + [last], key, k) == WithKey(s, key, k) + (if key(x) == k then [x] else [])
    {
      WithKeyBeforeLastAt(init, last, x, mid, key, k);
    }
  }

  /** WithKeyBeforeLast for one key. */
  lemma WithKeyBeforeLastAt<T>(init: seq<T>, last: T, x: T, mid: seq<T>, key: T -> int, k: int)
    requires key(last) < key(x)
    requires WithKey(mid, key, k) == WithKey(init, key, k) + (if key(x) == k then [x] else [])
    ensures WithKey(mid + [last], key, k) == WithKey(init + [last], key, k) + (if key(x) == k then [x] else [])
  {
    assert (mid + [last])[..|mid|] == mid;
    assert (init + [last])[..|init|] == init;
  }

  lemma SortedBeforeLast<T>(init: seq<T>, last: T, x: T, mid: seq<T>, key: T -> int)
    requires forall i :: 0 <= i < |init| ==> key(init[i]) >= key(last)
    requires key(last) < key(x)
    requires multiset(mid) == multiset(init) + multiset{x}
    requires SortedDescBy(mid, key)
    ensures SortedDescBy(mid + [last], key)
  {
    forall i | 0 <= i < |mid|
      ensures key(mid[i]) >= key(last)
    {
      assert mid[i] in multiset(mid);
      if mid[i] != x {
        assert mid[i] in multiset(init);
        var j :| 0 <= j < |init| && init[j] == mid[i];
      }
    }
    forall i, j | 0 <= i < j < |mid| + 1
      ensures key((mid + [last])[i]) >= key((mid + [last])[j])
    {
      if j < |mid| {
        assert (mid + [last])[i] == mid[i] && (mid + [last])[j] == mid[j];
      } else {
        assert (mid + [last])[i] == mid[i] && (mid + [last])[j] == last;
      }
    }
  }

  /** The stable descending sort as a function: insert the elements one by one. */
  function SortDescBy<T>(s: seq<T>, key: T -> int): (r: seq<T>)
    ensures SortedDescBy(r, key)
    ensures multiset(r) == multiset(s)
    ensures |r| == |s|
    ensures forall k :: WithKey(r, key, k) == WithKey(s, key, k)
  {
    if |s| == 0 then []
    else
      var init := s[..|s| - 1];
      assert s == init + [s[|s| - 1]];
      WithKeySnoc(init, s[|s| - 1], key);
      InsertBy(SortDescBy(init, key), s[|s| - 1], key)
  }

  /**
   * A sorted sequence is determined by its order within each key: any two
   * stable descending sorts of the same input are equal.
   */
  lemma {:induction false} SortedIsUnique<T>(a: seq<T>, b: seq<T>, key: T -> int)
    requires SortedDescBy(a, key) && SortedDescBy(b, key)
    requires forall k :: WithKey(a, key, k) == WithKey(b, key, k)
    ensures a == b
    decreases |a|
  {
    SameEmptiness(a, b, key);
    if |a| > 0 {
      var a', b' := a[..|a| - 1], b[..|b| - 1];
      assert a == a' + [a[|a| - 1]] && b == b' + [b[|b| - 1]];
      LastElementsAgree(a', a[|a| - 1], b', b[|b| - 1], key);
      LastKeyIsSmallest(a', a[|a| - 1], key);
      LastKeyIsSmallest(b', b[|b| - 1], key);
      SortedIsUnique(a', b', key);
    }
  }

  /** Equal key groups: one sequence is empty exactly when the other is. */
  lemma SameEmptiness<T>(a: seq<T>, b: seq<T>, key: T -> int)
    requires forall k :: WithKey(a, key, k) == WithKey(b, key, k)
    ensures |a| == 0 <==> |b| == 0
  {
    if |a| > 0 {
      LastInItsGroup(a, key);
    }
    if |b| > 0 {
      LastInItsGroup(b, key);
    }
  }

  /** No element has key `k`: its group is empty. */
  lemma {:induction false} WithKeyAbsent<T>(s: seq<T>, key: T -> int, k: int)
    requires forall i :: 0 <= i < |s| ==> key(s[i]) != k
    ensures WithKey(s, key, k) == []
  {
    if |s| > 0 {
      WithKeyAbsent(s[..|s| - 1], key, k);
    }
  }

  /** The smallest keys of two sorted sequences with the same key groups coincide. */
  lemma LastKeysAgree<T>(a: seq<T>, x: T, b: seq<T>, y: T, key: T -> int)
    requires SortedDescBy(a + [x], key) && SortedDescBy(b + [y], key)
    requires forall k :: WithKey(a + [x], key, k) == WithKey(b + [y], key, k)
    ensures key(x) == key(y)
  {
    LastInItsGroup(a + [x], key);
    LastInItsGroup(b + [y], key);
    assert (a + [x])[|a|] == x && (b + [y])[|b|] == y;
    if key(x) < key(y) {
      forall i | 0 <= i < |b + [y]|
        ensures key((b + [y])[i]) != key(x)
      {
      }
      WithKeyAbsent(b + [y], key, key(x));
    } else if key(y) < key(x) {
      forall i | 0 <= i < |a + [x]|
        ensures key((a + [x])[i]) != key(y)
      {
      }
      WithKeyAbsent(a + [x], key, key(y));
    }
  }

  /** The last elements of two sorted sequences with the same key groups coincide. */
  lemma LastElementsAgree<T>(a: seq<T>, x: T, b: seq<T>, y: T, key: T -> int)
    requires SortedDescBy(a + [x], key) && SortedDescBy(b + [y], key)
    requires forall k :: WithKey(a + [x], key, k) == WithKey(b + [y], key, k)
    ensures x == y
    ensures forall k :: WithKey(a, key, k) == WithKey(b, key, k)
  {
    LastKeysAgree(a, x, b, y, key);
    GroupsBeforeLast(a, x, b, y, key);
  }

  lemma GroupsBeforeLast<T>(a: seq<T>, x: T, b: seq<T>, y: T, key: T -> int)
    requires key(x) == key(y)
    requires forall k :: WithKey(a + [x], key, k) == WithKey(b + [y], key, k)
    ensures x == y
    ensures forall k :: WithKey(a, key, k) == WithKey(b, key, k)
  {
    WithKeySnoc(a, x, key);
    WithKeySnoc(b, y, key);
    var wa, wb := WithKey(a, key, key(x)), WithKey(b, key, key(x));
    assert wa + [x] == wb + [y];
    assert |wa| == |wb|;
    assert wa == (wa + [x])[..|wa|] && x == (wa + [x])[|wa|];
    assert wb == (wb + [y])[..|wb|] && y == (wb + [y])[|wb|];
    forall k
      ensures WithKey(a, key, k) == WithKey(b, key, k)
    {
      assert WithKey(a + [x], key, k) == WithKey(b + [y], key, k);
      if k != key(x) {
        assert WithKey(a + [x], key, k) == WithKey(a, key, k);
        assert WithKey(b + [y], key, k) == WithKey(b, key, k);
      }
    }
  }

  /** Keeping some elements of a sorted sequence leaves it sorted. */
  lemma {:induction false} FilterKeepsSorted<T>(s: seq<T>, keep: T -> bool, key: T -> int)
    requires SortedDescBy(s, key)
    ensures SortedDescBy(Filter(s, keep), key)
  {
    if |s| > 0 {
      LastKeyIsSmallest(s[..|s| - 1], s[|s| - 1], key);
      assert s == s[..|s| - 1] + [s[|s| - 1]];
      FilterKeepsSorted(s[..|s| - 1], keep, key);
      var f := Filter(s[..|s| - 1], keep);
      forall y | y in f
        ensures key(y) >= key(s[|s| - 1])
      {
        var i :| 0 <= i < |s| - 1 && s[i] == y;
      }
      var r := Filter(s, keep);
      forall i, j | 0 <= i < j < |r|
        ensures key(r[i]) >= key(r[j])
      {
        if j >= |f| {
          assert r[i] == f[i];
        } else {
          assert r[i] == f[i] && r[j] == f[j];
        }
      }
    }
  }

  lemma LastKeyIsSmallest<T>(s: seq<T>, x: T, key: T -> int)
    requires SortedDescBy(s + [x], key)
    ensures SortedDescBy(s, key)
    ensures forall i :: 0 <= i < |s| ==> key(s[i]) >= key(x)
  {
    forall i | 0 <= i < |s|
      ensures key(s[i]) >= key(x)
    {
      assert (s + [x])[i] == s[i] && (s + [x])[|s|] == x;
    }
    assert forall i :: 0 <= i < |s| ==> (s + [x])[i] == s[i];
  }

  /**
   * `list.sort(key=key, reverse=True)`, as the loop that inserts each element
   * in turn; the result is the one stable descending order of the input.
   */
  method StableSortDesc<T>(xs: seq<T>, key: T -> int) returns (ys: seq<T>)
    ensures ys == SortDescBy(xs, key)
    ensures SortedDescBy(ys, key) && multiset(ys) == multiset(xs)
    ensures forall k :: WithKey(ys, key, k) == WithKey(xs, key, k)
  {
    ys := [];
    var i := 0;
    while i < |xs|
      invariant 0 <= i <= |xs|
      invariant ys == SortDescBy(xs[..i], key)
    {
      SortPrefixStep(xs, i, key);
      ys := InsertBy(ys, xs[i], key);
      i := i + 1;
    }
    assert xs[..i] == xs;
  }

  /** Sorting one more element of the input is inserting it into the sorted prefix. */
  lemma SortPrefixStep<T>(xs: seq<T>, i: nat, key: T -> int)
    requires i < |xs|
    ensures SortDescBy(xs[..i + 1], key) == InsertBy(SortDescBy(xs[..i], key), xs[i], key)
  {
    assert xs[..i + 1][..i] == xs[..i];
  }
}
