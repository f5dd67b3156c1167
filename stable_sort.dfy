/**
 * Python's `list.sort(key=...)`: the key of every element is computed once,
 * and the list is ordered by key with equal keys kept in their original
 * order. Modelled on (key, element) pairs as a stable insertion sort.
 */
module StableSort {

  predicate SortedByKey<T>(xs: seq<(int, T)>)
  {
    forall i, j :: 0 <= i < j < |xs| ==> xs[i].0 <= xs[j].0
  }

  /** The elements of `xs` whose key is `k`, in their order in `xs`. */
  function WithKey<T>(xs: seq<(int, T)>, k: int): seq<(int, T)>
  {
    if xs == [] then []
    else WithKey(xs[..|xs| - 1], k) + (if xs[|xs| - 1].0 == k then [xs[|xs| - 1]] else [])
  }

  /** `x` placed after every element whose key is not larger than its own. */
  function Insert<T>(xs: seq<(int, T)>, x: (int, T)): seq<(int, T)>
  {
    if xs == [] || xs[|xs| - 1].0 <= x.0 then xs + [x]
    else Insert(xs[..|xs| - 1], x) + [xs[|xs| - 1]]
  }

  function Sort<T>(xs: seq<(int, T)>): seq<(int, T)>
  {
    if xs == [] then [] else Insert(Sort(xs[..|xs| - 1]), xs[|xs| - 1])
  }

  lemma WithKeyAppend<T>(xs: seq<(int, T)>, ys: seq<(int, T)>, k: int)
    ensures WithKey(xs + ys, k) == WithKey(xs, k) + WithKey(ys, k)
    decreases |ys|
  {
    if ys != [] {
      WithKeyAppend(xs, ys[..|ys| - 1], k);
      assert (xs + ys)[..|xs + ys| - 1] == xs + ys[..|ys| - 1];
    } else {
      assert xs + ys == xs;
    }
  }

  lemma {:induction false} InsertMultiset<T>(xs: seq<(int, T)>, x: (int, T))
    ensures multiset(Insert(xs, x)) == multiset(xs) + multiset{x}
  {
    if !(xs == [] || xs[|xs| - 1].0 <= x.0) {
      var init, last := xs[..|xs| - 1], xs[|xs| - 1];
      assert xs == init + [last];
      InsertMultiset(init, x);
    }
  }

  /** The elements without their keys. */
  function Elements<T>(xs: seq<(int, T)>): (r: seq<T>)
    ensures |r| == |xs| && forall i :: 0 <= i < |xs| ==> r[i] == xs[i].1
  {
    if xs == [] then [] else Elements(xs[..|xs| - 1]) + [xs[|xs| - 1].1]
  }

  lemma {:induction false} InsertElements<T>(xs: seq<(int, T)>, x: (int, T))
    ensures multiset(Elements(Insert(xs, x))) == multiset(Elements(xs)) + multiset{x.1}
  {
    if xs == [] || xs[|xs| - 1].0 <= x.0 {
      assert Elements(xs + [x]) == Elements(xs) + [x.1];
    } else {
      var init, last := xs[..|xs| - 1], xs[|xs| - 1];
      InsertElements(init, x);
      assert Elements(Insert(init, x) + [last]) == Elements(Insert(init, x)) + [last.1];
      assert Elements(xs) == Elements(init) + [last.1];
    }
  }

  lemma {:induction false} InsertSorted<T>(xs: seq<(int, T)>, x: (int, T))
    requires SortedByKey(xs)
    ensures SortedByKey(Insert(xs, x))
  {
    if !(xs == [] || xs[|xs| - 1].0 <= x.0) {
      var init, last := xs[..|xs| - 1], xs[|xs| - 1];
      InsertSorted(init, x);
      InsertMultiset(init, x);
      var ins := Insert(init, x);
      forall i | 0 <= i < |ins| ensures ins[i].0 <= last.0 {
        assert ins[i] in multiset(ins);
        if ins[i] != x {
          assert ins[i] in multiset(init);
          var m :| 0 <= m < |init| && init[m] == ins[i];
          assert xs[m] == init[m];
        }
      }
    }
  }

  lemma {:induction false} InsertWithKey<T>(xs: seq<(int, T)>, x: (int, T), k: int)
    ensures WithKey(Insert(xs, x), k) == WithKey(xs, k) + (if x.0 == k then [x] else [])
  {
    if xs == [] || xs[|xs| - 1].0 <= x.0 {
      WithKeyAppend(xs, [x], k);
    } else {
      var init, last := xs[..|xs| - 1], xs[|xs| - 1];
      assert xs == init + [last];
      InsertWithKey(init, x, k);
      WithKeyAppend(Insert(init, x), [last], k);
      WithKeyAppend(init, [last], k);
    }
  }

  /** The sorted list is ordered by key, holds the same elements, and keeps equal keys in order. */
  lemma {:induction false} SortFacts<T>(xs: seq<(int, T)>)
    ensures SortedByKey(Sort(xs))
    ensures multiset(Sort(xs)) == multiset(xs)
    ensures forall k :: WithKey(Sort(xs), k) == WithKey(xs, k)
    ensures multiset(Elements(Sort(xs))) == multiset(Elements(xs))
  {
    if xs != [] {
      var init, last := xs[..|xs| - 1], xs[|xs| - 1];
      assert xs == init + [last];
      SortFacts(init);
      InsertMultiset(Sort(init), last);
      InsertSorted(Sort(init), last);
      InsertElements(Sort(init), last);
      assert Elements(xs) == Elements(init) + [last.1];
      forall k ensures WithKey(Sort(xs), k) == WithKey(xs, k) {
        InsertWithKey(Sort(init), last, k);
        WithKeyAppend(init, [last], k);
      }
    }
  }
}
