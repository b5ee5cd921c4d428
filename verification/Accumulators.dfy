/** The accumulators between what was submitted and what one flush writes. */
module Accumulators {
  import opened Prelude
  import opened Ordering

  type Merge<!T> = Option<(T, T) -> T>

  // ------------------------------------------------- reference: one key at a time

  /** The arrivals filed under `k`, in arrival order. */
  function Filter<T, K(==)>(key: T -> K, arrivals: seq<T>, k: K): seq<T> {
    if arrivals == [] then []
    else
      var n := |arrivals| - 1;
      Filter(key, arrivals[..n], k) + (if key(arrivals[n]) == k then [arrivals[n]] else [])
  }

  /** The left fold of `merge` over `xs`, or its last element when there is none. */
  function Fold<T>(merge: Merge<T>, xs: seq<T>): T
    requires xs != []
  {
    var n := |xs| - 1;
    if n == 0 || merge.None? then xs[n] else merge.value(Fold(merge, xs[..n]), xs[n])
  }

  /** The fold, spelled out: from the first on, each is merged into what came before; or
      without a merge the last one stands. */
  lemma {:induction false} FoldMeans<T>(merge: Merge<T>, xs: seq<T>) returns (steps: seq<T>)
    requires xs != []
    ensures merge.None? ==> Fold(merge, xs) == xs[|xs| - 1]
    ensures merge.Some? ==>
              && |steps| == |xs| && steps[0] == xs[0] && Fold(merge, xs) == steps[|xs| - 1]
              && forall i :: 0 < i < |xs| ==> steps[i] == merge.value(steps[i - 1], xs[i])
    decreases |xs|
  {
    var n := |xs| - 1;
    steps := [Fold(merge, xs)];
    if n > 0 {
      var earlier := FoldMeans(merge, xs[..n]);
      steps := earlier + [Fold(merge, xs)];
    }
  }

  /** `out` is the arrivals with key `k`, each once and in order, `at` being where they stood. */
  ghost predicate Picks<T, K>(key: T -> K, arrivals: seq<T>, k: K, out: seq<T>, at: seq<nat>) {
    && |at| == |out| && (forall i, j :: 0 <= i < j < |at| ==> at[i] < at[j])
    && (forall j :: 0 <= j < |at| ==> at[j] < |arrivals| && out[j] == arrivals[at[j]])
    && (forall i :: 0 <= i < |arrivals| ==> (i in at <==> key(arrivals[i]) == k))
  }

  lemma PicksOneMore<T, K>(key: T -> K, arrivals: seq<T>, k: K, out: seq<T>, at: seq<nat>, x: T)
    requires Picks(key, arrivals, k, out, at)
    ensures key(x) == k ==> Picks(key, arrivals + [x], k, out + [x], at + [|arrivals|])
    ensures key(x) != k ==> Picks(key, arrivals + [x], k, out, at)
  {
    var n := |arrivals|;
    assert n !in at;
    assert forall i :: i in at + [n] <==> i in at || i == n;
    assert forall i :: 0 <= i < n ==> (arrivals + [x])[i] == arrivals[i];
  }

  lemma {:induction false} FilterMeans<T, K>(key: T -> K, arrivals: seq<T>, k: K) returns (at: seq<nat>)
    ensures Picks(key, arrivals, k, Filter(key, arrivals, k), at)
    decreases |arrivals|
  {
    at := [];
    if arrivals != [] {
      var n := |arrivals| - 1;
      assert arrivals == arrivals[..n] + [arrivals[n]];
      var before := FilterMeans(key, arrivals[..n], k);
      PicksOneMore(key, arrivals[..n], k, Filter(key, arrivals[..n], k), before, arrivals[n]);
      at := if key(arrivals[n]) == k then before + [n] else before;
    }
  }

  /** `items` holds one entry per key that arrived, the fold over its arrivals. */
  ghost predicate Folds<T, K(!new)>(key: T -> K, merge: Merge<T>, arrivals: seq<T>, items: map<K, T>) {
    && (forall k :: k in items <==> Filter(key, arrivals, k) != [])
    && (forall k :: k in items && Filter(key, arrivals, k) != [] ==> items[k] == Fold(merge, Filter(key, arrivals, k)))
  }

  /** `out` has one item per key that arrived, in strictly increasing order of the key
      it is `filed` under, each the fold over that key's arrivals. */
  ghost predicate Collected<T, K(!new)>(key: T -> K, merge: Merge<T>, lt: (K, K) -> bool, arrivals: seq<T>, out: seq<T>, filed: seq<K>) {
    && Increasing(lt, filed) && |out| == |filed|
    && (forall k :: k in filed <==> Filter(key, arrivals, k) != [])
    && (forall i :: 0 <= i < |out| ==>
          Filter(key, arrivals, filed[i]) != [] && out[i] == Fold(merge, Filter(key, arrivals, filed[i])))
  }

  /** Filing one more arrival under its key keeps every entry the fold of its own. */
  lemma FoldsOneMore<T, K(!new)>(key: T -> K, merge: Merge<T>, arrivals: seq<T>, items: map<K, T>, x: T)
    requires Folds(key, merge, arrivals, items)
    ensures var k := key(x);
            Folds(key, merge, arrivals + [x], items[k := if k in items && merge.Some? then merge.value(items[k], x) else x])
  {
    var all := arrivals + [x];
    assert all[..|all| - 1] == arrivals;
    var items' := items[key(x) := if key(x) in items && merge.Some? then merge.value(items[key(x)], x) else x];
    forall k ensures k in items' <==> Filter(key, all, k) != [] {}
    forall k | k in items' && Filter(key, all, k) != [] ensures items'[k] == Fold(merge, Filter(key, all, k)) {
      if k == key(x) {
        var before := Filter(key, arrivals, k);
        assert Filter(key, all, k) == before + [x];
        assert (before + [x])[..|before|] == before;
      } else {
        assert Filter(key, all, k) == Filter(key, arrivals, k);
      }
    }
  }

  // -------------------------------------------------------------- accumulators

  /** `newSliceAccumulator`: everything, in the order it arrived. */
  class SliceAccumulator<T> {
    var items: seq<T>

    constructor ()
      ensures items == []
    {
      items := [];
    }

    method Add(more: seq<T>)
      modifies this
      ensures items == old(items) + more
    {
      items := items + more;
    }

    method Collect() returns (out: seq<T>)
      ensures out == items
    {
      out := items;
    }
  }

  /** `newKeyedAccumulator`: one item per key, emitted in key order. */
  class KeyedAccumulator<T(!new), K(!new, ==)> {
    const key: T -> K
    const merge: Merge<T>
    const lt: (K, K) -> bool
    var items: map<K, T>
    ghost var arrivals: seq<T>

    ghost predicate Valid()
      reads this
    {
      StrictTotal(lt) && Folds(key, merge, arrivals, items)
    }

    constructor (key: T -> K, merge: Merge<T>, lt: (K, K) -> bool)
      requires StrictTotal(lt)
      ensures Valid() && arrivals == [] && this.key == key && this.merge == merge && this.lt == lt
    {
      this.key, this.merge, this.lt := key, merge, lt;
      items, arrivals := map[], [];
    }

    /** However the arrivals are chunked into calls, only their order matters. */
    method Add(more: seq<T>)
      requires Valid()
      modifies this
      ensures Valid() && arrivals == old(arrivals) + more
    {
      var i := 0;
      while i < |more|
        invariant 0 <= i <= |more|
        invariant Valid() && arrivals == old(arrivals) + more[..i]
      {
        var x := more[i];
        var k := key(x);
        FoldsOneMore(key, merge, arrivals, items, x);
        if k in items && merge.Some? {
          items := items[k := merge.value(items[k], x)];
        } else {
          items := items[k := x];
        }
        arrivals := arrivals + [x];
        i := i + 1;
        assert more[..i] == more[..i - 1] + [x];
      }
      assert more[..i] == more;
    }

    method Collect() returns (out: seq<T>, filed: seq<K>)
      requires Valid()
      ensures Collected(key, merge, lt, arrivals, out, filed)
    {
      filed := SortKeys(lt, items.Keys);
      out := [];
      var i := 0;
      while i < |filed|
        invariant 0 <= i <= |filed| && |out| == i
        invariant forall j :: 0 <= j < i ==> out[j] == items[filed[j]]
      {
        assert filed[i] in items.Keys;
        out := out + [items[filed[i]]];
        i := i + 1;
      }
    }
  }

  /** Collecting leaves no choice of what is written, nor of its order. */
  lemma CollectedIsUnique<T, K(!new)>(key: T -> K, merge: Merge<T>, lt: (K, K) -> bool, arrivals: seq<T>,
                                      p: seq<T>, ps: seq<K>, q: seq<T>, qs: seq<K>)
    requires StrictTotal(lt) && Collected(key, merge, lt, arrivals, p, ps) && Collected(key, merge, lt, arrivals, q, qs)
    ensures ps == qs && p == q
  {
    var keys := set k | k in ps;
    SortedIsUnique(lt, keys, ps, qs);
  }

  /** Every submitted item is accounted for by the entry of its key. */
  lemma {:induction false} EveryArrivalIsFiled<T, K(!new)>(key: T -> K, arrivals: seq<T>, i: nat)
    requires i < |arrivals|
    ensures arrivals[i] in Filter(key, arrivals, key(arrivals[i]))
    decreases |arrivals|
  {
    var n := |arrivals| - 1;
    if i < n {
      EveryArrivalIsFiled(key, arrivals[..n], i);
    }
  }
}
