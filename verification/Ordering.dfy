/** Sorting the keys of a map under a strict total order, and any items, stably, under
    an order that may leave some of them tied. */
module Ordering {
  import opened Prelude

  ghost predicate StrictTotal<K(!new)>(lt: (K, K) -> bool) {
    && (forall x :: !lt(x, x))
    && (forall x, y, z :: lt(x, y) && lt(y, z) ==> lt(x, z))
    && (forall x, y :: x == y || lt(x, y) || lt(y, x))
  }

  ghost predicate Increasing<K(!new)>(lt: (K, K) -> bool, ks: seq<K>) {
    forall i, j :: 0 <= i < j < |ks| ==> lt(ks[i], ks[j])
  }

  /** `ks` lists exactly the members of `s`, in increasing order. */
  ghost predicate Sorts<K(!new)>(lt: (K, K) -> bool, s: set<K>, ks: seq<K>) {
    Increasing(lt, ks) && forall k :: k in s <==> k in ks
  }

  /** Inserts `k` before the first larger key. */
  method InsertKey<K(!new)>(lt: (K, K) -> bool, ks: seq<K>, k: K) returns (r: seq<K>)
    requires StrictTotal(lt) && Increasing(lt, ks) && k !in ks
    ensures Increasing(lt, r) && |r| == |ks| + 1 && forall x :: x in r <==> x == k || x in ks
  {
    var i := 0;
    while i < |ks| && lt(ks[i], k)
      invariant 0 <= i <= |ks|
      invariant forall j :: 0 <= j < i ==> lt(ks[j], k)
    {
      i := i + 1;
    }
    r := ks[..i] + [k] + ks[i..];
    assert ks == ks[..i] + ks[i..];
  }

  method SortKeys<K(!new, ==)>(lt: (K, K) -> bool, s: set<K>) returns (ks: seq<K>)
    requires StrictTotal(lt)
    ensures Sorts(lt, s, ks) && |ks| == |s|
  {
    ks := [];
    var rest := s;
    while rest != {}
      invariant rest <= s && Increasing(lt, ks) && |ks| + |rest| == |s|
      invariant forall k :: k in ks <==> k in s && k !in rest
      decreases |rest|
    {
      var k :| k in rest;
      ks := InsertKey(lt, ks, k);
      rest := rest - {k};
    }
  }

  /** The order leaves no choice: two listings of one set are the same. */
  lemma {:induction false} SortedIsUnique<K(!new)>(lt: (K, K) -> bool, s: set<K>, p: seq<K>, q: seq<K>)
    requires StrictTotal(lt) && Sorts(lt, s, p) && Sorts(lt, s, q)
    ensures p == q
    decreases |p|
  {
    assert |p| > 0 ==> p[0] in s;
    assert |q| > 0 ==> q[0] in s;
    if p != [] {
      FirstIsLeast(lt, s, p, q);
      FirstIsLeast(lt, s, q, p);
      Rest(lt, s, p);
      Rest(lt, s, q);
      SortedIsUnique(lt, s - {p[0]}, p[1..], q[1..]);
      assert p == [p[0]] + p[1..] && q == [q[0]] + q[1..];
    }
  }

  lemma FirstIsLeast<K(!new)>(lt: (K, K) -> bool, s: set<K>, p: seq<K>, q: seq<K>)
    requires StrictTotal(lt) && Sorts(lt, s, p) && Sorts(lt, s, q) && p != [] && q != []
    ensures !lt(q[0], p[0])
  {
    assert q[0] in s && q[0] in p;
    var j :| 0 <= j < |p| && p[j] == q[0];
    if j > 0 { assert lt(p[0], p[j]); }
  }

  lemma Rest<K(!new)>(lt: (K, K) -> bool, s: set<K>, p: seq<K>)
    requires StrictTotal(lt) && Sorts(lt, s, p) && p != []
    ensures Sorts(lt, s - {p[0]}, p[1..])
  {
    assert p == [p[0]] + p[1..];
    assert forall j :: 0 <= j < |p[1..]| ==> p[1..][j] == p[j + 1] && lt(p[0], p[j + 1]);
  }

  // ------------------------------------------------------------- stable sorting

  ghost predicate TotalPreorder<T(!new)>(le: (T, T) -> bool) {
    && (forall x, y :: le(x, y) || le(y, x))
    && (forall x, y, z :: le(x, y) && le(y, z) ==> le(x, z))
  }

  ghost predicate Ordered<T(!new)>(le: (T, T) -> bool, xs: seq<T>) {
    forall i, j :: 0 <= i < j < |xs| ==> le(xs[i], xs[j])
  }

  /** The elements of `xs` that `le` cannot tell from `x`. */
  function Tied<T>(le: (T, T) -> bool, x: T, xs: seq<T>): seq<T> {
    if xs == [] then []
    else
      var n := |xs| - 1;
      Tied(le, x, xs[..n]) + (if le(x, xs[n]) && le(xs[n], x) then [xs[n]] else [])
  }

  /** `ys` is `xs` in order, and what is tied keeps its place among its likes. */
  ghost predicate StablySorts<T(!new)>(le: (T, T) -> bool, xs: seq<T>, ys: seq<T>) {
    Ordered(le, ys) && multiset(ys) == multiset(xs) && forall x :: Tied(le, x, ys) == Tied(le, x, xs)
  }

  /** How many of `xs` come no later than `x`, when `xs` is in order. */
  function Place<T>(le: (T, T) -> bool, xs: seq<T>, x: T): (i: nat)
    ensures i <= |xs| && (forall j :: 0 <= j < i ==> le(xs[j], x)) && (i < |xs| ==> !le(xs[i], x))
  {
    if xs == [] || !le(xs[0], x) then 0 else 1 + Place(le, xs[1..], x)
  }

  function Inserted<T>(le: (T, T) -> bool, ys: seq<T>, y: T): seq<T> {
    var i := Place(le, ys, y);
    ys[..i] + [y] + ys[i..]
  }

  function SortStable<T>(le: (T, T) -> bool, xs: seq<T>): seq<T> {
    if xs == [] then [] else Inserted(le, SortStable(le, xs[..|xs| - 1]), xs[|xs| - 1])
  }

  lemma {:induction false} TiedConcat<T>(le: (T, T) -> bool, x: T, p: seq<T>, q: seq<T>)
    ensures Tied(le, x, p + q) == Tied(le, x, p) + Tied(le, x, q)
    decreases |q|
  {
    if q == [] {
      assert p + q == p;
    } else {
      assert (p + q)[..|p + q| - 1] == p + q[..|q| - 1];
      TiedConcat(le, x, p, q[..|q| - 1]);
    }
  }

  lemma {:induction false} NoneTied<T>(le: (T, T) -> bool, x: T, q: seq<T>)
    requires forall j :: 0 <= j < |q| ==> !(le(x, q[j]) && le(q[j], x))
    ensures Tied(le, x, q) == []
  {
    if q != [] { NoneTied(le, x, q[..|q| - 1]); }
  }

  lemma NoneTiedAfter<T(!new)>(le: (T, T) -> bool, ys: seq<T>, y: T, x: T)
    requires TotalPreorder(le) && Ordered(le, ys) && le(x, y)
    ensures Tied(le, x, ys[Place(le, ys, y)..]) == []
  {
    var i := Place(le, ys, y);
    forall j | i <= j < |ys| ensures !le(ys[j], x) {
      assert !le(ys[i], y);
    }
    NoneTied(le, x, ys[i..]);
  }

  lemma TiedMove<T>(le: (T, T) -> bool, x: T, p: seq<T>, y: T, q: seq<T>)
    requires Tied(le, x, q) == [] || Tied(le, x, [y]) == []
    ensures Tied(le, x, p + [y] + q) == Tied(le, x, p + q) + Tied(le, x, [y])
  {
    TiedConcat(le, x, p + [y], q);
    TiedConcat(le, x, p, [y]);
    TiedConcat(le, x, p, q);
  }

  /** A late arrival goes after everything it is tied with. */
  lemma TiedInsert<T(!new)>(le: (T, T) -> bool, ys: seq<T>, y: T, x: T)
    requires TotalPreorder(le) && Ordered(le, ys)
    ensures Tied(le, x, Inserted(le, ys, y)) == Tied(le, x, ys) + Tied(le, x, [y])
  {
    var i := Place(le, ys, y);
    assert ys == ys[..i] + ys[i..];
    if le(x, y) {
      NoneTiedAfter(le, ys, y, x);
    } else {
      NoneTied(le, x, [y]);
    }
    TiedMove(le, x, ys[..i], y, ys[i..]);
  }

  lemma OrderedInsert<T(!new)>(le: (T, T) -> bool, ys: seq<T>, y: T)
    requires TotalPreorder(le) && Ordered(le, ys)
    ensures Ordered(le, Inserted(le, ys, y))
  {
    var i := Place(le, ys, y);
    forall j | i <= j < |ys| ensures le(y, ys[j]) { assert le(y, ys[i]); }
  }

  lemma InsertRearranges<T>(le: (T, T) -> bool, ys: seq<T>, y: T)
    ensures multiset(Inserted(le, ys, y)) == multiset(ys) + multiset{y}
  {
    var i := Place(le, ys, y);
    assert ys == ys[..i] + ys[i..];
  }

  lemma {:induction false} SortStableSorts<T(!new)>(le: (T, T) -> bool, xs: seq<T>)
    requires TotalPreorder(le)
    ensures StablySorts(le, xs, SortStable(le, xs))
    decreases |xs|
  {
    if xs != [] {
      var front, y := xs[..|xs| - 1], xs[|xs| - 1];
      var ys := SortStable(le, front);
      SortStableSorts(le, front);
      OrderedInsert(le, ys, y);
      InsertRearranges(le, ys, y);
      assert xs == front + [y];
      forall x ensures Tied(le, x, Inserted(le, ys, y)) == Tied(le, x, xs) {
        TiedInsert(le, ys, y, x);
        TiedConcat(le, x, front, [y]);
      }
    }
  }

  /** `WithOrder`: none, or whether one item may come before another. */
  type Order<!T> = Option<(T, T) -> bool>

  ghost predicate Usable<T(!new)>(order: Order<T>) { order.Some? ==> TotalPreorder(order.value) }

  function Arranged<T>(order: Order<T>, xs: seq<T>): seq<T> {
    if order.None? then xs else SortStable(order.value, xs)
  }

  lemma ArrangedIsSorted<T(!new)>(order: Order<T>, xs: seq<T>)
    requires Usable(order)
    ensures multiset(Arranged(order, xs)) == multiset(xs)
    ensures if order.None? then Arranged(order, xs) == xs else StablySorts(order.value, xs, Arranged(order, xs))
  {
    if order.Some? { SortStableSorts(order.value, xs); }
  }
}
