/** What the write function of a group commit receives, with and without `WithMerge`
    and `WithOrder`. */
module GroupCommitWrites {
  import opened Prelude
  import opened Ordering
  import opened Accumulators
  import opened GroupCommit
  import opened GroupCommitSafety

  // --------------------------------------------- from a batch's arrivals to its input

  /** Everything that arrived, in order of arrival unless there is another. */
  function Unmerged(order: Order<Item>): Shape {
    (xs: seq<Item>) => Arranged(order, xs)
  }

  /** One item per key, in key order unless there is another. */
  ghost predicate Merges<K(!new)>(key: Item -> K, merge: Merge<Item>, lt: (K, K) -> bool, order: Order<Item>, xs: seq<Item>, out: seq<Item>) {
    exists items, filed :: Collected(key, merge, lt, xs, items, filed) && out == Arranged(order, items)
  }

  /** A shape that `WithMerge` can give a batch. */
  ghost predicate MergingShape<K(!new)>(key: Item -> K, merge: Merge<Item>, lt: (K, K) -> bool, order: Order<Item>, shape: Shape) {
    forall xs :: Merges(key, merge, lt, order, xs, shape(xs))
  }

  /** What the submissions that joined a batch brought, one after another. */
  function Flat(submissions: seq<seq<Item>>): seq<Item> {
    if submissions == [] then [] else Flat(submissions[..|submissions| - 1]) + submissions[|submissions| - 1]
  }

  lemma FlatOneMore(submissions: seq<seq<Item>>, i: nat)
    requires i < |submissions|
    ensures Flat(submissions[..i + 1]) == Flat(submissions[..i]) + submissions[i]
  {
    assert submissions[..i + 1][..i] == submissions[..i];
  }

  /** Each `join` adds to the slice accumulator; `commit` collects and sorts. */
  method UnmergedInput(submissions: seq<seq<Item>>, order: Order<Item>) returns (input: seq<Item>)
    ensures input == Unmerged(order)(Flat(submissions))
  {
    var acc := new SliceAccumulator<Item>();
    var i := 0;
    while i < |submissions|
      invariant 0 <= i <= |submissions| && acc.items == Flat(submissions[..i])
    {
      FlatOneMore(submissions, i);
      acc.Add(submissions[i]);
      i := i + 1;
    }
    assert submissions[..i] == submissions;
    input := acc.Collect();
    if order.Some? { input := SortStable(order.value, input); }
  }

  /** The same with a keyed accumulator. */
  method MergedInput<K(!new, ==)>(key: Item -> K, merge: Merge<Item>, lt: (K, K) -> bool, submissions: seq<seq<Item>>, order: Order<Item>)
    returns (input: seq<Item>)
    requires StrictTotal(lt)
    ensures Merges(key, merge, lt, order, Flat(submissions), input)
  {
    var acc := new KeyedAccumulator(key, merge, lt);
    var i := 0;
    while i < |submissions|
      invariant 0 <= i <= |submissions| && acc.Valid() && acc.arrivals == Flat(submissions[..i])
    {
      FlatOneMore(submissions, i);
      acc.Add(submissions[i]);
      i := i + 1;
    }
    assert submissions[..i] == submissions;
    var items, filed := acc.Collect();
    input := items;
    if order.Some? { input := SortStable(order.value, input); }
  }

  lemma UnmergedIsProductive(order: Order<Item>)
    requires Usable(order)
    ensures Productive(Unmerged(order))
  {
    forall xs: seq<Item> | xs != [] ensures Unmerged(order)(xs) != [] {
      ArrangedIsSorted(order, xs);
      assert xs[0] in multiset(xs);
    }
  }

  lemma MergingIsProductive<K(!new)>(key: Item -> K, merge: Merge<Item>, lt: (K, K) -> bool, order: Order<Item>, shape: Shape)
    requires Usable(order) && MergingShape(key, merge, lt, order, shape)
    ensures Productive(shape)
  {
    forall xs | xs != [] ensures shape(xs) != [] { MergedHas(key, merge, lt, order, xs, shape(xs), 0); }
  }

  /** Whatever the order, each arrival's key has its fold in the input. */
  lemma MergedHas<K(!new)>(key: Item -> K, merge: Merge<Item>, lt: (K, K) -> bool, order: Order<Item>, xs: seq<Item>, out: seq<Item>, i: nat)
    requires Usable(order) && Merges(key, merge, lt, order, xs, out) && i < |xs|
    ensures var same := Filter(key, xs, key(xs[i])); xs[i] in same && Fold(merge, same) in out
  {
    EveryArrivalIsFiled(key, xs, i);
    var items, filed :| Collected(key, merge, lt, xs, items, filed) && out == Arranged(order, items);
    assert key(xs[i]) in filed;
    var m :| 0 <= m < |filed| && filed[m] == key(xs[i]);
    assert items[m] == Fold(merge, Filter(key, xs, key(xs[i])));
    ArrangedIsSorted(order, items);
    assert items[m] in multiset(out);
  }

  // ----------------------------------------------------------------- over every run

  function Inputs(writes: seq<WriteCall>): seq<Item> {
    if writes == [] then [] else Inputs(writes[..|writes| - 1]) + writes[|writes| - 1].input
  }

  /** What the batch handed out for writing, but not yet written, received. */
  function Pending(s: State): seq<Item> {
    var w := InFlight(s);
    if w.Some? && w.value.Committing? && w.value.batch < |s.batches| then s.batches[w.value.batch].arrivals else []
  }

  lemma {:induction false} InputsArrange(order: Order<Item>, writes: seq<WriteCall>, batches: seq<Batch>)
    requires Usable(order) && |writes| == |batches|
    requires forall b :: 0 <= b < |writes| ==> writes[b].input == Arranged(order, batches[b].arrivals)
    ensures multiset(Inputs(writes)) == multiset(Concat(batches))
    ensures order.None? ==> Inputs(writes) == Concat(batches)
    decreases |writes|
  {
    if writes != [] {
      var n := |writes| - 1;
      InputsArrange(order, writes[..n], batches[..n]);
      ArrangedIsSorted(order, batches[n].arrivals);
    }
  }

  /** Without a merge, what was written, what is being written and what is open add up
      to everything accepted, with nothing repeated; without an order, in join order. */
  lemma NothingLostOrReordered(order: Order<Item>, z: State)
    requires Usable(order) && Reachable(Unmerged(order), z)
    ensures multiset(Inputs(z.writes) + Pending(z) + Open(z)) == multiset(z.accepted)
    ensures order.None? ==> Inputs(z.writes) + Pending(z) + Open(z) == z.accepted
    ensures (forall i :: i in z.joined ==> i in z.submits) && z.accepted == ItemsOf(z.submits, z.joined)
  {
    UnmergedIsProductive(order);
    Reached(Unmerged(order), z);
    WrittenAsTaken(order, z);
    RestIsPendingAndOpen(z);
    var written := Concat(z.batches[..|z.writes|]);
    assert multiset(z.accepted) == multiset(written) + multiset(Pending(z)) + multiset(Open(z));
  }

  lemma WrittenAsTaken(order: Order<Item>, z: State)
    requires Usable(order) && Inv(Unmerged(order), z)
    ensures |z.writes| <= |z.batches| && multiset(Inputs(z.writes)) == multiset(Concat(z.batches[..|z.writes|]))
    ensures order.None? ==> Inputs(z.writes) == Concat(z.batches[..|z.writes|])
  {
    var n := |z.writes|;
    forall b | 0 <= b < n ensures z.writes[b].input == Arranged(order, z.batches[..n][b].arrivals) { assert BatchInv(z, b); }
    InputsArrange(order, z.writes, z.batches[..n]);
  }

  lemma RestIsPendingAndOpen(z: State)
    requires Core(z) && |z.writes| == Committed(z)
    ensures 0 <= Committed(z) <= |z.batches| && Concat(z.batches[..Committed(z)]) + Pending(z) + Open(z) == Concat(z.batches)
  {
    var n := Committed(z);
    if |z.batches| == n {
      assert z.batches[..n] == z.batches;
    } else if |z.batches| == n + 1 {
      assert z.batches[..|z.batches| - 1] == z.batches[..n];
    } else {
      var front := z.batches[..|z.batches| - 1];
      assert front[..|front| - 1] == z.batches[..n];
      assert Concat(front) == Concat(z.batches[..n]) + Pending(z);
    }
  }

  /** With an order, each write receives one batch sorted by it, ties as they arrived. */
  lemma EveryWriteIsSorted(le: (Item, Item) -> bool, z: State, b: Bid)
    requires TotalPreorder(le) && Reachable(Unmerged(Some(le)), z) && b < |z.writes|
    ensures b < |z.batches| && StablySorts(le, z.batches[b].arrivals, z.writes[b].input)
  {
    UnmergedIsProductive(Some(le));
    Reached(Unmerged(Some(le)), z);
    ArrangedIsSorted(Some(le), z.batches[b].arrivals);
  }

  /** `Submit` returns nil only after a successful write that received its items, each
      as often as it was submitted. */
  lemma NilMeansItemsWritten(order: Order<Item>, z: State, i: Sid)
    requires Usable(order) && Reachable(Unmerged(order), z)
    requires i in z.submits && z.submits[i].items != [] && z.submits[i].pc == Returned(Written(Ok))
    ensures z.submits[i].ticket.Some? && z.submits[i].ticket.value.batch < |z.writes|
    ensures var w := z.writes[z.submits[i].ticket.value.batch];
            w.result == Ok && multiset(z.submits[i].items) <= multiset(w.input)
  {
    UnmergedIsProductive(order);
    NilMeansWritten(Unmerged(order), z, i);
    var tk, n := z.submits[i].ticket.value, |z.submits[i].items|;
    var xs := z.batches[tk.batch].arrivals;
    assert xs == xs[..tk.at] + xs[tk.at..tk.at + n] + xs[tk.at + n..];
    ArrangedIsSorted(order, xs);
  }

  lemma RidesAt(batches: seq<Batch>, tk: Ticket, items: seq<Item>, j: nat)
    requires Rides(batches, tk, items) && j < |items|
    ensures tk.batch < |batches| && tk.at + j < |batches[tk.batch].arrivals| && batches[tk.batch].arrivals[tk.at + j] == items[j]
  {
    assert batches[tk.batch].arrivals[tk.at..tk.at + |items|][j] == items[j];
  }

  /** With a merge key: that write carried, under the key of each submitted item, the
      fold over arrivals which include the item, whatever order was asked for. */
  lemma NilAccountsForEveryItem<K(!new)>(key: Item -> K, merge: Merge<Item>, lt: (K, K) -> bool, order: Order<Item>,
                                         shape: Shape, z: State, i: Sid, j: nat)
    requires Usable(order) && MergingShape(key, merge, lt, order, shape) && Reachable(shape, z)
    requires i in z.submits && j < |z.submits[i].items| && z.submits[i].pc == Returned(Written(Ok))
    ensures z.submits[i].ticket.Some? && z.submits[i].ticket.value.batch < |z.writes| && z.submits[i].ticket.value.batch < |z.batches|
    ensures var b := z.submits[i].ticket.value.batch;
            var x := z.submits[i].items[j];
            var same := Filter(key, z.batches[b].arrivals, key(x));
            z.writes[b].result == Ok && x in same && Fold(merge, same) in z.writes[b].input
  {
    MergingIsProductive(key, merge, lt, order, shape);
    NilMeansWritten(shape, z, i);
    var tk := z.submits[i].ticket.value;
    var xs := z.batches[tk.batch].arrivals;
    RidesAt(z.batches, tk, z.submits[i].items, j);
    assert Merges(key, merge, lt, order, xs, shape(xs));
    MergedHas(key, merge, lt, order, xs, shape(xs), tk.at + j);
  }
}
