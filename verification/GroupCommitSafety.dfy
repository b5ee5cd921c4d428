/** What group commit guarantees over whole runs, with any number of submitters and
    of concurrent `Close` calls. */
module GroupCommitSafety {
  import opened Prelude
  import opened GroupCommit

  /** `z` ends some run from a new batcher. */
  ghost predicate Reachable(shape: Shape, z: State) {
    exists s, actions :: Init(s) && Run(shape, s, actions) && After(shape, s, actions) == z
  }

  lemma Reached(shape: Shape, z: State)
    requires Productive(shape) && Reachable(shape, z)
    ensures Inv(shape, z)
  {
    var s, actions :| Init(s) && Run(shape, s, actions) && After(shape, s, actions) == z;
    RunKeeps(shape, s, actions);
  }

  /** Never two batches being written at once, whoever writes them. */
  lemma OneWriteInFlight(shape: Shape, z: State, c: Cid, d: Cid)
    requires Productive(shape) && Reachable(shape, z)
    requires c in z.closers && z.closers[c].Closing?
    ensures !z.flusher.Flushing?
    ensures d in z.closers && z.closers[d].Closing? ==> c == d
  {
    Reached(shape, z);
    assert CloserInv(z, c) && CloserInv(z, d);
  }

  predicate IsOpen(s: State, b: Bid) { s.open == Some(b) }

  predicate IsBeingWritten(s: State, b: Bid) {
    || (s.flusher.Flushing? && s.flusher.work.batch == b)
    || exists c :: c in s.closers && s.closers[c].Closing? && s.closers[c].work.batch == b
  }

  predicate IsReleased(s: State, b: Bid) { b < |s.batches| && s.batches[b].closes == 1 }

  /** Every batch is in exactly one place, and its done channel is closed once, when
      it gets to the last. */
  lemma BatchFate(shape: Shape, z: State, b: Bid)
    requires Productive(shape) && Reachable(shape, z) && b < |z.batches|
    ensures IsOpen(z, b) || IsBeingWritten(z, b) || IsReleased(z, b)
    ensures !(IsOpen(z, b) && IsBeingWritten(z, b)) && !(IsOpen(z, b) && IsReleased(z, b)) && !(IsBeingWritten(z, b) && IsReleased(z, b))
    ensures z.batches[b].closes <= 1
    ensures IsReleased(z, b) ==> z.batches[b].err.Some?
  {
    Reached(shape, z);
    assert BatchInv(z, b);
    if exists c :: c in z.closers && z.closers[c].Closing? && z.closers[c].work.batch == b {
      var c :| c in z.closers && z.closers[c].Closing? && z.closers[c].work.batch == b;
      assert CloserInv(z, c);
    }
  }

  /** An open batch always has somebody on the way to take it. */
  lemma OpenIsNeverStranded(shape: Shape, z: State)
    requires Productive(shape) && Reachable(shape, z) && z.open.Some?
    ensures z.wake || z.flusher.Taking? || (z.flusher.Stopped? && exists c :: c in z.closers && z.closers[c].AwaitDone?)
  {
    Reached(shape, z);
  }

  /** `Submit` of something returns nil only after a successful write made from a
      batch whose arrivals contain its items. */
  lemma NilMeansWritten(shape: Shape, z: State, i: Sid)
    requires Productive(shape) && Reachable(shape, z)
    requires i in z.submits && z.submits[i].items != [] && z.submits[i].pc == Returned(Written(Ok))
    ensures i in z.joined && z.submits[i].ticket.Some?
    ensures var tk := z.submits[i].ticket.value;
            && tk.batch < |z.writes| && tk.batch < |z.batches| && z.writes[tk.batch].result == Ok
            && z.writes[tk.batch].input == shape(z.batches[tk.batch].arrivals)
            && Rides(z.batches, tk, z.submits[i].items)
  {
    Reached(shape, z);
    assert SubmitInv(z, i);
  }

  /** A refusal means that nothing of the submission was accepted. */
  lemma ErrClosedMeansNothingAccepted(shape: Shape, z: State, i: Sid)
    requires Productive(shape) && Reachable(shape, z)
    requires i in z.submits && z.submits[i].pc == Returned(ErrClosed)
    ensures i !in z.joined && z.submits[i].ticket.None?
    ensures (forall j :: j in z.joined ==> j in z.submits) && z.accepted == ItemsOf(z.submits, z.joined)
  {
    Reached(shape, z);
    assert SubmitInv(z, i);
  }

  /** The flusher does nothing without a token or a stop, and takes the token it wakes on;
      it then writes what is open, if anything is. */
  lemma FlusherIsSentFor(shape: Shape, z: State, a: FlusherStep)
    requires FlusherEnabled(z, a)
    ensures z.flusher.Select? ==>
              if a.FlusherStop? then z.stopper.Some? && FlusherNext(shape, z, a) == z.(flusher := Stopped)
              else a.FlusherWake? && z.wake && FlusherNext(shape, z, a) == z.(flusher := Taking, wake := false)
    ensures z.flusher.Taking? ==>
              && a.FlusherTake?
              && FlusherNext(shape, z, a) == z.(open := None, flusher := if z.open.Some? then Flushing(Committing(z.open.value)) else Select)
  {
  }

  /** Whatever the shape, nothing empty is ever written: a batch that comes to nothing is
      answered with nil instead. */
  lemma {:induction false} NothingEmptyIsWritten(shape: Shape, s: State, actions: seq<Action>)
    requires Run(shape, s, actions) && forall w :: w in s.writes ==> w.input != []
    ensures forall w :: w in After(shape, s, actions).writes ==> w.input != []
    decreases |actions|
  {
    if actions != [] {
      EmptyStep(shape, s, actions[0]);
      NothingEmptyIsWritten(shape, Next(shape, s, actions[0]), actions[1..]);
    }
  }

  lemma EmptyStep(shape: Shape, s: State, a: Action)
    requires Enabled(s, a) && forall w :: w in s.writes ==> w.input != []
    ensures forall w :: w in Next(shape, s, a).writes ==> w.input != []
  {
    match a
    case OfSubmit(i, step) =>
    case OfFlusher(step) => if step.FlusherWrite? { CommitMeans(shape, s, s.flusher.work.batch, step.result); }
    case OfCloser(c, step) => if step.CloseWrite? { CommitMeans(shape, s, s.closers[c].work.batch, step.result); }
  }

  lemma CommitMeans(shape: Shape, s: State, b: Bid, r: Result)
    requires b < |s.batches|
    ensures var z, input := Commit(shape, s, b, r), shape(s.batches[b].arrivals);
      && (input == [] ==> z.writes == s.writes && z.batches == s.batches[b := s.batches[b].(err := Some(Ok))])
      && (input != [] ==> z.writes == s.writes + [WriteCall(input, r)] && z.batches == s.batches[b := s.batches[b].(err := Some(r))])
  {
  }

  // ------------------------------------------------------------ what `Submit` answers

  /** A waiting submission can be answered once its batch is released, and not before;
      the answer is the result of the write its batch went to. */
  lemma WaiterGetsItsResult(shape: Shape, z: State, i: Sid)
    requires Productive(shape) && Reachable(shape, z) && i in z.submits && z.submits[i].pc.Waiting?
    ensures z.submits[i].ticket.Some? && z.submits[i].ticket.value.batch < |z.batches|
    ensures SubmitEnabled(z, i, Answered) <==> IsReleased(z, z.submits[i].ticket.value.batch)
    ensures IsReleased(z, z.submits[i].ticket.value.batch) ==>
              var b := z.submits[i].ticket.value.batch;
              && b < |z.writes| && z.writes[b].input == shape(z.batches[b].arrivals)
              && SubmitNext(z, i, Answered).submits == z.submits[i := z.submits[i].(pc := Returned(Written(z.writes[b].result)))]
  {
    Reached(shape, z);
    assert SubmitInv(z, i);
    assert BatchInv(z, z.submits[i].ticket.value.batch);
  }

  /** A refused submission is answered with the shutdown error, and one of nothing with
      nil, at once. */
  lemma OthersAreAnsweredAtOnce(z: State, i: Sid)
    requires i in z.submits
    ensures z.submits[i].pc.Rejected? ==>
              SubmitEnabled(z, i, Answered) && SubmitNext(z, i, Answered).submits[i].pc == Returned(ErrClosed)
    ensures z.submits[i].pc.Joining? && z.submits[i].items == [] ==>
              && SubmitEnabled(z, i, Answered) && !SubmitEnabled(z, i, Join)
              && SubmitNext(z, i, Answered) == z.(submits := z.submits[i := z.submits[i].(pc := Returned(Written(Ok)))])
  {
  }

  /** A submission can give up whenever it waits, which changes nothing but its answer. */
  lemma CancelOnlyStopsWaiting(z: State, i: Sid)
    requires i in z.submits && z.submits[i].pc.Waiting?
    ensures SubmitEnabled(z, i, Cancel)
    ensures SubmitNext(z, i, Cancel) == z.(submits := z.submits[i := z.submits[i].(pc := Returned(Cancelled))])
  {
  }

  /** A submission of something can join, unless the batcher is closed its items go to the
      end of the open batch, and the flusher is sent for. */
  lemma JoinAppends(shape: Shape, z: State, i: Sid)
    requires Productive(shape) && Reachable(shape, z) && i in z.submits && z.submits[i].pc.Joining? && z.submits[i].items != []
    ensures SubmitEnabled(z, i, Join)
    ensures var z1, items := SubmitNext(z, i, Join), z.submits[i].items;
      if z.closed then z1 == z.(submits := z.submits[i := z.submits[i].(pc := Rejected)])
      else
        && z1.wake && z1.accepted == z.accepted + items && z1.open.Some? && z1.open.value < |z1.batches|
        && z1.submits[i] == Submit(items, Some(Ticket(z1.open.value, |Open(z)|)), Waiting)
        && z1.batches[z1.open.value].arrivals == Open(z) + items
        && (z.open.Some? ==> z1.open == z.open)
  {
    Reached(shape, z);
  }

  /** What the open batch has received. */
  function Open(z: State): seq<Item> {
    if z.open.Some? && z.open.value < |z.batches| then z.batches[z.open.value].arrivals else []
  }

  /** What is submitted is what the caller gave, on every run from then on. */
  lemma {:induction false} ItemsStay(shape: Shape, s: State, i: Sid, items: seq<Item>, actions: seq<Action>)
    requires i !in s.submits && Run(shape, SubmitNext(s, i, Submitted(items)), actions)
    ensures var z := After(shape, SubmitNext(s, i, Submitted(items)), actions); i in z.submits && z.submits[i].items == items
  {
    SubmittedStays(shape, SubmitNext(s, i, Submitted(items)), i, actions);
  }

  lemma {:induction false} SubmittedStays(shape: Shape, s: State, i: Sid, actions: seq<Action>)
    requires i in s.submits && Run(shape, s, actions)
    ensures i in After(shape, s, actions).submits && After(shape, s, actions).submits[i].items == s.submits[i].items
    decreases |actions|
  {
    if actions != [] {
      StepLeavesItems(shape, s, i, actions[0]);
      SubmittedStays(shape, Next(shape, s, actions[0]), i, actions[1..]);
    }
  }

  lemma StepLeavesItems(shape: Shape, s: State, i: Sid, a: Action)
    requires i in s.submits && Enabled(s, a)
    ensures i in Next(shape, s, a).submits && Next(shape, s, a).submits[i].items == s.submits[i].items
  {
    match a
    case OfSubmit(j, step) =>
    case OfFlusher(step) => FlusherLeavesSubmits(shape, s, step);
    case OfCloser(c, step) => CloserLeavesSubmits(shape, s, c, step);
  }

  lemma FlusherLeavesSubmits(shape: Shape, s: State, a: FlusherStep)
    requires FlusherEnabled(s, a)
    ensures FlusherNext(shape, s, a).submits == s.submits
  {
  }

  lemma CloserLeavesSubmits(shape: Shape, s: State, c: Cid, a: CloserStep)
    requires CloserEnabled(s, c, a)
    ensures CloserNext(shape, s, c, a).submits == s.submits
  {
  }

  // ------------------------------------------------- no waiter can be stuck

  lemma {:induction false} RunAppend(shape: Shape, s: State, p: seq<Action>, q: seq<Action>)
    requires Run(shape, s, p) && Run(shape, After(shape, s, p), q)
    ensures Run(shape, s, p + q) && After(shape, s, p + q) == After(shape, After(shape, s, p), q)
    decreases |p|
  {
    if p == [] {
      assert p + q == q;
    } else {
      assert (p + q)[1..] == p[1..] + q;
      RunAppend(shape, Next(shape, s, p[0]), p[1..], q);
    }
  }

  lemma Once(shape: Shape, s: State, a: Action)
    requires Enabled(s, a)
    ensures Run(shape, s, [a]) && After(shape, s, [a]) == Next(shape, s, a)
  {
    assert Run(shape, Next(shape, s, a), []);
  }

  predicate Internal(actions: seq<Action>) {
    forall a :: a in actions ==> !a.OfSubmit?
  }

  /** The next action of whoever is writing: it is enabled, and ends the write. */
  lemma WriterStep(shape: Shape, s: State) returns (a: Action)
    requires Inv(shape, s) && InFlight(s).Some?
    ensures Enabled(s, a) && !a.OfSubmit?
    ensures var z := Next(shape, s, a);
            && |z.batches| == |s.batches| && z.open == s.open
            && (if InFlight(s).value.Committing? then InFlight(z).Some? && InFlight(z).value.Signalling? else InFlight(z).None?)
  {
    var w := InFlight(s).value;
    if s.flusher.Flushing? {
      a := OfFlusher(if w.Committing? then FlusherWrite(Ok) else FlusherSignal);
    } else {
      a := OfCloser(s.last.value, if w.Committing? then CloseWrite(Ok) else CloseSignal);
    }
  }

  lemma FinishWrite(shape: Shape, s: State) returns (actions: seq<Action>)
    requires Productive(shape) && Inv(shape, s)
    ensures Run(shape, s, actions) && Internal(actions)
    ensures var z := After(shape, s, actions);
            Inv(shape, z) && InFlight(z).None? && |z.batches| == |s.batches| && z.open == s.open
    decreases InFlight(s).Some?, InFlight(s).Some? && InFlight(s).value.Committing?
  {
    actions := [];
    if InFlight(s).Some? {
      var a := WriterStep(shape, s);
      Once(shape, s, a);
      StepKeeps(shape, s, a);
      var more := FinishWrite(shape, Next(shape, s, a));
      RunAppend(shape, s, [a], more);
      actions := [a] + more;
    }
  }

  /** The next action of whoever is to take the open batch. */
  lemma TakerStep(shape: Shape, s: State) returns (a: Action)
    requires Inv(shape, s) && InFlight(s).None? && s.open.Some?
    ensures Enabled(s, a) && !a.OfSubmit?
    ensures var z := Next(shape, s, a);
            && |z.batches| == |s.batches|
            && (if s.flusher.Select? then z.flusher.Taking? && z.open == s.open && InFlight(z).None? else z.open.None?)
  {
    if s.flusher.Stopped? {
      a := OfCloser(s.stopper.value, CloseTake);
    } else {
      a := OfFlusher(if s.flusher.Taking? then FlusherTake else FlusherWake);
    }
  }

  lemma TakeOpen(shape: Shape, s: State) returns (actions: seq<Action>)
    requires Productive(shape) && Inv(shape, s) && InFlight(s).None?
    ensures Run(shape, s, actions) && Internal(actions)
    ensures var z := After(shape, s, actions); Inv(shape, z) && z.open.None? && |z.batches| == |s.batches|
    decreases s.open.Some?, s.flusher.Select?
  {
    actions := [];
    if s.open.Some? {
      var a := TakerStep(shape, s);
      Once(shape, s, a);
      StepKeeps(shape, s, a);
      actions := [a];
      if s.flusher.Select? {
        var more := TakeOpen(shape, Next(shape, s, a));
        RunAppend(shape, s, [a], more);
        actions := [a] + more;
      }
    }
  }

  lemma NothingLeft(shape: Shape, z: State)
    requires Inv(shape, z) && InFlight(z).None? && z.open.None?
    ensures forall b :: 0 <= b < |z.batches| ==> IsReleased(z, b)
  {
    forall b | 0 <= b < |z.batches| ensures IsReleased(z, b) { assert BatchInv(z, b); }
  }

  /** Whatever happened so far, the flusher and the closers alone can release every
      batch: no schedule strands a waiting submitter. */
  lemma EveryWaiterCanBeReleased(shape: Shape, s: State) returns (actions: seq<Action>)
    requires Productive(shape) && Reachable(shape, s)
    ensures Run(shape, s, actions) && Internal(actions)
    ensures var z := After(shape, s, actions);
            |z.batches| == |s.batches| && forall b :: 0 <= b < |z.batches| ==> IsReleased(z, b)
  {
    Reached(shape, s);
    var p := FinishWrite(shape, s);
    var s1 := After(shape, s, p);
    var q := TakeOpen(shape, s1);
    RunAppend(shape, s, p, q);
    var s2 := After(shape, s1, q);
    var r := FinishWrite(shape, s2);
    RunAppend(shape, s, p + q, r);
    actions := p + q + r;
    NothingLeft(shape, After(shape, s2, r));
  }

  /** Once any `Close` has returned no batch is open, and every batch was written and its
      waiters released, except while another `Close` still writes the last one. */
  lemma CloseLeavesNothing(shape: Shape, z: State, c: Cid)
    requires Productive(shape) && Reachable(shape, z) && c in z.closers && z.closers[c].Closed?
    ensures z.closed && z.open.None? && z.flusher.Stopped?
    ensures (forall d :: d in z.closers ==> !z.closers[d].Closing?) <==> (forall b :: 0 <= b < |z.batches| ==> IsReleased(z, b))
    ensures (forall d :: d in z.closers ==> !z.closers[d].Closing?) ==> |z.writes| == |z.batches|
  {
    Reached(shape, z);
    assert CloserInv(z, c);
    forall d | d in z.closers && z.closers[d].Closing?
      ensures exists b :: 0 <= b < |z.batches| && !IsReleased(z, b)
    {
      assert CloserInv(z, d);
      var b := z.closers[d].work.batch;
      assert BatchInv(z, b) && !IsReleased(z, b);
    }
    if forall d :: d in z.closers ==> !z.closers[d].Closing? {
      NothingLeft(shape, z);
    }
  }

  lemma Grow(shape: Shape, actions: seq<Action>, s: State, a: Action, z: State) returns (more: seq<Action>)
    requires Run(shape, NEW_STATE, actions) && After(shape, NEW_STATE, actions) == s
    requires Enabled(s, a) && Next(shape, s, a) == z
    ensures Run(shape, NEW_STATE, more) && After(shape, NEW_STATE, more) == z
  {
    RunExtends(shape, NEW_STATE, actions, a);
    more := actions + [a];
  }

  /** One item waits in the open batch while two `Close` calls proceed. */
  function TwoClosers(x: Item, first: Closer, second: Closer, gone: bool): State {
    OneWaits(x).(closers := map[0 := first, 1 := second], flusher := if gone then Stopped else Select,
                 stopper := if first.Stopping? then None else Some(0))
  }

  function OneWaits(x: Item): State {
    NEW_STATE.(batches := [Batch([x], None, 0)], open := Some(0), wake := true,
               submits := map[0 := Submit([x], Some(Ticket(0, 0)), Waiting)], accepted := [x], joined := [0])
  }

  lemma BothCalled(shape: Shape, x: Item) returns (actions: seq<Action>)
    ensures Run(shape, NEW_STATE, actions) && After(shape, NEW_STATE, actions) == TwoClosers(x, Stopping, Stopping, false)
  {
    var s := OneWaits(x);
    var asked := NEW_STATE.(submits := map[0 := Submit([x], None, Joining)]);
    actions := Grow(shape, [], NEW_STATE, OfSubmit(0, Submitted([x])), asked);
    assert JoinNext(asked, 0) == s by {
      assert [] + [x] == [x] && [] + [Batch([x], None, 0)] == s.batches && [] + [0] == s.joined;
      assert JoinNext(asked, 0).submits == s.submits;
    }
    actions := Grow(shape, actions, asked, OfSubmit(0, Join), s);
    actions := Grow(shape, actions, s, OfCloser(0, CloseCalled), s.(closers := map[0 := Stopping]));
    actions := Grow(shape, actions, s.(closers := map[0 := Stopping]), OfCloser(1, CloseCalled), TwoClosers(x, Stopping, Stopping, false));
  }

  lemma BothStop(shape: Shape, x: Item, actions: seq<Action>) returns (more: seq<Action>)
    requires Run(shape, NEW_STATE, actions) && After(shape, NEW_STATE, actions) == TwoClosers(x, Stopping, Stopping, false)
    ensures Run(shape, NEW_STATE, more) && After(shape, NEW_STATE, more) == TwoClosers(x, AwaitDone, AwaitDone, true)
  {
    var s := TwoClosers(x, AwaitDone, Stopping, false);
    more := Grow(shape, actions, TwoClosers(x, Stopping, Stopping, false), OfCloser(0, CloseStop), s);
    more := Grow(shape, more, s, OfCloser(1, CloseStop), TwoClosers(x, AwaitDone, AwaitDone, false));
    more := Grow(shape, more, TwoClosers(x, AwaitDone, AwaitDone, false), OfFlusher(FlusherStop), TwoClosers(x, AwaitDone, AwaitDone, true));
  }

  /** A second `Close` can return while the first has the last batch still to write. */
  lemma SecondCloseReturnsFirst(shape: Shape, x: Item) returns (actions: seq<Action>)
    ensures Run(shape, NEW_STATE, actions)
    ensures var z := After(shape, NEW_STATE, actions);
      && z.closers == map[0 := Closing(Committing(0)), 1 := Closed(Ok)]
      && |z.batches| == 1 && z.batches[0].arrivals == [x] && !IsReleased(z, 0) && z.writes == []
  {
    actions := BothCalled(shape, x);
    actions := BothStop(shape, x, actions);
    var s := TwoClosers(x, AwaitDone, AwaitDone, true);
    var z := s.(closed := true, open := None, last := Some(0));
    var t := z.(closers := map[0 := Closing(Committing(0)), 1 := AwaitDone]);
    z := z.(closers := map[0 := Closing(Committing(0)), 1 := Closed(Ok)]);
    actions := Grow(shape, actions, s, OfCloser(0, CloseTake), t);
    actions := Grow(shape, actions, t, OfCloser(1, CloseTake), z);
  }

  ghost predicate StaysClosed(s: State, z: State) {
    z.closed && z.accepted == s.accepted && |z.batches| == |s.batches|
  }

  lemma ClosedSubmit(s: State, i: Sid, a: SubmitStep)
    requires SubmitEnabled(s, i, a) && s.closed
    ensures StaysClosed(s, SubmitNext(s, i, a))
  {
  }

  lemma ClosedFlusher(shape: Shape, s: State, a: FlusherStep)
    requires FlusherEnabled(s, a) && s.closed
    ensures StaysClosed(s, FlusherNext(shape, s, a))
  {
  }

  lemma ClosedCloser(shape: Shape, s: State, c: Cid, a: CloserStep)
    requires CloserEnabled(s, c, a) && s.closed
    ensures StaysClosed(s, CloserNext(shape, s, c, a))
  {
  }

  lemma ClosedStep(shape: Shape, s: State, a: Action)
    requires Enabled(s, a) && s.closed
    ensures StaysClosed(s, Next(shape, s, a))
  {
    match a
    case OfSubmit(i, step) => ClosedSubmit(s, i, step);
    case OfFlusher(step) => ClosedFlusher(shape, s, step);
    case OfCloser(c, step) => ClosedCloser(shape, s, c, step);
  }

  /** And nothing is accepted after it, by whoever submits. */
  lemma {:induction false} NothingAcceptedAfterClose(shape: Shape, s: State, actions: seq<Action>)
    requires Run(shape, s, actions) && s.closed
    ensures StaysClosed(s, After(shape, s, actions))
    decreases |actions|
  {
    if actions != [] {
      ClosedStep(shape, s, actions[0]);
      NothingAcceptedAfterClose(shape, Next(shape, s, actions[0]), actions[1..]);
    }
  }
}
