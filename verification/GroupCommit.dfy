/** Group commit: submitters join one open batch, a single flusher writes batches
    one at a time, and any number of `Close` calls race to stop it. Each action is
    one region under the mutex, one channel operation or one write call. */
module GroupCommit {
  import opened Prelude

  type Item(!new)
  type Error(==, !new)
  type Bid = nat
  type Sid = nat
  type Cid = nat

  datatype Result = Ok | Err(error: Error)

  /** `closes` counts how often the batch's done channel was closed: Go panics at two. */
  datatype Batch = Batch(arrivals: seq<Item>, err: Option<Result>, closes: nat)

  /** A batch taken out for writing: before its write returned, and after. */
  datatype Work = Committing(batch: Bid) | Signalling(batch: Bid)

  datatype Flusher = Select | Taking | Flushing(work: Work) | Stopped

  datatype Closer = Stopping | AwaitDone | Closing(work: Work) | Closed(result: Result)

  datatype Answer = Written(result: Result) | ErrClosed | Cancelled

  /** Where a submission rides: its batch and its offset among the arrivals. */
  datatype Ticket = Ticket(batch: Bid, at: nat)

  datatype SubmitPc = Joining | Waiting | Rejected | Returned(answer: Answer)

  datatype Submit = Submit(items: seq<Item>, ticket: Option<Ticket>, pc: SubmitPc)

  datatype WriteCall = WriteCall(input: seq<Item>, result: Result)

  /** Batches are numbered in the order they were opened. `accepted`, `joined` and
      `writes` are history; `stopper` is the closer that closed the stop channel
      and `last` the one that took the final batch. */
  datatype State = State(
    batches: seq<Batch>,
    open: Option<Bid>,
    wake: bool,
    closed: bool,
    flusher: Flusher,
    closers: map<Cid, Closer>,
    submits: map<Sid, Submit>,
    stopper: Option<Cid>,
    last: Option<Cid>,
    accepted: seq<Item>,
    joined: seq<Sid>,
    writes: seq<WriteCall>)

  /** How a batch turns arrivals into the slice one write receives. */
  type Shape = seq<Item> -> seq<Item>

  datatype SubmitStep = Submitted(items: seq<Item>) | Join | Answered | Cancel
  datatype FlusherStep = FlusherStop | FlusherWake | FlusherTake | FlusherWrite(result: Result) | FlusherSignal
  datatype CloserStep = CloseCalled | CloseStop | CloseTake | CloseWrite(result: Result) | CloseSignal

  datatype Action =
    | OfSubmit(i: Sid, submit: SubmitStep)
    | OfFlusher(flush: FlusherStep)
    | OfCloser(c: Cid, close: CloserStep)

  predicate Holds(s: State, work: Work) { work.batch < |s.batches| }

  predicate SubmitEnabled(s: State, i: Sid, a: SubmitStep) {
    match a
    case Submitted(_) => i !in s.submits
    case Join => i in s.submits && s.submits[i].pc.Joining? && s.submits[i].items != []
    case Answered =>
      i in s.submits &&
      var sub := s.submits[i];
      (|| (sub.pc.Joining? && sub.items == [])
       || sub.pc.Rejected?
       || (sub.pc.Waiting? && sub.ticket.Some? && sub.ticket.value.batch < |s.batches|
           && 0 < s.batches[sub.ticket.value.batch].closes && s.batches[sub.ticket.value.batch].err.Some?))
    case Cancel => i in s.submits && (s.submits[i].pc.Waiting? || s.submits[i].pc.Rejected?)
  }

  predicate FlusherEnabled(s: State, a: FlusherStep) {
    match a
    case FlusherStop => s.flusher.Select? && s.stopper.Some?
    case FlusherWake => s.flusher.Select? && s.wake
    case FlusherTake => s.flusher.Taking?
    case FlusherWrite(_) => s.flusher.Flushing? && s.flusher.work.Committing? && Holds(s, s.flusher.work)
    case FlusherSignal => s.flusher.Flushing? && s.flusher.work.Signalling? && Holds(s, s.flusher.work)
  }

  predicate CloserEnabled(s: State, c: Cid, a: CloserStep) {
    match a
    case CloseCalled => c !in s.closers
    case CloseStop => c in s.closers && s.closers[c].Stopping?
    case CloseTake => c in s.closers && s.closers[c].AwaitDone? && s.flusher.Stopped?
    case CloseWrite(_) => c in s.closers && s.closers[c].Closing? && s.closers[c].work.Committing? && Holds(s, s.closers[c].work)
    case CloseSignal => c in s.closers && s.closers[c].Closing? && s.closers[c].work.Signalling? && Holds(s, s.closers[c].work)
  }

  predicate Enabled(s: State, a: Action) {
    match a
    case OfSubmit(i, step) => SubmitEnabled(s, i, step)
    case OfFlusher(step) => FlusherEnabled(s, step)
    case OfCloser(c, step) => CloserEnabled(s, c, step)
  }

  /** `join`: refused once closed, else into the open batch, and nudge the flusher. */
  function JoinNext(s: State, i: Sid): State
    requires i in s.submits
  {
    var sub := s.submits[i];
    var joinable := s.open.Some? && s.open.value < |s.batches|;
    if s.closed then s.(submits := s.submits[i := sub.(pc := Rejected)])
    else
      var b := if joinable then s.open.value else |s.batches|;
      var before := if joinable then s.batches[b].arrivals else [];
      var batch := Batch(before + sub.items, None, 0);
      s.(batches := if joinable then s.batches[b := batch] else s.batches + [batch],
         open := Some(b),
         wake := true,
         submits := s.submits[i := sub.(ticket := Some(Ticket(b, |before|)), pc := Waiting)],
         accepted := s.accepted + sub.items,
         joined := s.joined + [i])
  }

  /** `commit`: an empty slice is not written at all. */
  function Commit(shape: Shape, s: State, b: Bid, r: Result): State
    requires b < |s.batches|
  {
    var input := shape(s.batches[b].arrivals);
    if input == [] then s.(batches := s.batches[b := s.batches[b].(err := Some(Ok))])
    else s.(batches := s.batches[b := s.batches[b].(err := Some(r))], writes := s.writes + [WriteCall(input, r)])
  }

  function Signal(s: State, b: Bid): State
    requires b < |s.batches|
  {
    s.(batches := s.batches[b := s.batches[b].(closes := s.batches[b].closes + 1)])
  }

  function SubmitNext(s: State, i: Sid, a: SubmitStep): State
    requires SubmitEnabled(s, i, a)
  {
    match a
    case Submitted(items) => s.(submits := s.submits[i := Submit(items, None, Joining)])
    case Join => JoinNext(s, i)
    case Answered =>
      var sub := s.submits[i];
      var answer := if sub.pc.Joining? then Written(Ok)
                    else if sub.pc.Rejected? then ErrClosed
                    else Written(s.batches[sub.ticket.value.batch].err.value);
      s.(submits := s.submits[i := sub.(pc := Returned(answer))])
    case Cancel => s.(submits := s.submits[i := s.submits[i].(pc := Returned(Cancelled))])
  }

  function FlusherNext(shape: Shape, s: State, a: FlusherStep): State
    requires FlusherEnabled(s, a)
  {
    match a
    case FlusherStop => s.(flusher := Stopped)
    case FlusherWake => s.(flusher := Taking, wake := false)
    case FlusherTake =>
      s.(flusher := if s.open.None? then Select else Flushing(Committing(s.open.value)), open := None)
    case FlusherWrite(r) => Commit(shape, s, s.flusher.work.batch, r).(flusher := Flushing(Signalling(s.flusher.work.batch)))
    case FlusherSignal => Signal(s, s.flusher.work.batch).(flusher := Select)
  }

  function CloserNext(shape: Shape, s: State, c: Cid, a: CloserStep): State
    requires CloserEnabled(s, c, a)
  {
    match a
    case CloseCalled => s.(closers := s.closers[c := Stopping])
    case CloseStop =>
      s.(closers := s.closers[c := AwaitDone], stopper := if s.stopper.None? then Some(c) else s.stopper)
    case CloseTake =>
      s.(closed := true, open := None,
         closers := s.closers[c := if s.open.None? then Closed(Ok) else Closing(Committing(s.open.value))],
         last := if s.open.None? then s.last else Some(c))
    case CloseWrite(r) =>
      var b := s.closers[c].work.batch;
      Commit(shape, s, b, r).(closers := s.closers[c := Closing(Signalling(b))])
    case CloseSignal =>
      var b := s.closers[c].work.batch;
      Signal(s, b).(closers := s.closers[c := Closed(if s.batches[b].err.Some? then s.batches[b].err.value else Ok)])
  }

  function Next(shape: Shape, s: State, a: Action): State
    requires Enabled(s, a)
  {
    match a
    case OfSubmit(i, step) => SubmitNext(s, i, step)
    case OfFlusher(step) => FlusherNext(shape, s, step)
    case OfCloser(c, step) => CloserNext(shape, s, c, step)
  }

  const NEW_STATE := State([], None, false, false, Select, map[], map[], None, None, [], [], [])

  predicate Init(s: State) { s == NEW_STATE }

  // --------------------------------------------------------------- invariants

  /** The batch being written, by the flusher or by the closer that took the last one. */
  function InFlight(s: State): Option<Work> {
    if s.flusher.Flushing? then Some(s.flusher.work)
    else if s.last.Some? && s.last.value in s.closers && s.closers[s.last.value].Closing? then Some(s.closers[s.last.value].work)
    else None
  }

  /** Batches taken out of `open` so far, and those whose waiters were released. */
  function Taken(s: State): int { |s.batches| - (if s.open.Some? then 1 else 0) }

  function Completed(s: State): int { Taken(s) - (if InFlight(s).Some? then 1 else 0) }

  function Committed(s: State): int {
    Taken(s) - (if InFlight(s).Some? && InFlight(s).value.Committing? then 1 else 0)
  }

  /** The open batch is the newest, the one in flight comes before it, and only a
      closer past the flusher's end may hold the last one. */
  ghost predicate Core(s: State) {
    && (s.open.Some? ==> s.open.value == |s.batches| - 1 && !s.closed)
    && (InFlight(s).Some? ==> InFlight(s).value.batch == Taken(s) - 1)
    && (s.last.Some? ==> s.closed && s.last.value in s.closers && (s.closers[s.last.value].Closing? || s.closers[s.last.value].Closed?))
    && (s.closed ==> s.flusher.Stopped?)
    && (s.flusher.Stopped? ==> s.stopper.Some?)
    && (s.stopper.Some? ==> s.stopper.value in s.closers && !s.closers[s.stopper.value].Stopping?
                            && (!s.closed ==> s.closers[s.stopper.value].AwaitDone?))
    && (s.open.Some? ==> s.wake || s.flusher.Taking? || s.flusher.Stopped?)
    && 0 <= Completed(s)
  }

  ghost predicate BatchInv(s: State, b: Bid) {
    b < |s.batches| ==>
      && s.batches[b].arrivals != []
      && s.batches[b].closes == (if b < Completed(s) then 1 else 0)
      && (s.batches[b].err.Some? <==> b < Committed(s))
  }

  ghost predicate CloserInv(s: State, c: Cid) {
    c in s.closers ==>
      && (s.closers[c].Closing? ==> s.last == Some(c))
      && (s.closers[c].Closing? || s.closers[c].Closed? ==> s.closed)
  }

  /** The submission's items are among the arrivals of its batch, contiguously. */
  ghost predicate Rides(batches: seq<Batch>, tk: Ticket, items: seq<Item>) {
    && tk.batch < |batches| && tk.at + |items| <= |batches[tk.batch].arrivals|
    && batches[tk.batch].arrivals[tk.at..tk.at + |items|] == items
  }

  ghost predicate SubmitInv(s: State, i: Sid) {
    i in s.submits ==>
      var sub := s.submits[i];
      && (sub.pc.Joining? || sub.pc.Rejected? || (sub.pc.Returned? && sub.pc.answer.ErrClosed?) ==> sub.ticket.None?)
      && (sub.pc.Waiting? ==> sub.ticket.Some?)
      && (sub.ticket.Some? <==> i in s.joined)
      && (sub.ticket.Some? ==> Rides(s.batches, sub.ticket.value, sub.items))
      && (sub.pc.Returned? && sub.pc.answer.Written? && sub.items != [] ==>
            && sub.ticket.Some? && sub.ticket.value.batch < Completed(s)
            && s.batches[sub.ticket.value.batch].err == Some(sub.pc.answer.result))
  }

  function Concat(batches: seq<Batch>): seq<Item> {
    if batches == [] then [] else Concat(batches[..|batches| - 1]) + batches[|batches| - 1].arrivals
  }

  /** Write calls, one per batch, in the order the batches were opened. */
  ghost predicate WriteInv(shape: Shape, s: State) {
    && |s.writes| == Committed(s)
    && forall b :: 0 <= b < |s.writes| && b < |s.batches| ==>
         s.batches[b].err == Some(s.writes[b].result) && s.writes[b].input == shape(s.batches[b].arrivals)
  }

  /** The items of the submissions `ids`, in that order. */
  function ItemsOf(submits: map<Sid, Submit>, ids: seq<Sid>): seq<Item>
    requires forall i :: i in ids ==> i in submits
  {
    if ids == [] then [] else ItemsOf(submits, ids[..|ids| - 1]) + submits[ids[|ids| - 1]].items
  }

  ghost predicate HistoryInv(s: State) {
    && s.accepted == Concat(s.batches)
    && (forall i :: i in s.joined ==> i in s.submits)
    && s.accepted == ItemsOf(s.submits, s.joined)
    && (forall m, n :: 0 <= m < n < |s.joined| ==> s.joined[m] != s.joined[n])
  }

  ghost predicate Inv(shape: Shape, s: State) {
    && Core(s) && WriteInv(shape, s) && HistoryInv(s)
    && (forall b: Bid :: BatchInv(s, b))
    && (forall c: Cid :: CloserInv(s, c))
    && (forall i: Sid :: SubmitInv(s, i))
  }

  /** A shape writes something whenever something arrived. */
  ghost predicate Productive(shape: Shape) {
    forall items :: items != [] ==> shape(items) != []
  }


  // ---------------------------------------------------- submitters keep them

  lemma SubmitCore(s: State, i: Sid, a: SubmitStep)
    requires Core(s) && SubmitEnabled(s, i, a)
    ensures Core(SubmitNext(s, i, a))
  {
  }

  lemma SubmitBatch(s: State, i: Sid, a: SubmitStep, b: Bid)
    requires Core(s) && SubmitEnabled(s, i, a) && BatchInv(s, b)
    ensures BatchInv(SubmitNext(s, i, a), b)
  {
  }

  lemma FlusherCore(shape: Shape, s: State, a: FlusherStep)
    requires Core(s) && FlusherEnabled(s, a)
    ensures Core(FlusherNext(shape, s, a))
  {
  }

  lemma FlusherBatch(shape: Shape, s: State, a: FlusherStep, b: Bid)
    requires Core(s) && FlusherEnabled(s, a) && BatchInv(s, b)
    ensures BatchInv(FlusherNext(shape, s, a), b)
  {
  }

  lemma CloserCore(shape: Shape, s: State, c: Cid, a: CloserStep)
    requires Core(s) && CloserEnabled(s, c, a) && CloserInv(s, c)
    ensures Core(CloserNext(shape, s, c, a))
  {
  }

  lemma CloserBatch(shape: Shape, s: State, c: Cid, a: CloserStep, b: Bid)
    requires Core(s) && CloserEnabled(s, c, a) && CloserInv(s, c) && BatchInv(s, b)
    ensures BatchInv(CloserNext(shape, s, c, a), b)
  {
  }

  lemma CloserCloser(shape: Shape, s: State, c: Cid, a: CloserStep, d: Cid)
    requires Core(s) && CloserEnabled(s, c, a) && CloserInv(s, c) && CloserInv(s, d)
    ensures CloserInv(CloserNext(shape, s, c, a), d)
  {
  }

  /** Batches only grow, completed ones stay as they are. */
  ghost predicate Later(s: State, s1: State) {
    && |s.batches| <= |s1.batches| && Completed(s) <= Completed(s1)
    && forall b :: 0 <= b < |s.batches| ==>
         && s.batches[b].arrivals <= s1.batches[b].arrivals
         && (b < Completed(s) ==> s1.batches[b].err == s.batches[b].err)
  }

  lemma SubmitLater(s: State, i: Sid, a: SubmitStep)
    requires Core(s) && SubmitEnabled(s, i, a)
    ensures Later(s, SubmitNext(s, i, a))
  {
  }

  lemma FlusherLater(shape: Shape, s: State, a: FlusherStep)
    requires Core(s) && FlusherEnabled(s, a)
    ensures Later(s, FlusherNext(shape, s, a))
  {
  }

  lemma CloserLater(shape: Shape, s: State, c: Cid, a: CloserStep)
    requires Core(s) && CloserEnabled(s, c, a) && CloserInv(s, c)
    ensures Later(s, CloserNext(shape, s, c, a))
  {
  }

  lemma RidesOn(p: seq<Batch>, q: seq<Batch>, tk: Ticket, items: seq<Item>)
    requires Rides(p, tk, items) && tk.batch < |q| && p[tk.batch].arrivals <= q[tk.batch].arrivals
    ensures Rides(q, tk, items)
  {
    var n := tk.at + |items|;
    assert q[tk.batch].arrivals[tk.at..n] == p[tk.batch].arrivals[tk.at..n];
  }

  /** A submission nobody touched keeps its ticket and its answer. */
  lemma UntouchedSubmit(s: State, s1: State, j: Sid)
    requires Core(s) && Later(s, s1) && SubmitInv(s, j) && j in s.submits
    requires j in s1.submits && s1.submits[j] == s.submits[j] && (j in s1.joined <==> j in s.joined)
    requires Completed(s) <= |s.batches|
    ensures SubmitInv(s1, j)
  {
    var sub := s.submits[j];
    if sub.ticket.Some? { RidesOn(s.batches, s1.batches, sub.ticket.value, sub.items); }
  }

  lemma ActorSubmit(s: State, i: Sid, a: SubmitStep)
    requires Core(s) && SubmitEnabled(s, i, a) && SubmitInv(s, i) && HistoryInv(s)
    requires i in s.submits && s.submits[i].ticket.Some? ==> BatchInv(s, s.submits[i].ticket.value.batch)
    ensures SubmitInv(SubmitNext(s, i, a), i)
  {
    var s1 := SubmitNext(s, i, a);
    if a.Join? && !s.closed {
      assert s1.joined[|s1.joined| - 1] == i;
      var tk := s1.submits[i].ticket.value;
      assert s1.batches[tk.batch].arrivals[tk.at..] == s.submits[i].items;
    } else if i in s.submits && s.submits[i].ticket.Some? {
      RidesOn(s.batches, s1.batches, s.submits[i].ticket.value, s.submits[i].items);
    }
  }

  lemma SubmitWrites(shape: Shape, s: State, i: Sid, a: SubmitStep)
    requires Core(s) && SubmitEnabled(s, i, a) && WriteInv(shape, s)
    ensures WriteInv(shape, SubmitNext(s, i, a))
  {
  }

  lemma FlusherWrites(shape: Shape, s: State, a: FlusherStep)
    requires Core(s) && FlusherEnabled(s, a) && WriteInv(shape, s) && Productive(shape)
    requires forall b: Bid :: BatchInv(s, b)
    ensures WriteInv(shape, FlusherNext(shape, s, a))
  {
    if s.flusher.Flushing? { assert BatchInv(s, s.flusher.work.batch); }
  }

  lemma CloserWrites(shape: Shape, s: State, c: Cid, a: CloserStep)
    requires Core(s) && CloserEnabled(s, c, a) && CloserInv(s, c) && WriteInv(shape, s) && Productive(shape)
    requires forall b: Bid :: BatchInv(s, b)
    ensures WriteInv(shape, CloserNext(shape, s, c, a))
  {
    if c in s.closers && s.closers[c].Closing? { assert BatchInv(s, s.closers[c].work.batch); }
  }

  lemma {:induction false} ConcatSame(p: seq<Batch>, q: seq<Batch>)
    requires |p| == |q| && forall b :: 0 <= b < |p| ==> p[b].arrivals == q[b].arrivals
    ensures Concat(p) == Concat(q)
    decreases |p|
  {
    if p != [] { ConcatSame(p[..|p| - 1], q[..|q| - 1]); }
  }

  lemma {:induction false} ItemsSame(p: map<Sid, Submit>, q: map<Sid, Submit>, ids: seq<Sid>)
    requires forall i :: i in ids ==> i in p && i in q && q[i].items == p[i].items
    ensures ItemsOf(p, ids) == ItemsOf(q, ids)
    decreases |ids|
  {
    if ids != [] { ItemsSame(p, q, ids[..|ids| - 1]); }
  }

  lemma JoinHistory(s: State, i: Sid)
    requires Core(s) && SubmitEnabled(s, i, Join) && HistoryInv(s) && SubmitInv(s, i)
    ensures HistoryInv(JoinNext(s, i))
  {
    var s1 := JoinNext(s, i);
    ItemsSame(s.submits, s1.submits, s.joined);
    if !s.closed {
      assert s1.joined[..|s.joined|] == s.joined;
      var n := |s1.batches| - 1;
      assert s1.batches[..n] == s.batches[..n];
      if s.open.None? { assert s.batches[..n] == s.batches; }
    }
  }

  lemma QuietHistory(s: State, s1: State)
    requires HistoryInv(s) && s1.accepted == s.accepted && s1.joined == s.joined && s.submits.Keys <= s1.submits.Keys
    requires forall i :: i in s.submits ==> s1.submits[i].items == s.submits[i].items
    requires |s1.batches| == |s.batches| && forall b :: 0 <= b < |s.batches| ==> s1.batches[b].arrivals == s.batches[b].arrivals
    ensures HistoryInv(s1)
  {
    ConcatSame(s1.batches, s.batches);
    ItemsSame(s.submits, s1.submits, s.joined);
  }

  lemma SubmitKeeps(shape: Shape, s: State, i: Sid, a: SubmitStep)
    requires Inv(shape, s) && SubmitEnabled(s, i, a)
    ensures Inv(shape, SubmitNext(s, i, a))
  {
    var s1 := SubmitNext(s, i, a);
    SubmitCore(s, i, a);
    SubmitWrites(shape, s, i, a);
    SubmitLater(s, i, a);
    assert SubmitInv(s, i);
    if a.Join? { JoinHistory(s, i); } else { QuietHistory(s, s1); }
    forall d: Cid ensures CloserInv(s1, d) { assert CloserInv(s, d); }
    forall b: Bid ensures BatchInv(s1, b) { assert BatchInv(s, b); SubmitBatch(s, i, a, b); }
    forall j: Sid ensures SubmitInv(s1, j) {
      assert SubmitInv(s, j);
      if i == j {
        if i in s.submits && s.submits[i].ticket.Some? { assert BatchInv(s, s.submits[i].ticket.value.batch); }
        ActorSubmit(s, i, a);
      } else if j in s.submits {
        UntouchedSubmit(s, s1, j);
      }
    }
  }

  lemma QuietSubmits(s: State, s1: State)
    requires Core(s) && Later(s, s1) && s1.submits == s.submits && s1.joined == s.joined
    requires forall j: Sid :: SubmitInv(s, j)
    ensures forall j: Sid :: SubmitInv(s1, j)
  {
    forall j: Sid ensures SubmitInv(s1, j) {
      assert SubmitInv(s, j);
      if j in s.submits { UntouchedSubmit(s, s1, j); }
    }
  }

  lemma FlusherBatches(shape: Shape, s: State, a: FlusherStep)
    requires Core(s) && FlusherEnabled(s, a) && forall b: Bid :: BatchInv(s, b)
    ensures forall b: Bid :: BatchInv(FlusherNext(shape, s, a), b)
  {
    forall b: Bid ensures BatchInv(FlusherNext(shape, s, a), b) { assert BatchInv(s, b); FlusherBatch(shape, s, a, b); }
  }

  lemma FlusherClosers(shape: Shape, s: State, a: FlusherStep)
    requires FlusherEnabled(s, a) && forall d: Cid :: CloserInv(s, d)
    ensures forall d: Cid :: CloserInv(FlusherNext(shape, s, a), d)
  {
    forall d: Cid ensures CloserInv(FlusherNext(shape, s, a), d) { assert CloserInv(s, d); }
  }

  /** The flusher changes no submission and no arrival. */
  lemma FlusherHistory(shape: Shape, s: State, a: FlusherStep)
    requires Core(s) && FlusherEnabled(s, a) && HistoryInv(s)
    ensures HistoryInv(FlusherNext(shape, s, a))
  {
    QuietHistory(s, FlusherNext(shape, s, a));
  }

  lemma FlusherKeeps(shape: Shape, s: State, a: FlusherStep)
    requires Productive(shape) && Inv(shape, s) && FlusherEnabled(s, a)
    ensures Inv(shape, FlusherNext(shape, s, a))
  {
    var s1 := FlusherNext(shape, s, a);
    FlusherCore(shape, s, a);
    FlusherWrites(shape, s, a);
    FlusherLater(shape, s, a);
    FlusherHistory(shape, s, a);
    FlusherBatches(shape, s, a);
    FlusherClosers(shape, s, a);
    QuietSubmits(s, s1);
  }

  lemma CloserKeeps(shape: Shape, s: State, c: Cid, a: CloserStep)
    requires Productive(shape) && Inv(shape, s) && CloserEnabled(s, c, a)
    ensures Inv(shape, CloserNext(shape, s, c, a))
  {
    var s1 := CloserNext(shape, s, c, a);
    assert CloserInv(s, c);
    CloserCore(shape, s, c, a);
    CloserWrites(shape, s, c, a);
    CloserLater(shape, s, c, a);
    QuietHistory(s, s1);
    forall d: Cid ensures CloserInv(s1, d) { assert CloserInv(s, d); CloserCloser(shape, s, c, a, d); }
    forall b: Bid ensures BatchInv(s1, b) { assert BatchInv(s, b); CloserBatch(shape, s, c, a, b); }
    QuietSubmits(s, s1);
  }

  lemma StepKeeps(shape: Shape, s: State, a: Action)
    requires Productive(shape) && Inv(shape, s) && Enabled(s, a)
    ensures Inv(shape, Next(shape, s, a))
  {
    match a
    case OfSubmit(i, step) => SubmitKeeps(shape, s, i, step);
    case OfFlusher(step) => FlusherKeeps(shape, s, step);
    case OfCloser(c, step) => CloserKeeps(shape, s, c, step);
  }

  /** `actions` is a run of the batcher from `s`. */
  predicate Run(shape: Shape, s: State, actions: seq<Action>)
    decreases |actions|
  {
    actions == [] || (Enabled(s, actions[0]) && Run(shape, Next(shape, s, actions[0]), actions[1..]))
  }

  function After(shape: Shape, s: State, actions: seq<Action>): State
    requires Run(shape, s, actions)
    decreases |actions|
  {
    if actions == [] then s else After(shape, Next(shape, s, actions[0]), actions[1..])
  }

  lemma {:induction false} RunExtends(shape: Shape, s: State, actions: seq<Action>, a: Action)
    requires Run(shape, s, actions) && Enabled(After(shape, s, actions), a)
    ensures Run(shape, s, actions + [a])
    ensures After(shape, s, actions + [a]) == Next(shape, After(shape, s, actions), a)
    decreases |actions|
  {
    if actions != [] {
      assert (actions + [a])[1..] == actions[1..] + [a];
      RunExtends(shape, Next(shape, s, actions[0]), actions[1..], a);
    } else {
      assert actions + [a] == [a] && Run(shape, Next(shape, s, a), []);
    }
  }

  lemma {:induction false} RunKeeps(shape: Shape, s: State, actions: seq<Action>)
    requires Productive(shape) && Inv(shape, s) && Run(shape, s, actions)
    ensures Inv(shape, After(shape, s, actions))
    decreases |actions|
  {
    if actions != [] {
      StepKeeps(shape, s, actions[0]);
      RunKeeps(shape, Next(shape, s, actions[0]), actions[1..]);
    }
  }
}
