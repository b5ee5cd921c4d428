/** The fields of `GroupCommit` and the regions that change them, on batch objects
    shared by pointer between submitters, flusher and closers. Every method carries
    out actions of the protocol in `GroupCommit`. */
module GroupCommitBatcher {
  import opened Prelude
  import opened GroupCommit

  class GroupBatch {
    var arrivals: seq<Item>
    var err: Option<Answer>
    var done: bool   // the done channel is closed

    constructor (arrivals: seq<Item>, err: Option<Answer>, done: bool)
      ensures this.arrivals == arrivals && this.err == err && this.done == done
    {
      this.arrivals, this.err, this.done := arrivals, err, done;
    }

    /** Releases the waiters; a channel can be closed only once. */
    method CloseDone()
      requires !done
      modifies this`done
      ensures done
    {
      done := true;
    }
  }

  /** A run of the protocol from a new batcher, ending in `s`. */
  ghost predicate Traced(shape: Shape, trace: seq<Action>, s: State) {
    Productive(shape) && Run(shape, NEW_STATE, trace) && After(shape, NEW_STATE, trace) == s
  }

  /** What a region may rely on: the open batch is the newest, and batch `b` is not
      released before its turn. */
  lemma Facts(shape: Shape, trace: seq<Action>, s: State, b: Bid, c: Cid)
    requires Traced(shape, trace, s)
    ensures Core(s) && BatchInv(s, b) && CloserInv(s, c)
  {
    RunKeeps(shape, NEW_STATE, trace);
  }

  lemma AnswerFacts(shape: Shape, trace: seq<Action>, s: State, i: Sid)
    requires Traced(shape, trace, s) && i in s.submits && s.submits[i].pc.Waiting?
    ensures s.submits[i].ticket.Some? && s.submits[i].ticket.value.batch < |s.batches|
    ensures var b := s.submits[i].ticket.value.batch;
      0 < s.batches[b].closes ==> b < |s.writes| && s.batches[b].err == Some(s.writes[b].result)
  {
    RunKeeps(shape, NEW_STATE, trace);
    assert SubmitInv(s, i) && BatchInv(s, s.submits[i].ticket.value.batch);
  }

  class Batcher {
    ghost const shape: Shape
    var open: GroupBatch?
    var wake: bool
    var closed: bool
    ghost var s: State
    ghost var trace: seq<Action>
    ghost var objects: seq<GroupBatch>   // by batch number

    /** The object stands for batch `b` of the protocol state. */
    ghost predicate Stands(o: GroupBatch, b: Batch)
      reads o
    {
      && o.arrivals == b.arrivals && o.done == (0 < b.closes)
      && o.err == (if b.err.Some? then Some(Written(b.err.value)) else None)
    }

    ghost predicate Valid()
      reads this, objects
    {
      && Traced(shape, trace, s)
      && |objects| == |s.batches|
      && (forall b, c :: 0 <= b < c < |objects| ==> objects[b] != objects[c])
      && (forall b :: 0 <= b < |objects| ==> Stands(objects[b], s.batches[b]))
      && (if s.open.Some? then s.open.value < |objects| && open == objects[s.open.value] else open == null)
      && wake == s.wake && closed == s.closed
    }

    constructor (ghost shape: Shape)
      requires Productive(shape)
      ensures Valid() && Init(s) && this.shape == shape && objects == []
    {
      this.shape := shape;
      open, wake, closed := null, false, false;
      s, trace := NEW_STATE, [];
      objects := [];
    }

    /** One action of the protocol, on the ghost state alone. */
    ghost method Act(a: Action)
      requires Traced(shape, trace, s) && Enabled(s, a)
      modifies this`s, this`trace
      ensures Traced(shape, trace, s) && s == Next(shape, old(s), a)
    {
      RunExtends(shape, NEW_STATE, trace, a);
      trace := trace + [a];
      s := Next(shape, s, a);
    }

    /** `join`, called by submission `i`: the batch returned is the very object the
        flusher will take, or a completed one that carries the shutdown error. */
    method Join(ghost i: Sid, items: seq<Item>) returns (batch: GroupBatch)
      requires Valid() && SubmitEnabled(s, i, GroupCommit.Join) && s.submits[i].items == items
      modifies this, open
      ensures Valid() && s == SubmitNext(old(s), i, GroupCommit.Join)
      ensures old(closed) ==> fresh(batch) && batch.done && batch.err == Some(ErrClosed) && objects == old(objects)
      ensures !old(closed) ==>
                && wake && open == batch && s.submits[i].ticket.Some? && !batch.done
                && s.submits[i].ticket.value.batch < |objects| && batch == objects[s.submits[i].ticket.value.batch]
                && old(objects) <= objects
    {
      Facts(shape, trace, s, if s.open.Some? then s.open.value else 0, 0);
      Act(OfSubmit(i, GroupCommit.Join));
      if closed {
        batch := new GroupBatch([], Some(ErrClosed), true);
        return;
      }
      if open == null {
        open := new GroupBatch([], None, false);
        objects := objects + [open];
      }
      open.arrivals := open.arrivals + items;
      batch := open;
      wake := true;
    }

    /** The wait of `Submit` on the batch it joined, until that is done or the caller gives
        up: the result of the batch's own write, or the shutdown error. */
    method Await(ghost i: Sid, batch: GroupBatch, cancelled: bool) returns (a: Answer)
      requires Valid() && i in s.submits && (cancelled || batch.done)
      requires (s.submits[i].pc.Waiting? && Carries(i, batch)) || (s.submits[i].pc.Rejected? && batch.done && batch.err == Some(ErrClosed))
      modifies this`s, this`trace
      ensures Valid() && s == old(s).(submits := old(s.submits)[i := old(s.submits[i]).(pc := Returned(a))])
      ensures cancelled ==> a == Cancelled
      ensures !cancelled && old(s.submits[i]).pc.Rejected? ==> a == ErrClosed
      ensures !cancelled && old(s.submits[i]).pc.Waiting? ==>
                && s.submits[i].ticket.Some? && s.submits[i].ticket.value.batch < |s.writes|
                && a == Written(s.writes[s.submits[i].ticket.value.batch].result)
    {
      if s.submits[i].pc.Waiting? { AnswerFacts(shape, trace, s, i); }
      a := if cancelled then Cancelled else batch.err.value;
      Act(OfSubmit(i, if cancelled then Cancel else Answered));
    }

    ghost predicate Carries(i: Sid, batch: GroupBatch)
      reads this
    {
      && i in s.submits && s.submits[i].ticket.Some?
      && s.submits[i].ticket.value.batch < |objects| && batch == objects[s.submits[i].ticket.value.batch]
    }

    /** `take`: swap the open batch out. */
    method Take() returns (batch: GroupBatch?)
      requires Valid() && s.flusher.Taking?
      modifies this
      ensures Valid() && s == FlusherNext(shape, old(s), FlusherTake) && objects == old(objects)
      ensures batch == old(open) && open == null && wake == old(wake)
    {
      Act(OfFlusher(FlusherTake));
      batch := open;
      open := null;
    }

    /** `flush` of a batch taken out, whose write returned `r`: the error is set, then
        the waiters are released, once. */
    method Flush(batch: GroupBatch, r: Result)
      requires Valid() && FlusherEnabled(s, FlusherWrite(r)) && batch == objects[s.flusher.work.batch]
      modifies this`s, this`trace, batch
      ensures Valid() && objects == old(objects) && batch.done && batch.err == Some(Written(r)) && s.flusher.Select?
      ensures s == FlusherNext(shape, FlusherNext(shape, old(s), FlusherWrite(r)), FlusherSignal)
    {
      Facts(shape, trace, s, s.flusher.work.batch, 0);
      Act(OfFlusher(FlusherWrite(r)));
      batch.err := Some(Written(r));
      Act(OfFlusher(FlusherSignal));
      batch.CloseDone();
    }

    /** The region of `Close` after the flusher ended: no submission joins any more. */
    method CloseRegion(ghost c: Cid) returns (batch: GroupBatch?)
      requires Valid() && CloserEnabled(s, c, CloseTake)
      modifies this
      ensures Valid() && s == CloserNext(shape, old(s), c, CloseTake) && objects == old(objects)
      ensures closed && open == null && batch == old(open)
    {
      Act(OfCloser(c, CloseTake));
      closed := true;
      batch := open;
      open := null;
    }

    /** The final write of `Close`, which returned `r`. */
    method FinalFlush(ghost c: Cid, batch: GroupBatch, r: Result)
      requires Valid() && CloserEnabled(s, c, CloseWrite(r)) && batch == objects[s.closers[c].work.batch]
      modifies this`s, this`trace, batch
      ensures Valid() && objects == old(objects) && batch.done && batch.err == Some(Written(r))
      ensures c in s.closers && s.closers[c] == Closed(r)
    {
      Facts(shape, trace, s, s.closers[c].work.batch, c);
      Act(OfCloser(c, CloseWrite(r)));
      batch.err := Some(Written(r));
      Act(OfCloser(c, CloseSignal));
      batch.CloseDone();
    }
  }
}
