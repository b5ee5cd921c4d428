/** What the buffer guarantees over whole runs, concurrent `Close` calls included. */
module BufferSafety {
  import opened Prelude
  import opened Buffer

  ghost predicate Reachable(z: State) {
    exists actions :: Run(NEW_STATE, actions) && After(NEW_STATE, actions) == z
  }

  lemma Reached(z: State)
    requires Reachable(z)
    ensures Inv(z)
  {
    var actions :| Run(NEW_STATE, actions) && After(NEW_STATE, actions) == z;
    RunKeeps(NEW_STATE, actions);
  }

  /** The published set changes only from nothing to a new flush, or back: no second
      flush ever overwrites one in flight. */
  lemma InFlightSetNeverOverwritten(z: State, a: Action)
    requires Reachable(z) && Enabled(z, a) && z.flushing.Some?
    ensures Next(z, a).flushing == z.flushing || Next(z, a).flushing.None?
    ensures Next(z, a).flushing.None? ==>
              z.flushDone.Some? && Current(z) == Some(Flush(z.flushing.value, z.flushDone.value, Writing))
  {
    Reached(z);
    if a.OfCloser? { assert CloserInv(z, a.c); }
  }

  /** Only one flush is ever under way, and only one call to the write function. */
  lemma OneFlushAtATime(z: State, c: Cid, d: Cid)
    requires Reachable(z) && c in z.closers && z.closers[c].Final?
    ensures !z.flusher.Busy? && (d in z.closers && z.closers[d].Final? ==> c == d)
  {
    Reached(z);
    assert CloserInv(z, c) && CloserInv(z, d);
  }

  /** Each entry of a key into the pending set is matched by exactly one departure, in
      a `Take` result or in a write call, unless it is still pending or about to be
      handed to the write function. */
  lemma EveryEntryLeavesOnce(z: State, k: Key)
    requires Reachable(z)
    ensures z.entered[k] == z.taken[k] + z.written[k] + (if k in z.pending then 1 else 0) + (if k in Unwritten(z) then 1 else 0)
    ensures k in Unwritten(z) ==> z.flushing.Some? && k in z.flushing.value
  {
    Reached(z);
  }

  /** A flush that was begun and not retired carries `k`. */
  ghost predicate Carries(s: State, k: Key) {
    Current(s).Some? && !Current(s).value.phase.Retired? && k in Current(s).value.keys
  }

  lemma NothingCarried(s: State, wanted: seq<Key>, k: Key)
    requires Core(s) && !FlushingAny(s, wanted) && k in wanted
    ensures !Carries(s, k)
  {
  }

  /** The instant `Take` succeeds, none of its keys is pending or in flight, and its
      result is the duplicate-free list of those that were pending. */
  lemma TakeIsExact(z: State, t: Tid, got: seq<Key>)
    requires Reachable(z) && Enabled(z, OfTaker(t, Try(got))) && !FlushingAny(z, z.takers[t].wanted)
    ensures var z1 := Next(z, OfTaker(t, Try(got))); var w := z.takers[t].wanted;
            && z1.takers[t].pc.Took?
            && (forall k :: k in w ==> k !in z1.pending && !Carries(z1, k))
            && (forall k :: k in z1.takers[t].pc.keys <==> k in w && k in z.pending)
            && (forall i, j :: 0 <= i < j < |z1.takers[t].pc.keys| ==> z1.takers[t].pc.keys[i] != z1.takers[t].pc.keys[j])
  {
    var z1 := Next(z, OfTaker(t, Try(got)));
    var w := z.takers[t].wanted;
    assert Core(z) by { Reached(z); }
    TakerCore(z, t, Try(got));
    forall k | k in w ensures k !in z1.pending && !Carries(z1, k) { NothingCarried(z, w, k); }
    ArrangedExact(z.pending, w, got);
    assert forall k :: k in got <==> k in Members(got);
  }

  /** What one action took out of pending on behalf of `t`, and what a whole run did. */
  function Removed(s: State, a: Action, t: Tid): multiset<Key>
    requires Enabled(s, a)
  {
    if a.OfTaker? && a.t == t then multiset(s.pending) - multiset(TakerNext(s, t, a.take).pending) else multiset{}
  }

  function RemovedBy(s: State, actions: seq<Action>, t: Tid): multiset<Key>
    requires Run(s, actions)
    decreases |actions|
  {
    if actions == [] then multiset{}
    else Removed(s, actions[0], t) + RemovedBy(Next(s, actions[0]), actions[1..], t)
  }

  /** What `t` was given, nothing while it has not succeeded. */
  function GivenTo(takers: map<Tid, Taker>, t: Tid): multiset<Key> {
    if t in takers && takers[t].pc.Took? then multiset(takers[t].pc.keys) else multiset{}
  }

  lemma Difference(p: set<Key>, w: set<Key>)
    ensures multiset(p * w) == multiset(p) - multiset(p - w)
  {
  }

  lemma OwnStep(s: State, t: Tid, a: TakerStep)
    requires Enabled(s, OfTaker(t, a))
    ensures GivenTo(TakerNext(s, t, a).takers, t) == GivenTo(s.takers, t) + Removed(s, OfTaker(t, a), t)
  {
    if a.Try? {
      TryRemoves(s, t, a.got);
    } else {
      assert TakerNext(s, t, a).pending == s.pending && GivenTo(s.takers, t) == multiset{};
    }
  }

  lemma TryRemoves(s: State, t: Tid, got: seq<Key>)
    requires Enabled(s, OfTaker(t, Try(got)))
    ensures var z := TryNext(s, t, s.takers[t].wanted, got);
      GivenTo(z.takers, t) == multiset(s.pending) - multiset(z.pending)
  {
    var w := s.takers[t].wanted;
    if !FlushingAny(s, w) {
      ArrangedExact(s.pending, w, got);
      Difference(s.pending, Members(w));
    }
  }

  lemma FlushLeavesTakers(s: State, f: Flush)
    ensures FlushGo(s, f).takers == s.takers
  {
  }

  lemma FlusherLeavesTakers(s: State, a: FlusherStep)
    requires Enabled(s, OfFlusher(a))
    ensures FlusherNext(s, a).takers == s.takers
  {
    match a
    case FlusherStop =>
    case FlusherBegin =>
    case FlusherGo => FlushLeavesTakers(s, s.flusher.flush);
  }

  lemma CloserLeavesTakers(s: State, c: Cid, a: CloserStep)
    requires Enabled(s, OfCloser(c, a))
    ensures CloserNext(s, c, a).takers == s.takers
  {
    match a
    case CloseGo => FlushLeavesTakers(s, s.closers[c].flush);
    case _ =>
  }

  lemma OtherTaker(s: State, u: Tid, a: TakerStep, t: Tid)
    requires Enabled(s, OfTaker(u, a)) && u != t
    ensures GivenTo(TakerNext(s, u, a).takers, t) == GivenTo(s.takers, t)
  {
    match a
    case Try(got) => OtherTry(s, u, got, t);
    case _ =>
  }

  lemma OtherTry(s: State, u: Tid, got: seq<Key>, t: Tid)
    requires u in s.takers && u != t
    ensures var z := TryNext(s, u, s.takers[u].wanted, got);
      (t in z.takers <==> t in s.takers) && (t in s.takers ==> z.takers[t] == s.takers[t])
  {
  }

  lemma GivenStep(s: State, a: Action, t: Tid)
    requires Enabled(s, a)
    ensures GivenTo(Next(s, a).takers, t) == GivenTo(s.takers, t) + Removed(s, a, t)
  {
    match a
    case Add(_) =>
    case OfFlusher(step) => FlusherLeavesTakers(s, step);
    case OfCloser(c, step) => CloserLeavesTakers(s, c, step);
    case OfTaker(u, step) => if u == t { OwnStep(s, t, step); } else { OtherTaker(s, u, step, t); }
  }

  /** Over any run, a `Take` removed exactly the keys it returned, each once; one that
      waits or gave up removed nothing. */
  lemma {:induction false} TakesWhatItReturns(s: State, actions: seq<Action>, t: Tid)
    requires Run(s, actions)
    ensures GivenTo(After(s, actions).takers, t) == GivenTo(s.takers, t) + RemovedBy(s, actions, t)
    decreases |actions|
  {
    if actions != [] {
      GivenStep(s, actions[0], t);
      TakesWhatItReturns(Next(s, actions[0]), actions[1..], t);
    }
  }

  lemma CancelledTakesNothing(s: State, actions: seq<Action>, t: Tid)
    requires Run(s, actions) && t in After(s, actions).takers && After(s, actions).takers[t].pc.Cancelled?
    ensures RemovedBy(s, actions, t) == multiset{}
  {
    TakesWhatItReturns(s, actions, t);
    assert forall k :: RemovedBy(s, actions, t)[k] == 0;
  }

  /** `k` is nowhere in the buffer. */
  ghost predicate Absent(s: State, k: Key) {
    k !in s.pending && !Carries(s, k)
  }

  predicate NeverAdds(actions: seq<Action>, k: Key) {
    forall a :: a in actions && a.Add? ==> k !in a.keys
  }

  lemma AbsentFlusher(s: State, a: FlusherStep, k: Key)
    requires Core(s) && Enabled(s, OfFlusher(a)) && Absent(s, k)
    ensures Absent(FlusherNext(s, a), k) && FlusherNext(s, a).written[k] == s.written[k]
  {
  }

  lemma AbsentCloser(s: State, c: Cid, a: CloserStep, k: Key)
    requires Core(s) && CloserInv(s, c) && Enabled(s, OfCloser(c, a)) && Absent(s, k)
    ensures Absent(CloserNext(s, c, a), k) && CloserNext(s, c, a).written[k] == s.written[k]
  {
  }

  lemma AbsentStep(s: State, a: Action, k: Key)
    requires Inv(s) && Enabled(s, a) && Absent(s, k) && (a.Add? ==> k !in a.keys)
    ensures Absent(Next(s, a), k) && Next(s, a).written[k] == s.written[k]
  {
    match a
    case Add(_) =>
    case OfFlusher(step) => AbsentFlusher(s, step, k);
    case OfCloser(c, step) => assert CloserInv(s, c); AbsentCloser(s, c, step, k);
    case OfTaker(t, step) => TakerCore(s, t, step);
  }

  /** A key that is nowhere in the buffer is not written until it is added. */
  lemma {:induction false} AbsentIsNotWritten(s: State, actions: seq<Action>, k: Key)
    requires Inv(s) && Run(s, actions) && Absent(s, k) && NeverAdds(actions, k)
    ensures Absent(After(s, actions), k) && After(s, actions).written[k] == s.written[k]
    decreases |actions|
  {
    if actions != [] {
      AbsentStep(s, actions[0], k);
      StepKeeps(s, actions[0]);
      AbsentIsNotWritten(Next(s, actions[0]), actions[1..], k);
    }
  }

  /** From the instant a `Take` succeeds, on any run, its keys are neither pending nor
      written again until somebody adds them. */
  lemma TakenKeysStayOut(z: State, t: Tid, got: seq<Key>, actions: seq<Action>, k: Key)
    requires Reachable(z) && Enabled(z, OfTaker(t, Try(got))) && !FlushingAny(z, z.takers[t].wanted)
    requires Run(Next(z, OfTaker(t, Try(got))), actions) && k in z.takers[t].wanted && NeverAdds(actions, k)
    ensures var y := After(Next(z, OfTaker(t, Try(got))), actions);
            k !in y.pending && !Carries(y, k) && y.written[k] == z.written[k]
  {
    TakeIsExact(z, t, got);
    Reached(z);
    StepKeeps(z, OfTaker(t, Try(got)));
    AbsentIsNotWritten(Next(z, OfTaker(t, Try(got))), actions, k);
  }

  /** While the buffer is open every key of an `Add` is pending right after it, and counts
      as an entry if it was not before; once closed each is only counted as dropped. */
  lemma AddedIsPending(z: State, keys: seq<Key>, k: Key)
    requires k in keys
    ensures Enabled(z, Add(keys))
    ensures var z1 := Next(z, Add(keys));
      if z.closed then z1 == z.(dropped := z.dropped + |keys|)
      else k in z1.pending && z1.entered[k] == z.entered[k] + (if k in z.pending then 0 else 1) && z1.dropped == z.dropped
  {
  }

  /** And whatever was pending before, or is not named, is as it was. */
  lemma AddLeavesTheRest(z: State, keys: seq<Key>, k: Key)
    requires k !in keys
    ensures var z1 := Next(z, Add(keys));
      (k in z1.pending <==> k in z.pending) && z1.entered[k] == z.entered[k]
  {
  }

  /** A `Take` of nothing returns nothing at once; any other goes round until none of its
      keys is in flight. */
  lemma TakeGoesRound(z: State, t: Tid, wanted: seq<Key>)
    requires t !in z.takers
    ensures Enabled(z, OfTaker(t, TakeCalled(wanted)))
    ensures var z1 := Next(z, OfTaker(t, TakeCalled(wanted)));
      && z1 == z.(takers := z.takers[t := Taker(wanted, z1.takers[t].pc)])
      && (if wanted == [] then z1.takers[t].pc == Took([]) else z1.takers[t].pc.Trying?)
  {
  }

  lemma RoundIsOpen(z: State, t: Tid)
    requires Reachable(z) && t in z.takers && z.takers[t].pc.Trying?
    ensures var wanted := z.takers[t].wanted;
      if exists k :: k in wanted && z.flushing.Some? && k in z.flushing.value
      then forall got :: Enabled(z, OfTaker(t, Try(got))) && Next(z, OfTaker(t, Try(got))) == z.(takers := z.takers[t := Taker(wanted, WaitingOn(z.flushDone))])
      else
        exists got :: Enabled(z, OfTaker(t, Try(got))) && Next(z, OfTaker(t, Try(got))).takers[t] == Taker(wanted, Took(got))
  {
    var wanted := z.takers[t].wanted;
    if !(exists k :: k in wanted && z.flushing.Some? && k in z.flushing.value) {
      var got := TakeKeys(z.pending, wanted);
      assert Enabled(z, OfTaker(t, Try(got)));
    }
  }

  /** A waiting `Take` can give up at any time, which takes nothing; woken, it tries again. */
  lemma WaitEnds(z: State, t: Tid)
    requires t in z.takers && z.takers[t].pc.WaitingOn?
    ensures Enabled(z, OfTaker(t, Cancel))
    ensures Next(z, OfTaker(t, Cancel)) == z.(takers := z.takers[t := Taker(z.takers[t].wanted, Cancelled)])
    ensures Enabled(z, OfTaker(t, Woken)) ==>
              Next(z, OfTaker(t, Woken)) == z.(takers := z.takers[t := Taker(z.takers[t].wanted, Trying)])
  {
  }

  /** A waiting taker waits on a real channel, announced at most once, that either was
      announced or belongs to the flush under way. */
  lemma TakerIsNeverStuck(z: State, t: Tid)
    requires Reachable(z) && t in z.takers && z.takers[t].pc.WaitingOn?
    ensures z.takers[t].pc.chan.Some?
    ensures var c := z.takers[t].pc.chan.value;
            && Count(z.announced, c) <= 1
            && (Enabled(z, OfTaker(t, Woken)) || (Current(z).Some? && Current(z).value.chan == c))
  {
    Reached(z);
    assert TakerInv(z, t);
  }

  /** Whatever happened so far, whoever is flushing can finish, and so wake the taker. */
  lemma TakerCanBeWoken(z: State, t: Tid) returns (actions: seq<Action>)
    requires Reachable(z) && t in z.takers && z.takers[t].pc.WaitingOn?
    ensures Run(z, actions) && forall a :: a in actions ==> a.OfFlusher? || a.OfCloser?
    ensures After(z, actions).takers == z.takers && Enabled(After(z, actions), OfTaker(t, Woken))
  {
    Reached(z);
    actions := FinishFlush(z, t);
  }

  lemma FlushStep(s: State) returns (a: Action)
    requires Inv(s) && Current(s).Some?
    ensures Enabled(s, a) && (a.OfFlusher? || a.OfCloser?) && Next(s, a).takers == s.takers
    ensures Current(s).value.phase.Retired? ==> Count(Next(s, a).announced, Current(s).value.chan) > 0
    ensures !Current(s).value.phase.Retired? ==> Current(Next(s, a)) == Some(FlushThen(Current(s).value))
  {
    if s.flusher.Busy? {
      a := OfFlusher(FlusherGo);
    } else {
      a := OfCloser(s.last.value, CloseGo);
    }
  }

  lemma FinishFlush(s: State, t: Tid) returns (actions: seq<Action>)
    requires Inv(s) && t in s.takers && s.takers[t].pc.WaitingOn?
    ensures Run(s, actions) && forall a :: a in actions ==> a.OfFlusher? || a.OfCloser?
    ensures After(s, actions).takers == s.takers && Enabled(After(s, actions), OfTaker(t, Woken))
    decreases match Current(s) case None => 0 case Some(f) => if f.phase.Ready? then 3 else if f.phase.Writing? then 2 else 1
  {
    assert TakerInv(s, t);
    actions := [];
    if !Enabled(s, OfTaker(t, Woken)) {
      var a := FlushStep(s);
      StepKeeps(s, a);
      var s1 := Next(s, a);
      actions := [a];
      assert Run(s1, []) && After(s, [a]) == After(s1, []);
      if !Enabled(s1, OfTaker(t, Woken)) {
        var more := FinishFlush(s1, t);
        actions := [a] + more;
        assert actions[1..] == more;
      }
    }
  }

  /** Once any `Close` has returned nothing is pending, and nothing ever is again. */
  lemma CloseEmpties(z: State, c: Cid)
    requires Reachable(z) && c in z.closers && z.closers[c].Finished?
    ensures z.closed && z.pending == {}
    // Every entry has left, taken or written, but for those a slower flush is yet to write.
    ensures z.entered == z.taken + z.written + multiset(Unwritten(z))
    ensures z.entered == z.taken + z.written <==> Unwritten(z) == {}
  {
    Reached(z);
    assert CloserInv(z, c);
    AddsNothing(z.taken + z.written, Unwritten(z));
  }

  lemma AddsNothing(m: multiset<Key>, keys: set<Key>)
    ensures m == m + multiset(keys) <==> keys == {}
  {
    if keys != {} {
      var k :| k in keys;
      assert (m + multiset(keys))[k] == m[k] + 1;
    }
  }

  lemma Grow(actions: seq<Action>, s: State, a: Action, z: State) returns (more: seq<Action>)
    requires Run(NEW_STATE, actions) && After(NEW_STATE, actions) == s && Enabled(s, a) && Next(s, a) == z
    ensures Run(NEW_STATE, more) && After(NEW_STATE, more) == z
  {
    RunExtends(NEW_STATE, actions, a);
    more := actions + [a];
  }

  /** Two `Close` calls on a buffer with one key. */
  function TwoClosers(k: Key, first: Closer, second: Closer, gone: bool): State {
    NEW_STATE.(pending := {k}, entered := multiset{k}, closers := map[0 := first, 1 := second],
               flusher := if gone then Stopped else Idle, stopped := !first.Stopping?, closed := first.Marked?)
  }

  lemma BothCalled(k: Key) returns (actions: seq<Action>)
    ensures Run(NEW_STATE, actions) && After(NEW_STATE, actions) == TwoClosers(k, Stopping, Stopping, false)
  {
    var one := NEW_STATE.(pending := {k}, entered := multiset{k});
    AddsOne(k);
    actions := Grow([], NEW_STATE, Add([k]), one);
    actions := Grow(actions, one, OfCloser(0, CloseCalled), one.(closers := map[0 := Stopping]));
    actions := Grow(actions, one.(closers := map[0 := Stopping]), OfCloser(1, CloseCalled), TwoClosers(k, Stopping, Stopping, false));
  }

  lemma AddsOne(k: Key)
    ensures AddNext(NEW_STATE, [k]) == NEW_STATE.(pending := {k}, entered := multiset{k})
  {
    assert Members([k]) == {k};
  }

  lemma BothStop(k: Key, actions: seq<Action>) returns (more: seq<Action>)
    requires Run(NEW_STATE, actions) && After(NEW_STATE, actions) == TwoClosers(k, Stopping, Stopping, false)
    ensures Run(NEW_STATE, more) && After(NEW_STATE, more) == TwoClosers(k, AwaitDone, AwaitDone, true)
  {
    var s := TwoClosers(k, AwaitDone, Stopping, false);
    more := Grow(actions, TwoClosers(k, Stopping, Stopping, false), OfCloser(0, CloseStop), s);
    more := Grow(more, s, OfCloser(1, CloseStop), TwoClosers(k, AwaitDone, AwaitDone, false));
    more := Grow(more, TwoClosers(k, AwaitDone, AwaitDone, false), OfFlusher(FlusherStop), TwoClosers(k, AwaitDone, AwaitDone, true));
  }

  lemma BothMark(k: Key, actions: seq<Action>) returns (more: seq<Action>)
    requires Run(NEW_STATE, actions) && After(NEW_STATE, actions) == TwoClosers(k, AwaitDone, AwaitDone, true)
    ensures Run(NEW_STATE, more) && After(NEW_STATE, more) == TwoClosers(k, Marked, Marked, true)
  {
    var s := TwoClosers(k, Marked, AwaitDone, true);
    more := Grow(actions, TwoClosers(k, AwaitDone, AwaitDone, true), OfCloser(0, CloseMark), s);
    more := Grow(more, s, OfCloser(1, CloseMark), TwoClosers(k, Marked, Marked, true));
  }

  /** The first closer has the key in hand, and nothing is left for the second. */
  function FirstFlushes(k: Key, second: Closer): State {
    var s := TwoClosers(k, Marked, Marked, true);
    BeginFlush(s).(closers := map[0 := Final(NewFlush(s)), 1 := second], last := Some(0))
  }

  lemma FirstBegins(k: Key, actions: seq<Action>) returns (more: seq<Action>)
    requires Run(NEW_STATE, actions) && After(NEW_STATE, actions) == TwoClosers(k, Marked, Marked, true)
    ensures Run(NEW_STATE, more) && After(NEW_STATE, more) == FirstFlushes(k, Marked)
  {
    more := Grow(actions, TwoClosers(k, Marked, Marked, true), OfCloser(0, CloseBegin), FirstFlushes(k, Marked));
  }

  lemma SecondEnds(k: Key, actions: seq<Action>) returns (more: seq<Action>)
    requires Run(NEW_STATE, actions) && After(NEW_STATE, actions) == FirstFlushes(k, Marked)
    ensures Run(NEW_STATE, more) && After(NEW_STATE, more) == FirstFlushes(k, Finished)
  {
    more := Grow(actions, FirstFlushes(k, Marked), OfCloser(1, CloseBegin), FirstFlushes(k, Finished));
  }

  /** One `Close` has returned and the other has the last keys still to write. */
  ghost predicate ReturnedEarly(z: State, k: Key) {
    && z.closers.Keys == {0, 1} && z.closers[0].Final? && z.closers[1].Finished?
    && Unwritten(z) == {k} && z.entered != z.taken + z.written
  }

  lemma NotYetWritten(k: Key)
    ensures ReturnedEarly(FirstFlushes(k, Finished), k)
  {
    assert FirstFlushes(k, Finished).entered[k] == 1;
  }

  /** A second `Close` can return before the first has written anything. */
  lemma SecondCloseReturnsFirst(k: Key) returns (actions: seq<Action>)
    ensures Run(NEW_STATE, actions) && ReturnedEarly(After(NEW_STATE, actions), k)
  {
    actions := BothCalled(k);
    actions := BothStop(k, actions);
    actions := BothMark(k, actions);
    actions := FirstBegins(k, actions);
    actions := SecondEnds(k, actions);
    NotYetWritten(k);
  }

  lemma EmptyCloser(s: State, c: Cid, a: CloserStep)
    requires Enabled(s, OfCloser(c, a)) && s.closed && s.pending == {}
    ensures var z := CloserNext(s, c, a); z.closed && z.pending == {} && z.entered == s.entered
  {
  }

  lemma EmptyFlusher(s: State, a: FlusherStep)
    requires Enabled(s, OfFlusher(a)) && s.closed && s.pending == {}
    ensures var z := FlusherNext(s, a); z.closed && z.pending == {} && z.entered == s.entered
  {
  }

  lemma EmptyStep(s: State, a: Action)
    requires Enabled(s, a) && s.closed && s.pending == {}
    ensures Next(s, a).closed && Next(s, a).pending == {} && Next(s, a).entered == s.entered
  {
    match a
    case OfCloser(c, step) => EmptyCloser(s, c, step);
    case OfFlusher(step) => EmptyFlusher(s, step);
    case _ =>
  }

  lemma {:induction false} StaysEmpty(s: State, actions: seq<Action>)
    requires Run(s, actions) && s.closed && s.pending == {}
    ensures After(s, actions).closed && After(s, actions).pending == {} && After(s, actions).entered == s.entered
    decreases |actions|
  {
    if actions != [] {
      EmptyStep(s, actions[0]);
      StaysEmpty(Next(s, actions[0]), actions[1..]);
    }
  }
}
