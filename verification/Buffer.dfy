/** The coalescing buffer: adders fill a pending set, one flusher writes it out, any
    number of `Close` calls flush the rest, and takers pull keys back out, waiting
    while a flush carries any of them. Each action is one region under the mutex,
    one channel operation or one write call. A flush may begin at any time, which
    covers both the ticker and the nudge of a full buffer. */
module Buffer {
  import opened Prelude

  type Key(==, !new)
  type Chan = nat
  type Tid = nat
  type Cid = nat

  /** Taken out, handed to the write function, and retired but not yet announced. */
  datatype Phase = Ready | Writing | Retired

  datatype Flush = Flush(keys: set<Key>, chan: Chan, phase: Phase)

  datatype Flusher = Idle | Busy(flush: Flush) | Stopped

  datatype Closer = Stopping | AwaitDone | Marked | Final(flush: Flush) | Finished

  datatype TakePc = Trying | WaitingOn(chan: Option<Chan>) | Took(keys: seq<Key>) | Cancelled

  datatype Taker = Taker(wanted: seq<Key>, pc: TakePc)

  /** `entered`, `taken` and `written` count, per key, entries into the pending set and
      departures by a `Take` result or a write call; `last` is the closer that
      flushed, and `created` the number of flush channels made. */
  datatype State = State(
    pending: set<Key>,
    flushing: Option<set<Key>>,
    flushDone: Option<Chan>,
    closed: bool,
    flusher: Flusher,
    closers: map<Cid, Closer>,
    takers: map<Tid, Taker>,
    stopped: bool,
    last: Option<Cid>,
    created: nat,
    announced: map<Chan, nat>,
    entered: multiset<Key>,
    taken: multiset<Key>,
    written: multiset<Key>,
    dropped: nat)

  datatype FlusherStep = FlusherStop | FlusherBegin | FlusherGo
  datatype CloserStep = CloseCalled | CloseStop | CloseMark | CloseBegin | CloseGo
  /** `Try` names the keys a successful round returns, in the order it returns them. */
  datatype TakerStep = TakeCalled(wanted: seq<Key>) | Try(got: seq<Key>) | Woken | Cancel

  datatype Action =
    | Add(keys: seq<Key>)
    | OfFlusher(flush: FlusherStep)
    | OfCloser(c: Cid, close: CloserStep)
    | OfTaker(t: Tid, take: TakerStep)

  // ---------------------------------------------------------------- semantics

  function Members(keys: seq<Key>): set<Key> { set k | k in keys }

  /** `takeLocked`: the requested keys that are pending, each once, in request order. */
  function TakeKeys(pending: set<Key>, wanted: seq<Key>): (r: seq<Key>)
    decreases |wanted|
  {
    if wanted == [] then []
    else if wanted[0] in pending then [wanted[0]] + TakeKeys(pending - {wanted[0]}, wanted[1..])
    else TakeKeys(pending, wanted[1..])
  }

  /** Sorting neither loses, adds nor repeats anything. */
  predicate Rearranges(got: seq<Key>, keys: seq<Key>) { multiset(got) == multiset(keys) }

  predicate FlushingAny(s: State, wanted: seq<Key>) {
    s.flushing.Some? && exists k :: k in wanted && k in s.flushing.value
  }

  function AddNext(s: State, keys: seq<Key>): State {
    if s.closed then s.(dropped := s.dropped + |keys|)
    else s.(pending := s.pending + Members(keys), entered := s.entered + multiset(Members(keys) - s.pending))
  }

  /** `takeForFlush` on a non-empty pending set. */
  function BeginFlush(s: State): State {
    s.(flushing := Some(s.pending), pending := {}, flushDone := Some(s.created), created := s.created + 1)
  }

  function NewFlush(s: State): Flush { Flush(s.pending, s.created, Ready) }

  function Count(m: map<Chan, nat>, c: Chan): nat { if c in m then m[c] else 0 }

  /** The write call, then `finishFlush`: retire the set, and announce it. */
  function FlushGo(s: State, f: Flush): State {
    match f.phase
    case Ready => s.(written := s.written + multiset(f.keys))
    case Writing => s.(flushing := None, flushDone := None)
    case Retired => s.(announced := s.announced[f.chan := Count(s.announced, f.chan) + 1])
  }

  function FlushThen(f: Flush): Flush
    requires !f.phase.Retired?
  {
    f.(phase := if f.phase.Ready? then Writing else Retired)
  }

  predicate Enabled(s: State, a: Action) {
    match a
    case Add(_) => true
    case OfFlusher(FlusherStop) => s.flusher.Idle? && s.stopped
    case OfFlusher(FlusherBegin) => s.flusher.Idle?
    case OfFlusher(FlusherGo) => s.flusher.Busy?
    case OfCloser(c, CloseCalled) => c !in s.closers
    case OfCloser(c, CloseStop) => c in s.closers && s.closers[c].Stopping?
    case OfCloser(c, CloseMark) => c in s.closers && s.closers[c].AwaitDone? && s.flusher.Stopped?
    case OfCloser(c, CloseBegin) => c in s.closers && s.closers[c].Marked?
    case OfCloser(c, CloseGo) => c in s.closers && s.closers[c].Final?
    case OfTaker(t, TakeCalled(_)) => t !in s.takers
    case OfTaker(t, Try(got)) =>
      && t in s.takers && s.takers[t].pc.Trying?
      && (FlushingAny(s, s.takers[t].wanted) || Rearranges(got, TakeKeys(s.pending, s.takers[t].wanted)))
    case OfTaker(t, Woken) => t in s.takers && s.takers[t].pc.WaitingOn? && s.takers[t].pc.chan.Some? &&
                              0 < Count(s.announced, s.takers[t].pc.chan.value)
    case OfTaker(t, Cancel) => t in s.takers && s.takers[t].pc.WaitingOn?
  }

  function FlusherNext(s: State, a: FlusherStep): State
    requires Enabled(s, OfFlusher(a))
  {
    match a
    case FlusherStop => s.(flusher := Stopped)
    case FlusherBegin => if s.pending == {} then s else BeginFlush(s).(flusher := Busy(NewFlush(s)))
    case FlusherGo =>
      var f := s.flusher.flush;
      FlushGo(s, f).(flusher := if f.phase.Retired? then Idle else Busy(FlushThen(f)))
  }

  function CloserNext(s: State, c: Cid, a: CloserStep): State
    requires Enabled(s, OfCloser(c, a))
  {
    match a
    case CloseCalled => s.(closers := s.closers[c := Stopping])
    case CloseStop => s.(closers := s.closers[c := AwaitDone], stopped := true)
    case CloseMark => s.(closers := s.closers[c := Marked], closed := true)
    case CloseBegin =>
      if s.pending == {} then s.(closers := s.closers[c := Finished])
      else BeginFlush(s).(closers := s.closers[c := Final(NewFlush(s))], last := Some(c))
    case CloseGo =>
      var f := s.closers[c].flush;
      FlushGo(s, f).(closers := s.closers[c := if f.phase.Retired? then Finished else Final(FlushThen(f))])
  }

  /** One round of `Take`: wait on the flush in flight, or take what is pending. */
  function TryNext(s: State, t: Tid, wanted: seq<Key>, got: seq<Key>): State {
    if FlushingAny(s, wanted) then s.(takers := s.takers[t := Taker(wanted, WaitingOn(s.flushDone))])
    else
      s.(takers := s.takers[t := Taker(wanted, Took(got))],
         pending := s.pending - Members(wanted),
         taken := s.taken + multiset(got))
  }

  function TakerNext(s: State, t: Tid, a: TakerStep): State
    requires Enabled(s, OfTaker(t, a))
  {
    match a
    case TakeCalled(wanted) => s.(takers := s.takers[t := Taker(wanted, if wanted == [] then Took([]) else Trying)])
    case Try(got) => TryNext(s, t, s.takers[t].wanted, got)
    case Woken => s.(takers := s.takers[t := s.takers[t].(pc := Trying)])
    case Cancel => s.(takers := s.takers[t := s.takers[t].(pc := Cancelled)])
  }

  function Next(s: State, a: Action): State
    requires Enabled(s, a)
  {
    match a
    case Add(keys) => AddNext(s, keys)
    case OfFlusher(step) => FlusherNext(s, step)
    case OfCloser(c, step) => CloserNext(s, c, step)
    case OfTaker(t, step) => TakerNext(s, t, step)
  }

  const NEW_STATE := State({}, None, None, false, Idle, map[], map[], false, None, 0, map[], multiset{}, multiset{}, multiset{}, 0)

  predicate Run(s: State, actions: seq<Action>)
    decreases |actions|
  {
    actions == [] || (Enabled(s, actions[0]) && Run(Next(s, actions[0]), actions[1..]))
  }

  function After(s: State, actions: seq<Action>): State
    requires Run(s, actions)
    decreases |actions|
  {
    if actions == [] then s else After(Next(s, actions[0]), actions[1..])
  }

  lemma {:induction false} RunExtends(s: State, actions: seq<Action>, a: Action)
    requires Run(s, actions) && Enabled(After(s, actions), a)
    ensures Run(s, actions + [a]) && After(s, actions + [a]) == Next(After(s, actions), a)
    decreases |actions|
  {
    if actions != [] {
      assert (actions + [a])[1..] == actions[1..] + [a];
      RunExtends(Next(s, actions[0]), actions[1..], a);
    } else {
      assert actions + [a] == [a] && Run(Next(s, a), []);
    }
  }

  // --------------------------------------------------------------- invariants

  /** The flush somebody is carrying out: the flusher, or the closer that flushed. */
  function Current(s: State): Option<Flush> {
    if s.flusher.Busy? then Some(s.flusher.flush)
    else if s.last.Some? && s.last.value in s.closers && s.closers[s.last.value].Final? then Some(s.closers[s.last.value].flush)
    else None
  }

  /** The published in-flight set and channel are those of the one current flush. */
  ghost predicate Core(s: State) {
    && (s.closed ==> s.flusher.Stopped?)
    && (s.last.Some? ==> s.closed && s.pending == {})
    && (match Current(s)
        case None => s.flushing.None? && s.flushDone.None?
        case Some(f) =>
          && (if f.phase.Retired? then s.flushing.None? && s.flushDone.None?
              else s.flushing == Some(f.keys) && s.flushDone == Some(f.chan))
          && f.keys != {} && f.chan < s.created && f.chan !in s.announced)
    && (forall c :: c in s.announced ==> c < s.created && s.announced[c] == 1)
  }

  ghost predicate CloserInv(s: State, c: Cid) {
    c in s.closers ==>
      && (s.closers[c].Final? ==> s.last == Some(c))
      && (s.closers[c].Marked? || s.closers[c].Final? || s.closers[c].Finished? ==> s.closed)
      && (s.closers[c].Final? || s.closers[c].Finished? ==> s.pending == {})
  }

  /** A taker waits on a channel that was announced, or that the current flush will. */
  ghost predicate TakerInv(s: State, t: Tid) {
    t in s.takers && s.takers[t].pc.WaitingOn? ==>
      && s.takers[t].pc.chan.Some?
      && var c := s.takers[t].pc.chan.value;
         c in s.announced || (Current(s).Some? && Current(s).value.chan == c)
  }

  /** Taken out by a flush, not yet handed to the write function. */
  function Unwritten(s: State): set<Key> {
    if Current(s).Some? && Current(s).value.phase.Ready? then Current(s).value.keys else {}
  }

  ghost predicate Balanced(s: State) {
    s.entered == s.taken + s.written + multiset(s.pending) + multiset(Unwritten(s))
  }

  ghost predicate Inv(s: State) {
    && Core(s) && Balanced(s)
    && (forall c: Cid :: CloserInv(s, c))
    && (forall t: Tid :: TakerInv(s, t))
  }

  /** What `takeLocked` returns: each requested pending key, exactly once. */
  lemma TakeKeysExact(pending: set<Key>, wanted: seq<Key>)
    ensures var r := TakeKeys(pending, wanted);
            && Members(r) == pending * Members(wanted)
            && (forall i, j :: 0 <= i < j < |r| ==> r[i] != r[j])
            && multiset(r) == multiset(pending * Members(wanted))
  {
    TakeKeysMembers(pending, wanted);
    DistinctCounts(TakeKeys(pending, wanted));
  }

  /** Without an order they come as asked for: one more request adds its key at the end,
      if that is pending and was not asked for before. */
  lemma {:induction false} TakeKeysOneMore(pending: set<Key>, wanted: seq<Key>, k: Key)
    ensures TakeKeys(pending, wanted + [k]) == TakeKeys(pending, wanted) + if k in pending && k !in wanted then [k] else []
    decreases |wanted|
  {
    if wanted == [] {
      assert wanted + [k] == [k] && [k][1..] == [];
    } else {
      var rest := if wanted[0] in pending then pending - {wanted[0]} else pending;
      assert wanted == [wanted[0]] + wanted[1..] && (wanted + [k])[1..] == wanted[1..] + [k];
      TakeKeysOneMore(rest, wanted[1..], k);
    }
  }

  /** Whatever order they come in. */
  lemma ArrangedExact(pending: set<Key>, wanted: seq<Key>, got: seq<Key>)
    requires Rearranges(got, TakeKeys(pending, wanted))
    ensures multiset(got) == multiset(pending * Members(wanted))
    ensures Members(got) == pending * Members(wanted)
    ensures forall i, j :: 0 <= i < j < |got| ==> got[i] != got[j]
  {
    TakeKeysExact(pending, wanted);
    forall k ensures k in Members(got) <==> k in pending * Members(wanted) {
      assert k in got <==> k in multiset(got);
    }
    forall i, j | 0 <= i < j < |got| ensures got[i] != got[j] {
      assert got == got[..j] + got[j..];
      assert got[i] in got[..j] && got[j] in got[j..];
      assert multiset(got)[got[j]] <= 1;
    }
  }

  lemma {:induction false} TakeKeysMembers(pending: set<Key>, wanted: seq<Key>)
    ensures var r := TakeKeys(pending, wanted);
            Members(r) == pending * Members(wanted) && forall i, j :: 0 <= i < j < |r| ==> r[i] != r[j]
    decreases |wanted|
  {
    if wanted != [] {
      var k, rest := wanted[0], if wanted[0] in pending then pending - {wanted[0]} else pending;
      assert wanted == [k] + wanted[1..];
      assert Members(wanted) == {k} + Members(wanted[1..]);
      TakeKeysMembers(rest, wanted[1..]);
      var r, tail := TakeKeys(pending, wanted), TakeKeys(rest, wanted[1..]);
      assert k !in Members(tail);
      assert r == if k in pending then [k] + tail else tail;
      assert Members(r) == if k in pending then {k} + Members(tail) else Members(tail);
    }
  }

  lemma {:induction false} DistinctCounts(r: seq<Key>)
    requires forall i, j :: 0 <= i < j < |r| ==> r[i] != r[j]
    ensures multiset(r) == multiset(Members(r))
  {
    if r != [] {
      assert r == [r[0]] + r[1..];
      DistinctCounts(r[1..]);
      assert Members(r) == {r[0]} + Members(r[1..]);
    }
  }

  // ---------------------------------------------------- every step keeps them

  lemma FlusherCore(s: State, a: FlusherStep)
    requires Core(s) && Enabled(s, OfFlusher(a))
    ensures Core(FlusherNext(s, a))
  {
  }

  lemma FinalFlushCore(s: State, c: Cid)
    requires Core(s) && CloserInv(s, c) && Enabled(s, OfCloser(c, CloseGo))
    ensures Core(CloserNext(s, c, CloseGo))
  {
  }

  lemma CloserCore(s: State, c: Cid, a: CloserStep)
    requires Core(s) && CloserInv(s, c) && Enabled(s, OfCloser(c, a))
    ensures Core(CloserNext(s, c, a))
  {
    if a.CloseGo? { FinalFlushCore(s, c); }
  }

  lemma FlusherBalanced(s: State, a: FlusherStep)
    requires Core(s) && Balanced(s) && Enabled(s, OfFlusher(a))
    ensures Balanced(FlusherNext(s, a))
  {
  }

  lemma CloserBalanced(s: State, c: Cid, a: CloserStep)
    requires Core(s) && CloserInv(s, c) && Balanced(s) && Enabled(s, OfCloser(c, a))
    ensures Balanced(CloserNext(s, c, a))
  {
  }

  lemma TakeBalances(s: State, wanted: seq<Key>, got: seq<Key>)
    requires Balanced(s) && Rearranges(got, TakeKeys(s.pending, wanted))
    ensures s.entered == s.taken + multiset(got) + s.written + multiset(s.pending - Members(wanted)) + multiset(Unwritten(s))
  {
    TakeKeysExact(s.pending, wanted);
    assert multiset(s.pending) == multiset(s.pending * Members(wanted)) + multiset(s.pending - Members(wanted));
  }

  lemma TakerBalanced(s: State, t: Tid, a: TakerStep)
    requires Balanced(s) && Enabled(s, OfTaker(t, a))
    ensures Balanced(TakerNext(s, t, a))
  {
    if a.Try? && !FlushingAny(s, s.takers[t].wanted) { TakeBalances(s, s.takers[t].wanted, a.got); }
  }

  lemma TakerCore(s: State, t: Tid, a: TakerStep)
    requires Core(s) && Enabled(s, OfTaker(t, a))
    ensures Core(TakerNext(s, t, a)) && Current(TakerNext(s, t, a)) == Current(s)
  {
  }

  lemma AddBalanced(s: State, keys: seq<Key>)
    requires Balanced(s)
    ensures Balanced(AddNext(s, keys))
  {
    var added := Members(keys) - s.pending;
    assert multiset(s.pending + Members(keys)) == multiset(s.pending) + multiset(added);
  }

  lemma FlusherTaker(s: State, a: FlusherStep, t: Tid)
    requires Core(s) && TakerInv(s, t) && Enabled(s, OfFlusher(a))
    ensures TakerInv(FlusherNext(s, a), t)
  {
  }

  lemma CloserTaker(s: State, c: Cid, a: CloserStep, t: Tid)
    requires Core(s) && CloserInv(s, c) && TakerInv(s, t) && Enabled(s, OfCloser(c, a))
    ensures TakerInv(CloserNext(s, c, a), t)
  {
  }

  lemma TakerTaker(s: State, t: Tid, a: TakerStep, u: Tid)
    requires Core(s) && TakerInv(s, u) && Enabled(s, OfTaker(t, a))
    ensures TakerInv(TakerNext(s, t, a), u)
  {
    TakerCore(s, t, a);
  }

  lemma FlusherKeeps(s: State, a: FlusherStep)
    requires Inv(s) && Enabled(s, OfFlusher(a))
    ensures Inv(FlusherNext(s, a))
  {
    var s1 := FlusherNext(s, a);
    FlusherCore(s, a);
    FlusherBalanced(s, a);
    forall c: Cid ensures CloserInv(s1, c) { assert CloserInv(s, c); }
    forall t: Tid ensures TakerInv(s1, t) { assert TakerInv(s, t); FlusherTaker(s, a, t); }
  }

  lemma CloserKeeps(s: State, c: Cid, a: CloserStep)
    requires Inv(s) && Enabled(s, OfCloser(c, a))
    ensures Inv(CloserNext(s, c, a))
  {
    var s1 := CloserNext(s, c, a);
    assert CloserInv(s, c);
    CloserCore(s, c, a);
    CloserBalanced(s, c, a);
    forall d: Cid ensures CloserInv(s1, d) { assert CloserInv(s, d); }
    forall t: Tid ensures TakerInv(s1, t) { assert TakerInv(s, t); CloserTaker(s, c, a, t); }
  }

  lemma TakerKeeps(s: State, t: Tid, a: TakerStep)
    requires Inv(s) && Enabled(s, OfTaker(t, a))
    ensures Inv(TakerNext(s, t, a))
  {
    var s1 := TakerNext(s, t, a);
    TakerCore(s, t, a);
    TakerBalanced(s, t, a);
    forall c: Cid ensures CloserInv(s1, c) { assert CloserInv(s, c); }
    forall u: Tid ensures TakerInv(s1, u) { assert TakerInv(s, u); TakerTaker(s, t, a, u); }
  }

  lemma AddKeeps(s: State, keys: seq<Key>)
    requires Inv(s)
    ensures Inv(AddNext(s, keys))
  {
    var s1 := AddNext(s, keys);
    AddBalanced(s, keys);
    forall c: Cid ensures CloserInv(s1, c) { assert CloserInv(s, c); }
    forall t: Tid ensures TakerInv(s1, t) { assert TakerInv(s, t); }
  }

  lemma StepKeeps(s: State, a: Action)
    requires Inv(s) && Enabled(s, a)
    ensures Inv(Next(s, a))
  {
    match a
    case Add(keys) => AddKeeps(s, keys);
    case OfFlusher(step) => FlusherKeeps(s, step);
    case OfCloser(c, step) => CloserKeeps(s, c, step);
    case OfTaker(t, step) => TakerKeeps(s, t, step);
  }

  lemma {:induction false} RunKeeps(s: State, actions: seq<Action>)
    requires Inv(s) && Run(s, actions)
    ensures Inv(After(s, actions))
    decreases |actions|
  {
    if actions != [] {
      StepKeeps(s, actions[0]);
      RunKeeps(Next(s, actions[0]), actions[1..]);
    }
  }
}
