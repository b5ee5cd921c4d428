/** The worker pool: consumers hand messages to a fixed set of workers over an
    unbuffered channel, and shutdown retires the workers only after the consumer
    returned. A consumer may call `submit` at any time, even after it returned. */
module Pool {
  import opened Prelude

  type Sid = nat   // one call of submit, and the message it carries
  type Wid = nat

  datatype Outcome = Processed | DeadLettered | DeadLetterFailed | Dropped

  datatype Submit = Offering | Accepted(worker: Wid, outcome: Option<Outcome>) | Rejected

  /** `attempts` and whether the last of them succeeded. */
  datatype Worker = Idle | Holding(message: Sid, attempts: nat, ok: bool) | Exited

  /** Where `Run` is: waiting for stop, for the consumer, for the workers, done closed. */
  datatype RunPc = Serving | AwaitConsumer | AwaitWorkers | Finished

  /** `ended` counts, per message, how often a worker brought it to an end. */
  datatype State = State(
    submits: map<Sid, Submit>,
    workers: seq<Worker>,
    stop: bool,
    consumed: bool,
    run: RunPc,
    ended: multiset<Sid>)

  datatype Config = Config(concurrency: nat, deadLetters: bool)

  datatype Action =
    | Offer(i: Sid)
    | HandOff(i: Sid, w: Wid)
    | Reject(i: Sid)
    | Attempt(w: Wid, succeeded: bool)
    | Conclude(w: Wid, delivered: bool)
    | Exit(w: Wid)
    | Close
    | ConsumerReturns
    | RunStep

  predicate NoMoreWork(s: State) { s.run.AwaitWorkers? || s.run.Finished? }

  predicate Enabled(s: State, a: Action) {
    match a
    case Offer(i) => i !in s.submits
    case HandOff(i, w) => i in s.submits && s.submits[i].Offering? && w < |s.workers| && s.workers[w].Idle?
    case Reject(i) => i in s.submits && s.submits[i].Offering? && s.stop
    case Attempt(w, _) => w < |s.workers| && s.workers[w].Holding? && !s.workers[w].ok
    case Conclude(w, _) => w < |s.workers| && s.workers[w].Holding?
    case Exit(w) => w < |s.workers| && s.workers[w].Idle? && NoMoreWork(s)
    case Close => true
    case ConsumerReturns => true
    case RunStep =>
      match s.run
      case Serving => s.stop
      case AwaitConsumer => s.consumed
      case AwaitWorkers => forall w :: 0 <= w < |s.workers| ==> s.workers[w].Exited?
      case Finished => false
  }

  /** `process` and `retire`: how a message that is not retried again ends. */
  function OutcomeOf(cfg: Config, ok: bool, delivered: bool): Outcome {
    if ok then Processed else if !cfg.deadLetters then Dropped else if delivered then DeadLettered else DeadLetterFailed
  }

  function Next(cfg: Config, s: State, a: Action): State
    requires Enabled(s, a)
  {
    match a
    case Offer(i) => s.(submits := s.submits[i := Offering])
    case HandOff(i, w) => s.(submits := s.submits[i := Accepted(w, None)], workers := s.workers[w := Holding(i, 0, false)])
    case Reject(i) => s.(submits := s.submits[i := Rejected])
    case Attempt(w, ok) =>
      s.(workers := s.workers[w := Holding(s.workers[w].message, s.workers[w].attempts + 1, ok)])
    case Conclude(w, delivered) =>
      var i := s.workers[w].message;
      s.(workers := s.workers[w := Idle],
         submits := s.submits[i := Accepted(w, Some(OutcomeOf(cfg, s.workers[w].ok, delivered)))],
         ended := s.ended + multiset{i})
    case Exit(w) => s.(workers := s.workers[w := Exited])
    case Close => s.(stop := true)
    case ConsumerReturns => s.(consumed := true)
    case RunStep => s.(run := if s.run.Serving? then AwaitConsumer else if s.run.AwaitConsumer? then AwaitWorkers else Finished)
  }

  function NewState(cfg: Config): State {
    State(map[], seq(cfg.concurrency, _ => Idle), false, false, Serving, multiset{})
  }

  predicate Run(cfg: Config, s: State, actions: seq<Action>)
    decreases |actions|
  {
    actions == [] || (Enabled(s, actions[0]) && Run(cfg, Next(cfg, s, actions[0]), actions[1..]))
  }

  function After(cfg: Config, s: State, actions: seq<Action>): State
    requires Run(cfg, s, actions)
    decreases |actions|
  {
    if actions == [] then s else After(cfg, Next(cfg, s, actions[0]), actions[1..])
  }

  lemma {:induction false} RunExtends(cfg: Config, s: State, actions: seq<Action>, a: Action)
    requires Run(cfg, s, actions) && Enabled(After(cfg, s, actions), a)
    ensures Run(cfg, s, actions + [a]) && After(cfg, s, actions + [a]) == Next(cfg, After(cfg, s, actions), a)
    decreases |actions|
  {
    if actions != [] {
      RunExtends(cfg, Next(cfg, s, actions[0]), actions[1..], a);
      assert (actions + [a])[1..] == actions[1..] + [a];
    } else {
      assert actions + [a] == [a] && Run(cfg, Next(cfg, s, a), []);
    }
  }

  // --------------------------------------------------------------- invariants

  ghost predicate SubmitInv(cfg: Config, s: State, i: Sid) {
    && s.ended[i] == (if i in s.submits && s.submits[i].Accepted? && s.submits[i].outcome.Some? then 1 else 0)
    && (i in s.submits && s.submits[i].Accepted? && s.submits[i].outcome.None? ==>
          var w := s.submits[i].worker;
          w < |s.workers| && s.workers[w].Holding? && s.workers[w].message == i)
    && (i in s.submits && s.submits[i].Accepted? && s.submits[i].outcome.Some? ==>
          (s.submits[i].outcome.value.Dropped? ==> !cfg.deadLetters) &&
          (s.submits[i].outcome.value.DeadLettered? || s.submits[i].outcome.value.DeadLetterFailed? ==> cfg.deadLetters))
    && (i in s.submits && s.submits[i].Rejected? ==> s.stop)
  }

  ghost predicate WorkerInv(s: State, w: Wid) {
    && (w < |s.workers| && s.workers[w].Holding? ==>
          s.workers[w].message in s.submits && s.submits[s.workers[w].message] == Accepted(w, None))
    && (w < |s.workers| && s.workers[w].Exited? ==> NoMoreWork(s))
  }

  ghost predicate Inv(cfg: Config, s: State) {
    && |s.workers| == cfg.concurrency
    && (s.run.Finished? ==> forall w :: 0 <= w < |s.workers| ==> s.workers[w].Exited?)
    && (!s.run.Serving? ==> s.stop)
    && (NoMoreWork(s) ==> s.consumed)
    && (forall i: Sid :: SubmitInv(cfg, s, i))
    && (forall w: Wid :: WorkerInv(s, w))
  }

  lemma StepSubmit(cfg: Config, s: State, a: Action, i: Sid)
    requires Enabled(s, a) && SubmitInv(cfg, s, i)
    requires a.Conclude? || a.Attempt? ==> WorkerInv(s, a.w) && SubmitInv(cfg, s, s.workers[a.w].message)
    ensures SubmitInv(cfg, Next(cfg, s, a), i)
  {
  }

  lemma StepWorker(cfg: Config, s: State, a: Action, v: Wid)
    requires Enabled(s, a) && WorkerInv(s, v)
    requires a.Conclude? || a.Attempt? ==> WorkerInv(s, a.w)
    ensures WorkerInv(Next(cfg, s, a), v)
  {
  }

  lemma StepKeeps(cfg: Config, s: State, a: Action)
    requires Inv(cfg, s) && Enabled(s, a)
    ensures Inv(cfg, Next(cfg, s, a))
  {
    var s1 := Next(cfg, s, a);
    if a.Conclude? || a.Attempt? { assert WorkerInv(s, a.w) && SubmitInv(cfg, s, s.workers[a.w].message); }
    forall i: Sid ensures SubmitInv(cfg, s1, i) { assert SubmitInv(cfg, s, i); StepSubmit(cfg, s, a, i); }
    forall w: Wid ensures WorkerInv(s1, w) { assert WorkerInv(s, w); StepWorker(cfg, s, a, w); }
  }

  lemma {:induction false} RunKeeps(cfg: Config, s: State, actions: seq<Action>)
    requires Inv(cfg, s) && Run(cfg, s, actions)
    ensures Inv(cfg, After(cfg, s, actions))
    decreases |actions|
  {
    if actions != [] {
      StepKeeps(cfg, s, actions[0]);
      RunKeeps(cfg, Next(cfg, s, actions[0]), actions[1..]);
    }
  }

  // ----------------------------------------------------------------- theorems

  ghost predicate Reachable(cfg: Config, z: State) {
    exists actions :: Run(cfg, NewState(cfg), actions) && After(cfg, NewState(cfg), actions) == z
  }

  lemma Reached(cfg: Config, z: State)
    requires Reachable(cfg, z)
    ensures Inv(cfg, z)
  {
    var actions :| Run(cfg, NewState(cfg), actions) && After(cfg, NewState(cfg), actions) == z;
    RunKeeps(cfg, NewState(cfg), actions);
  }

  /** A `submit` can always be made, can be taken by any idle worker, and can be refused
      exactly once the pool was told to stop; each changes nothing else. */
  lemma SubmitIsOpen(cfg: Config, s: State, i: Sid, w: Wid)
    ensures i !in s.submits ==>
              Enabled(s, Offer(i)) && Next(cfg, s, Offer(i)) == s.(submits := s.submits[i := Offering])
    ensures i in s.submits && s.submits[i].Offering? ==>
      && (Enabled(s, Reject(i)) <==> s.stop)
      && (s.stop ==> Next(cfg, s, Reject(i)) == s.(submits := s.submits[i := Rejected]))
      && (w < |s.workers| ==> (Enabled(s, HandOff(i, w)) <==> s.workers[w].Idle?))
      && (w < |s.workers| && s.workers[w].Idle? ==>
            Next(cfg, s, HandOff(i, w)) == s.(submits := s.submits[i := Accepted(w, None)], workers := s.workers[w := Holding(i, 0, false)]))
    ensures i in s.submits && !s.submits[i].Offering? ==> !Enabled(s, Reject(i)) && !Enabled(s, HandOff(i, w)) && !Enabled(s, Offer(i))
  {
  }

  /** A new pool has its workers idle and nothing submitted, and serves. */
  lemma NewPoolServes(cfg: Config)
    ensures var s := NewState(cfg);
      && |s.workers| == cfg.concurrency && (forall w :: 0 <= w < |s.workers| ==> s.workers[w].Idle?)
      && s.submits == map[] && !s.stop && !s.consumed && s.run.Serving? && s.ended == multiset{}
  {
  }

  /** A worker tries the message it holds until one attempt succeeds; whenever it stops
      trying, the message ends processed if the last did, and otherwise as the dead-letter
      configuration and its result say. */
  lemma WorkerSteps(cfg: Config, s: State, w: Wid, b: bool)
    requires w < |s.workers|
    ensures Enabled(s, Attempt(w, b)) <==> s.workers[w].Holding? && !s.workers[w].ok
    ensures Enabled(s, Conclude(w, b)) <==> s.workers[w].Holding?
    ensures Enabled(s, Exit(w)) <==> s.workers[w].Idle? && NoMoreWork(s)
    ensures Enabled(s, Attempt(w, b)) ==>
              var h := s.workers[w];
              Next(cfg, s, Attempt(w, b)) == s.(workers := s.workers[w := Holding(h.message, h.attempts + 1, b)])
    ensures Enabled(s, Conclude(w, b)) ==>
              var z, i, ok := Next(cfg, s, Conclude(w, b)), s.workers[w].message, s.workers[w].ok;
              && z.workers == s.workers[w := Idle] && z.ended == s.ended + multiset{i} && z.submits - {i} == s.submits - {i}
              && i in z.submits && z.submits[i].Accepted? && z.submits[i].outcome.Some?
              && (z.submits[i].outcome.value.Processed? <==> ok)
              && (z.submits[i].outcome.value.Dropped? <==> !ok && !cfg.deadLetters)
              && (z.submits[i].outcome.value.DeadLettered? <==> !ok && cfg.deadLetters && b)
  {
  }

  /** `Run` waits for stop, then for the consumer, then for the workers, and the workers
      stay until the consumer has returned; it may return at any time. */
  lemma ShutdownOrder(cfg: Config, z: State, w: Wid)
    requires Reachable(cfg, z)
    ensures z.run.AwaitConsumer? || z.run.AwaitWorkers? || z.run.Finished? ==> z.stop
    ensures z.run.AwaitWorkers? || z.run.Finished? ==> z.consumed
    ensures w < |z.workers| && z.workers[w].Exited? ==> z.stop && z.consumed
    ensures z.run.Finished? ==> (w < |z.workers| ==> z.workers[w].Exited?) && !Enabled(z, RunStep)
    ensures Enabled(z, Close) && Enabled(z, ConsumerReturns)
    ensures Next(cfg, z, Close) == z.(stop := true) && Next(cfg, z, ConsumerReturns) == z.(consumed := true)
  {
    Reached(cfg, z);
    assert WorkerInv(z, w);
  }

  /** When `done` closes, every message whose `submit` returned nil was brought to
      exactly one end; a refused one to none, and only after stop. */
  lemma DrainIsComplete(cfg: Config, z: State, i: Sid)
    requires Reachable(cfg, z) && i in z.submits
    ensures z.submits[i].Accepted? ==> z.ended[i] == (if z.submits[i].outcome.Some? then 1 else 0)
    ensures z.submits[i].Accepted? && z.run.Finished? ==> z.submits[i].outcome.Some? && z.ended[i] == 1
    ensures z.submits[i].Rejected? ==> z.stop && z.ended[i] == 0
    ensures z.submits[i].Accepted? && z.submits[i].outcome.Some? ==>
              (z.submits[i].outcome.value.Dropped? ==> !cfg.deadLetters) &&
              (z.submits[i].outcome.value.DeadLettered? || z.submits[i].outcome.value.DeadLetterFailed? ==> cfg.deadLetters)
  {
    Reached(cfg, z);
    assert SubmitInv(cfg, z, i);
  }

  /** Once `done` is closed no late message is accepted, and no end is revised. */
  lemma {:induction false} NothingAfterDone(cfg: Config, s: State, actions: seq<Action>, i: Sid)
    requires Inv(cfg, s) && Run(cfg, s, actions) && s.run.Finished?
    ensures After(cfg, s, actions).run.Finished? && After(cfg, s, actions).ended == s.ended
    ensures i in After(cfg, s, actions).submits && After(cfg, s, actions).submits[i].Accepted? ==>
              i in s.submits && s.submits[i] == After(cfg, s, actions).submits[i]
    decreases |actions|
  {
    if actions != [] {
      StepKeeps(cfg, s, actions[0]);
      NothingAfterDone(cfg, Next(cfg, s, actions[0]), actions[1..], i);
    }
  }

  /** The messages held by some worker. */
  function Held(workers: seq<Worker>): set<Sid> {
    if workers == [] then {}
    else
      var n := |workers| - 1;
      Held(workers[..n]) + (if workers[n].Holding? then {workers[n].message} else {})
  }

  lemma {:induction false} HeldIsBounded(workers: seq<Worker>, w: Wid)
    ensures |Held(workers)| <= |workers|
    ensures w < |workers| && workers[w].Holding? ==> workers[w].message in Held(workers)
    decreases |workers|
  {
    if workers != [] { HeldIsBounded(workers[..|workers| - 1], w); }
  }

  /** At most `concurrency` accepted messages are unfinished at once. */
  lemma AtMostConcurrencyHeld(cfg: Config, z: State, unfinished: set<Sid>)
    requires Reachable(cfg, z)
    requires forall i :: i in unfinished ==> i in z.submits && z.submits[i].Accepted? && z.submits[i].outcome.None?
    ensures |unfinished| <= cfg.concurrency
  {
    Reached(cfg, z);
    forall i | i in unfinished ensures i in Held(z.workers) {
      assert SubmitInv(cfg, z, i);
      HeldIsBounded(z.workers, z.submits[i].worker);
    }
    HeldIsBounded(z.workers, 0);
    SubsetSize(unfinished, Held(z.workers));
  }
}
