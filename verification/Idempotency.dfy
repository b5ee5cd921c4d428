/** The claim / run / settle protocol of `Manager.Do`: any number of executions,
    on any keys, share a store whose records expire and a per-key lock.

    Every action below is one atomic access to the store, the lock or the clock,
    so a `Tick` may fall between any two of them, also between the re-read and the
    write inside a locked region. */
module Idempotency {
  import opened Prelude

  type Key = string
  type Fingerprint = string
  type ClaimId = string
  type Tid = nat
  type Value(==, !new)

  datatype Stage = InFlight | Completed

  datatype Record = Record(stage: Stage, fingerprint: Fingerprint, claimId: ClaimId, value: Option<Value>)

  /** A stored record, visible while the clock is before `expires`. */
  datatype Entry = Entry(record: Record, expires: int)

  datatype Outcome =
    | Replayed(value: Value)
    | Executed(value: Value)
    | Mismatch
    | RefusedInFlight
    | Failed          // store, lock or claim error: returned without running the work
    | WorkFailed      // the work returned an error or panicked
    | Crashed

  /** What an execution took: its ClaimID and the window its record is good for. */
  datatype Claim = Claim(id: ClaimId, at: int, expires: int)

  /** How an execution settles its claim, and what `Do` then returns. */
  datatype Plan = Commit(value: Value) | Release(outcome: Outcome)

  datatype Phase = Waiting | Checking | Writing

  datatype Pc =
    | Start                                        // before the unlocked read
    | WantClaim                                    // the unlocked read missed
    | ClaimRead                                    // holds the lock, before the re-read
    | ClaimWrite                                   // holds the lock, the re-read missed
    | Running(claim: Claim)                        // the work runs, no lock held
    | Settling(claim: Claim, plan: Plan, phase: Phase)
    | Done(outcome: Outcome)

  datatype Exec = Exec(key: Key, fingerprint: Fingerprint, ttl: int, pc: Pc)

  datatype Policy = FailClosed | FailOpen

  datatype Config = Config(inFlightTTL: int, policy: Policy, recordable: Value -> bool)

  /** `issued` maps every ClaimID to the execution that minted it, and `returned`
      every execution to the value its work returned. Both only record history. */
  datatype State = State(
    now: int,
    store: map<Key, Entry>,
    locks: map<Key, Tid>,
    execs: map<Tid, Exec>,
    issued: map<ClaimId, Tid>,
    returned: map<Tid, Value>)

  datatype Write = Keep | Put(entry: Entry) | Delete

  /** What one step of an execution does: where it goes, what it writes under its
      key, the ClaimID it minted and the value its work returned. */
  datatype Effect = Effect(pc: Pc, write: Write, minted: Option<ClaimId>, result: Option<Value>)

  datatype Action =
    | Tick(now: int)
    | Arrive(t: Tid, key: Key, fingerprint: Fingerprint, ttl: int)
    | Step(t: Tid, effect: Effect)

  // ---------------------------------------------------------------- semantics

  predicate Visible(s: State, k: Key) {
    k in s.store && s.now < s.store[k].expires
  }

  /** The record visible under the key bears this ClaimID. */
  predicate Ours(s: State, k: Key, id: ClaimId) {
    Visible(s, k) && s.store[k].record.claimId == id
  }

  predicate HoldsLock(pc: Pc) {
    pc.ClaimRead? || pc.ClaimWrite? || (pc.Settling? && !pc.phase.Waiting?)
  }

  /** An execution that took a claim and has not settled it. */
  predicate Active(pc: Pc) {
    pc.Running? || pc.Settling?
  }

  /** The record `claim` writes under the lock. */
  function InFlightEntry(e: Exec, c: Claim): Entry {
    Entry(Record(InFlight, e.fingerprint, c.id, None), c.expires)
  }

  /** `replay`: the fingerprint is compared before the stage. */
  function Replay(r: Record, fingerprint: Fingerprint): Outcome {
    if r.fingerprint != fingerprint then Mismatch
    else if r.stage.Completed? && r.value.Some? then Replayed(r.value.value)
    else RefusedInFlight
  }

  /** What `Do` returns once a claim is settled, whether or not settling worked. */
  function PlanOutcome(p: Plan): Outcome {
    match p
    case Commit(v) => Executed(v)
    case Release(o) => o
  }

  /** The write of `commit` or the delete of `release`. */
  function SettleWrite(s: State, e: Exec): Write
    requires e.pc.Settling?
  {
    match e.pc.plan
    case Commit(v) => Put(Entry(Record(Completed, e.fingerprint, e.pc.claim.id, Some(v)), s.now + e.ttl))
    case Release(_) => Delete
  }

  predicate Silent(f: Effect) {
    f.write.Keep? && f.minted.None? && f.result.None?
  }

  /** The steps open to an execution at each program point. Reads, writes and lock
      acquisitions may fail anywhere; a write that fails may have landed or not. */
  predicate Move(cfg: Config, s: State, e: Exec, f: Effect) {
    match e.pc
    case Start =>
      Silent(f) && (|| f.pc == Done(Failed)
                    || (Visible(s, e.key) && f.pc == Done(Replay(s.store[e.key].record, e.fingerprint)))
                    || ((!Visible(s, e.key) || cfg.policy.FailOpen?) && f.pc == WantClaim))
    case WantClaim =>
      Silent(f) && (f.pc == Done(Failed) || (e.key !in s.locks && f.pc == ClaimRead))
    case ClaimRead =>
      Silent(f) && (|| f.pc == Done(Failed)
                    || (Visible(s, e.key) && f.pc == Done(Replay(s.store[e.key].record, e.fingerprint)))
                    || ((!Visible(s, e.key) || cfg.policy.FailOpen?) && f.pc == ClaimWrite))
    case ClaimWrite =>
      && f.result.None? && f.minted.Some? && f.minted.value !in s.issued
      && (var c := Claim(f.minted.value, s.now, s.now + cfg.inFlightTTL);
          && (f.write == Keep || f.write == Put(InFlightEntry(e, c)))
          && (f.pc == Done(Failed) || (f.pc == Running(c) && f.write.Put?)))
    case Running(c) =>
      && f.write.Keep? && f.minted.None?
      && (match f.result
          case None => f.pc == Settling(c, Release(WorkFailed), Waiting)
          case Some(v) => f.pc == Settling(c, if cfg.recordable(v) then Commit(v) else Release(Executed(v)), Waiting))
    case Settling(c, plan, Waiting) =>
      Silent(f) && (|| f.pc == Done(PlanOutcome(plan))
                    || (e.key !in s.locks && f.pc == Settling(c, plan, Checking)))
    case Settling(c, plan, Checking) =>
      Silent(f) && (|| f.pc == Done(PlanOutcome(plan))
                    || (Ours(s, e.key, c.id) && f.pc == Settling(c, plan, Writing)))
    case Settling(c, plan, Writing) =>
      && f.minted.None? && f.result.None? && f.pc == Done(PlanOutcome(plan))
      && (f.write == Keep || f.write == SettleWrite(s, e))
    case Done(_) => false
  }

  predicate Enabled(cfg: Config, s: State, a: Action) {
    match a
    case Tick(now) => s.now <= now
    case Arrive(t, _, _, ttl) => t !in s.execs && 0 < ttl
    case Step(t, f) =>
      t in s.execs && (Move(cfg, s, s.execs[t], f) || (!s.execs[t].pc.Done? && Silent(f) && f.pc == Done(Crashed)))
  }

  /** Entering or leaving a locked region takes or frees the lock of the key. */
  function Apply(s: State, t: Tid, f: Effect): State
    requires t in s.execs
  {
    var e := s.execs[t];
    State(
      s.now,
      match f.write { case Keep => s.store case Put(entry) => s.store[e.key := entry] case Delete => s.store - {e.key} },
      if HoldsLock(f.pc) then s.locks[e.key := t] else if HoldsLock(e.pc) then s.locks - {e.key} else s.locks,
      s.execs[t := e.(pc := f.pc)],
      if f.minted.Some? then s.issued[f.minted.value := t] else s.issued,
      if f.result.Some? then s.returned[t := f.result.value] else s.returned)
  }

  function Next(cfg: Config, s: State, a: Action): State
    requires Enabled(cfg, s, a)
  {
    match a
    case Tick(now) => s.(now := now)
    case Arrive(t, k, f, ttl) => s.(execs := s.execs[t := Exec(k, f, ttl, Start)])
    case Step(t, f) => Apply(s, t, f)
  }

  predicate Init(s: State) {
    s.store == map[] && s.locks == map[] && s.execs == map[] && s.issued == map[] && s.returned == map[]
  }

  /** `actions` is a run of the protocol from `s`. */
  predicate Run(cfg: Config, s: State, actions: seq<Action>)
    decreases |actions|
  {
    actions == [] || (Enabled(cfg, s, actions[0]) && Run(cfg, Next(cfg, s, actions[0]), actions[1..]))
  }

  function After(cfg: Config, s: State, actions: seq<Action>): State
    requires Run(cfg, s, actions)
    decreases |actions|
  {
    if actions == [] then s else After(cfg, Next(cfg, s, actions[0]), actions[1..])
  }

  lemma {:induction false} RunExtends(cfg: Config, s: State, actions: seq<Action>, a: Action)
    requires Run(cfg, s, actions) && Enabled(cfg, After(cfg, s, actions), a)
    ensures Run(cfg, s, actions + [a])
    ensures After(cfg, s, actions + [a]) == Next(cfg, After(cfg, s, actions), a)
    decreases |actions|
  {
    if actions != [] {
      assert (actions + [a])[1..] == actions[1..] + [a];
      RunExtends(cfg, Next(cfg, s, actions[0]), actions[1..], a);
    } else {
      assert actions + [a] == [a] && Run(cfg, Next(cfg, s, a), []);
    }
  }

  ghost predicate Sound(cfg: Config) {
    0 < cfg.inFlightTTL && cfg.policy.FailClosed?
  }

  // --------------------------------------------------------------- invariants

  /** `v` is what the work of execution `t` returned for this key and fingerprint. */
  ghost predicate Produced(cfg: Config, s: State, t: Tid, k: Key, f: Fingerprint, v: Value) {
    t in s.execs && s.execs[t].key == k && s.execs[t].fingerprint == f &&
    t in s.returned && s.returned[t] == v && cfg.recordable(v)
  }

  /** The lock of a key is held by exactly the execution inside its region. */
  ghost predicate LockInv(s: State, t: Tid)
    requires t in s.execs
  {
    var e := s.execs[t];
    HoldsLock(e.pc) ==> e.key in s.locks && s.locks[e.key] == t
  }

  /** An unsettled claim was minted once, by its holder. While it is alive its slot
      holds exactly its in-flight record, and a slot bearing it holds nothing else. */
  ghost predicate ClaimInv(cfg: Config, s: State, t: Tid)
    requires t in s.execs
  {
    var e := s.execs[t];
    Active(e.pc) ==>
      var c := e.pc.claim;
      && c.id in s.issued && s.issued[c.id] == t
      && c.at <= s.now && c.expires == c.at + cfg.inFlightTTL
      && (s.now < c.expires ==> e.key in s.store && s.store[e.key].record.claimId == c.id)
      && (e.key in s.store && s.store[e.key].record.claimId == c.id ==> s.store[e.key] == InFlightEntry(e, c))
  }

  /** What a locked check established still holds when the write comes. */
  ghost predicate RegionInv(s: State, t: Tid)
    requires t in s.execs
  {
    var e := s.execs[t];
    && (e.pc.ClaimWrite? ==> !Visible(s, e.key))
    && (e.pc.Settling? && e.pc.phase.Writing? && Visible(s, e.key) ==>
          s.store[e.key].record.claimId == e.pc.claim.id)
  }

  /** Values being committed or already replayed came out of a recordable run. */
  ghost predicate ValueInv(cfg: Config, s: State, t: Tid)
    requires t in s.execs
  {
    var e := s.execs[t];
    && 0 < e.ttl
    && (e.pc.Settling? && e.pc.plan.Commit? ==> Produced(cfg, s, t, e.key, e.fingerprint, e.pc.plan.value))
    && (e.pc.Settling? && e.pc.plan.Release? ==> !e.pc.plan.outcome.Replayed?)
    && (!e.pc.Settling? && !e.pc.Done? ==> t !in s.returned)
    && (e.pc.Done? && e.pc.outcome.Replayed? ==>
          exists r :: Produced(cfg, s, r, e.key, e.fingerprint, e.pc.outcome.value))
  }

  ghost predicate ExecInv(cfg: Config, s: State, t: Tid) {
    t in s.execs ==> LockInv(s, t) && ClaimInv(cfg, s, t) && RegionInv(s, t) && ValueInv(cfg, s, t)
  }

  /** A key's lock is held from inside its region; its record was written by the
      execution that minted the ClaimID, and if completed holds that run's value. */
  ghost predicate KeyInv(cfg: Config, s: State, k: Key) {
    && (k in s.locks ==>
          s.locks[k] in s.execs && s.execs[s.locks[k]].key == k && HoldsLock(s.execs[s.locks[k]].pc))
    && (k in s.store ==>
          var r := s.store[k].record;
          && r.claimId in s.issued && s.issued[r.claimId] in s.execs && s.execs[s.issued[r.claimId]].key == k
          && (r.stage.Completed? ==>
                r.value.Some? && Produced(cfg, s, s.issued[r.claimId], k, r.fingerprint, r.value.value)))
  }

  /** The windows of two unsettled claims on one key never intersect. */
  ghost predicate PairInv(s: State, i: Tid, j: Tid) {
    i in s.execs && j in s.execs && i != j && s.execs[i].key == s.execs[j].key &&
    Active(s.execs[i].pc) && Active(s.execs[j].pc) ==>
      s.execs[i].pc.claim.expires <= s.execs[j].pc.claim.at || s.execs[j].pc.claim.expires <= s.execs[i].pc.claim.at
  }

  ghost predicate Inv(cfg: Config, s: State) {
    && (forall t: Tid :: ExecInv(cfg, s, t))
    && (forall k: Key :: KeyInv(cfg, s, k))
    && (forall i: Tid, j: Tid :: PairInv(s, i, j))
    && (forall id :: id in s.issued ==> s.issued[id] in s.execs)
    && (forall t :: t in s.returned ==> t in s.execs)
  }

  // -------------------------------------------------- every step keeps them

  lemma TickKeeps(cfg: Config, s: State, now: int, u: Tid)
    requires s.now <= now && ExecInv(cfg, s, u)
    ensures ExecInv(cfg, s.(now := now), u)
  {
    var s1 := s.(now := now);
    if u in s.execs && s.execs[u].pc.Done? && s.execs[u].pc.outcome.Replayed? {
      var e := s.execs[u];
      var r :| Produced(cfg, s, r, e.key, e.fingerprint, e.pc.outcome.value);
      assert Produced(cfg, s1, r, e.key, e.fingerprint, e.pc.outcome.value);
    }
  }

  lemma ArriveKeeps(cfg: Config, s: State, a: Action, u: Tid)
    requires a.Arrive? && Enabled(cfg, s, a) && ExecInv(cfg, s, u)
    requires a.t !in s.returned
    ensures ExecInv(cfg, Next(cfg, s, a), u)
  {
    if u in s.execs && s.execs[u].pc.Done? && s.execs[u].pc.outcome.Replayed? {
      var e := s.execs[u];
      var r :| Produced(cfg, s, r, e.key, e.fingerprint, e.pc.outcome.value);
      assert Produced(cfg, Next(cfg, s, a), r, e.key, e.fingerprint, e.pc.outcome.value);
    }
  }

  /** A step of `t` keeps what holds of any other execution `u`. */
  lemma OtherLock(cfg: Config, s: State, t: Tid, f: Effect, u: Tid)
    requires Sound(cfg) && Enabled(cfg, s, Step(t, f)) && u != t && u in s.execs
    requires LockInv(s, u) && LockInv(s, t) && KeyInv(cfg, s, s.execs[t].key)
    ensures LockInv(Apply(s, t, f), u)
  {
  }

  lemma OtherClaim(cfg: Config, s: State, t: Tid, f: Effect, u: Tid)
    requires Sound(cfg) && Enabled(cfg, s, Step(t, f)) && u != t && u in s.execs
    requires ClaimInv(cfg, s, u) && ClaimInv(cfg, s, t) && RegionInv(s, t)
    ensures ClaimInv(cfg, Apply(s, t, f), u)
  {
  }

  lemma OtherRegion(cfg: Config, s: State, t: Tid, f: Effect, u: Tid)
    requires Sound(cfg) && Enabled(cfg, s, Step(t, f)) && u != t && u in s.execs
    requires LockInv(s, u) && LockInv(s, t) && RegionInv(s, u)
    ensures RegionInv(Apply(s, t, f), u)
  {
  }

  lemma ProducedStays(cfg: Config, s: State, t: Tid, f: Effect, r: Tid, k: Key, p: Fingerprint, v: Value)
    requires Enabled(cfg, s, Step(t, f)) && ExecInv(cfg, s, t) && Produced(cfg, s, r, k, p, v)
    ensures Produced(cfg, Apply(s, t, f), r, k, p, v)
  {
  }

  lemma OtherValue(cfg: Config, s: State, t: Tid, f: Effect, u: Tid)
    requires Sound(cfg) && Enabled(cfg, s, Step(t, f)) && u != t && u in s.execs
    requires ValueInv(cfg, s, u) && ExecInv(cfg, s, t)
    ensures ValueInv(cfg, Apply(s, t, f), u)
  {
    var e := s.execs[u];
    if e.pc.Done? && e.pc.outcome.Replayed? {
      var r :| Produced(cfg, s, r, e.key, e.fingerprint, e.pc.outcome.value);
      ProducedStays(cfg, s, t, f, r, e.key, e.fingerprint, e.pc.outcome.value);
    }
  }

  /** The acting execution keeps its own part of the invariant. */
  lemma ActorLock(cfg: Config, s: State, t: Tid, f: Effect)
    requires Sound(cfg) && Enabled(cfg, s, Step(t, f)) && ExecInv(cfg, s, t)
    ensures LockInv(Apply(s, t, f), t)
  {
  }

  lemma ActorClaim(cfg: Config, s: State, t: Tid, f: Effect)
    requires Sound(cfg) && Enabled(cfg, s, Step(t, f)) && ExecInv(cfg, s, t)
    ensures ClaimInv(cfg, Apply(s, t, f), t)
  {
  }

  lemma ActorRegion(cfg: Config, s: State, t: Tid, f: Effect)
    requires Sound(cfg) && Enabled(cfg, s, Step(t, f)) && ExecInv(cfg, s, t)
    ensures RegionInv(Apply(s, t, f), t)
  {
  }

  lemma ActorValue(cfg: Config, s: State, t: Tid, f: Effect)
    requires Sound(cfg) && Enabled(cfg, s, Step(t, f)) && ExecInv(cfg, s, t) && KeyInv(cfg, s, s.execs[t].key)
    ensures ValueInv(cfg, Apply(s, t, f), t)
  {
    var e := s.execs[t];
    if f.pc.Done? && f.pc.outcome.Replayed? {
      var r := s.store[e.key].record;
      ProducedStays(cfg, s, t, f, s.issued[r.claimId], e.key, r.fingerprint, r.value.value);
      assert Produced(cfg, Apply(s, t, f), s.issued[r.claimId], e.key, e.fingerprint, f.pc.outcome.value);
    }
  }

  lemma StepKey(cfg: Config, s: State, t: Tid, f: Effect, k: Key)
    requires Sound(cfg) && Enabled(cfg, s, Step(t, f)) && ExecInv(cfg, s, t) && KeyInv(cfg, s, k)
    ensures KeyInv(cfg, Apply(s, t, f), k)
  {
    if k in s.store && s.store[k].record.stage.Completed? {
      var r := s.store[k].record;
      ProducedStays(cfg, s, t, f, s.issued[r.claimId], k, r.fingerprint, r.value.value);
    }
    StepKeyLock(cfg, s, t, f, k);
  }

  lemma StepKeyLock(cfg: Config, s: State, t: Tid, f: Effect, k: Key)
    requires Sound(cfg) && Enabled(cfg, s, Step(t, f)) && ExecInv(cfg, s, t) && KeyInv(cfg, s, k)
    ensures var s1 := Apply(s, t, f);
            k in s1.locks ==> s1.locks[k] in s1.execs && s1.execs[s1.locks[k]].key == k && HoldsLock(s1.execs[s1.locks[k]].pc)
  {
  }

  lemma StepPair(cfg: Config, s: State, t: Tid, f: Effect, u: Tid)
    requires Sound(cfg) && Enabled(cfg, s, Step(t, f)) && u != t && u in s.execs
    requires PairInv(s, t, u) && ClaimInv(cfg, s, u) && RegionInv(s, t) && ClaimInv(cfg, s, t)
    ensures PairInv(Apply(s, t, f), t, u) && PairInv(Apply(s, t, f), u, t)
  {
  }

  lemma StepKeeps(cfg: Config, s: State, t: Tid, f: Effect)
    requires Sound(cfg) && Inv(cfg, s) && Enabled(cfg, s, Step(t, f))
    ensures Inv(cfg, Apply(s, t, f))
  {
    var s1 := Apply(s, t, f);
    assert ExecInv(cfg, s, t) && KeyInv(cfg, s, s.execs[t].key);
    forall u: Tid ensures ExecInv(cfg, s1, u) {
      if u == t {
        ActorLock(cfg, s, t, f); ActorClaim(cfg, s, t, f); ActorRegion(cfg, s, t, f); ActorValue(cfg, s, t, f);
      } else if u in s.execs {
        assert ExecInv(cfg, s, u);
        OtherLock(cfg, s, t, f, u); OtherClaim(cfg, s, t, f, u); OtherRegion(cfg, s, t, f, u); OtherValue(cfg, s, t, f, u);
      }
    }
    forall k: Key ensures KeyInv(cfg, s1, k) { assert KeyInv(cfg, s, k); StepKey(cfg, s, t, f, k); }
    forall i: Tid, j: Tid ensures PairInv(s1, i, j) {
      assert PairInv(s, i, j) && PairInv(s, t, i) && PairInv(s, t, j);
      assert ExecInv(cfg, s, i) && ExecInv(cfg, s, j);
      if i == t && j != t && j in s.execs { StepPair(cfg, s, t, f, j); }
      if j == t && i != t && i in s.execs { StepPair(cfg, s, t, f, i); }
    }
  }

  lemma ActionKeeps(cfg: Config, s: State, a: Action)
    requires Sound(cfg) && Inv(cfg, s) && Enabled(cfg, s, a)
    ensures Inv(cfg, Next(cfg, s, a))
  {
    var s1 := Next(cfg, s, a);
    match a
    case Tick(now) =>
      forall u: Tid ensures ExecInv(cfg, s1, u) { assert ExecInv(cfg, s, u); TickKeeps(cfg, s, now, u); }
      forall k: Key ensures KeyInv(cfg, s1, k) { assert KeyInv(cfg, s, k); }
      forall i: Tid, j: Tid ensures PairInv(s1, i, j) { assert PairInv(s, i, j); }
    case Arrive(t, _, _, _) =>
      forall u: Tid ensures ExecInv(cfg, s1, u) {
        assert ExecInv(cfg, s, u);
        ArriveKeeps(cfg, s, a, u);
      }
      forall k: Key ensures KeyInv(cfg, s1, k) { assert KeyInv(cfg, s, k); }
      forall i: Tid, j: Tid ensures PairInv(s1, i, j) { assert PairInv(s, i, j); }
    case Step(t, f) => StepKeeps(cfg, s, t, f);
  }

  /** Every state of every run, under FailClosed, satisfies the invariant. */
  lemma {:induction false} RunKeeps(cfg: Config, s: State, actions: seq<Action>)
    requires Sound(cfg) && Inv(cfg, s) && Run(cfg, s, actions)
    ensures Inv(cfg, After(cfg, s, actions))
    decreases |actions|
  {
    if actions != [] {
      ActionKeeps(cfg, s, actions[0]);
      RunKeeps(cfg, Next(cfg, s, actions[0]), actions[1..]);
    }
  }
}
