/** When the work of a key runs again, although it returned a result to be recorded: the
    limits of running at most once, and exactly where they lie. */
module IdempotencyReruns {
  import opened Prelude
  import opened Idempotency
  import opened IdempotencySafety

  // ------------------------------------------------------ what becomes of a result

  /** The step by which an execution's call ended, and the state it was taken in. */
  datatype Ending = Ending(at: State, effect: Effect)

  function EndOf(cfg: Config, s: State, actions: seq<Action>, t: Tid): Option<Ending>
    requires Run(cfg, s, actions)
    decreases |actions|
  {
    if actions == [] then None
    else if actions[0].Step? && actions[0].t == t && actions[0].effect.pc.Done? then Some(Ending(s, actions[0].effect))
    else EndOf(cfg, Next(cfg, s, actions[0]), actions[1..], t)
  }

  /** The work of `t` returned a recordable value, which is not recorded yet. */
  predicate ToCommit(s: State, t: Tid) {
    t in s.execs && s.execs[t].pc.Settling? && s.execs[t].pc.plan.Commit?
  }

  /** `commit` ended without recording: the caller died, the lock or the read failed,
      the claim had expired, or the write failed. */
  predicate InVain(end: Ending, t: Tid) {
    && ToCommit(end.at, t) && end.effect.write.Keep?
    && var e := end.at.execs[t];
      || end.effect.pc == Done(Crashed)
      || e.pc.phase.Waiting?
      || (e.pc.phase.Checking? && (Ours(end.at, e.key, e.pc.claim.id) || e.pc.claim.expires <= end.at.now))
      || e.pc.phase.Writing?
  }

  /** `commit` recorded the value for the time it is to be kept. */
  predicate Recorded(end: Ending, t: Tid) {
    && ToCommit(end.at, t) && end.effect.write.Put?
    && end.effect.write.entry.record.value == Some(end.at.execs[t].pc.plan.value)
    && end.effect.write.entry.expires == end.at.now + end.at.execs[t].ttl
  }

  lemma CommitEnds(cfg: Config, s: State, t: Tid, f: Effect)
    requires Sound(cfg) && Inv(cfg, s) && Enabled(cfg, s, Step(t, f)) && ToCommit(s, t) && f.pc.Done?
    ensures InVain(Ending(s, f), t) || Recorded(Ending(s, f), t)
    ensures f.write.Put? ==> CompletedAt(Apply(s, t, f), s.execs[t].key, f.write.entry)
  {
    assert ExecInv(cfg, s, t);
  }

  lemma CommitGoesOn(cfg: Config, s: State, a: Action, t: Tid)
    requires Enabled(cfg, s, a) && ToCommit(s, t) && !(a.Step? && a.t == t && a.effect.pc.Done?)
    ensures var z := Next(cfg, s, a);
            ToCommit(z, t) && z.execs[t].pc.claim == s.execs[t].pc.claim && z.execs[t].key == s.execs[t].key
  {
  }

  /** The claim is still somebody's to settle. */
  predicate Holds(s: State, id: ClaimId) {
    && id in s.issued && s.issued[id] in s.execs
    && Active(s.execs[s.issued[id]].pc) && s.execs[s.issued[id]].pc.claim.id == id
  }

  /** A visible record that nobody has left to settle. */
  predicate Left(s: State, k: Key, entry: Entry) {
    Visible(s, k) && s.store[k] == entry && !Holds(s, entry.record.claimId)
  }

  lemma LeftStep(cfg: Config, s: State, a: Action, k: Key, entry: Entry)
    requires Sound(cfg) && Inv(cfg, s) && Enabled(cfg, s, a) && Left(s, k, entry) && Next(cfg, s, a).now < entry.expires
    ensures Left(Next(cfg, s, a), k, entry)
  {
    assert KeyInv(cfg, s, k);
    if a.Step? { assert ExecInv(cfg, s, a.t); }
  }

  /** It stands until it expires: a claim left behind blocks its key that long. */
  lemma {:induction false} LeftStays(cfg: Config, s: State, actions: seq<Action>, k: Key, entry: Entry)
    requires Sound(cfg) && Inv(cfg, s) && Run(cfg, s, actions) && Left(s, k, entry) && After(cfg, s, actions).now < entry.expires
    ensures Left(After(cfg, s, actions), k, entry)
    decreases |actions|
  {
    if actions != [] {
      ClockAdvances(cfg, Next(cfg, s, actions[0]), actions[1..]);
      LeftStep(cfg, s, actions[0], k, entry);
      ActionKeeps(cfg, s, actions[0]);
      LeftStays(cfg, Next(cfg, s, actions[0]), actions[1..], k, entry);
    }
  }

  /** What is in the slot after `commit`: the record, or the claim it failed to replace. */
  function LeftBehind(end: Ending, t: Tid): Entry
    requires ToCommit(end.at, t)
  {
    if end.effect.write.Put? then end.effect.write.entry else InFlightEntry(end.at.execs[t], end.at.execs[t].pc.claim)
  }

  lemma CommitLeaves(cfg: Config, s: State, t: Tid, f: Effect)
    requires Sound(cfg) && Inv(cfg, s) && Enabled(cfg, s, Step(t, f)) && ToCommit(s, t) && f.pc.Done?
    ensures s.now < LeftBehind(Ending(s, f), t).expires ==> Left(Apply(s, t, f), s.execs[t].key, LeftBehind(Ending(s, f), t))
  {
    assert ExecInv(cfg, s, t);
  }

  /** A result to be recorded waits under its claim; or is recorded; or its commit ended
      in vain. Either of the last two leaves a record that stands until it expires. */
  lemma {:induction false} CommitFate(cfg: Config, s: State, actions: seq<Action>, t: Tid)
    requires Sound(cfg) && Inv(cfg, s) && Run(cfg, s, actions) && ToCommit(s, t)
    ensures var z, e := After(cfg, s, actions), s.execs[t];
      match EndOf(cfg, s, actions, t)
      case None => ToCommit(z, t) && z.execs[t].pc.claim == e.pc.claim && z.execs[t].key == e.key
      case Some(end) =>
        && (InVain(end, t) || Recorded(end, t)) && end.at.execs[t].pc.claim == e.pc.claim
        && (z.now < LeftBehind(end, t).expires ==> Left(z, e.key, LeftBehind(end, t)))
    decreases |actions|
  {
    if actions != [] {
      var a, s1 := actions[0], Next(cfg, s, actions[0]);
      ActionKeeps(cfg, s, a);
      if a.Step? && a.t == t && a.effect.pc.Done? {
        CommitEnds(cfg, s, t, a.effect);
        CommitLeaves(cfg, s, t, a.effect);
        var entry := LeftBehind(Ending(s, a.effect), t);
        ClockAdvances(cfg, s, actions);
        if After(cfg, s, actions).now < entry.expires {
          LeftStays(cfg, s1, actions[1..], s.execs[t].key, entry);
        }
      } else {
        CommitGoesOn(cfg, s, a, t);
        CommitFate(cfg, s1, actions[1..], t);
      }
    }
  }

  /** Action `a` starts the work of execution `u` on key `k`. */
  predicate Begins(cfg: Config, z: State, a: Action, u: Tid, k: Key)
    requires Enabled(cfg, z, a)
  {
    var z1 := Next(cfg, z, a);
    u in z1.execs && z1.execs[u].key == k && z1.execs[u].pc.Running? && !(u in z.execs && z.execs[u].pc.Running?)
  }

  lemma BeginsUnseen(cfg: Config, z: State, a: Action, u: Tid, k: Key)
    requires Sound(cfg) && Inv(cfg, z) && Enabled(cfg, z, a) && Begins(cfg, z, a, u, k)
    ensures !Visible(z, k)
  {
    assert ExecInv(cfg, z, u);
  }

  /** After the work of `t` returned a recordable result, work on its key starts again
      only when the claim has expired and the result is not recorded, whether its commit
      is still to come or ended in vain, or when the record has expired. */
  lemma RunsAgainOnlyAfter(cfg: Config, s: State, before: seq<Action>, actions: seq<Action>, a: Action, t: Tid, u: Tid)
    requires Sound(cfg) && Started(cfg, s, before) && ToCommit(After(cfg, s, before), t)
    requires Run(cfg, After(cfg, s, before), actions)
    requires Enabled(cfg, After(cfg, After(cfg, s, before), actions), a)
    requires var y := After(cfg, s, before); Begins(cfg, After(cfg, y, actions), a, u, y.execs[t].key)
    ensures var y := After(cfg, s, before); var z, c := After(cfg, y, actions), y.execs[t].pc.claim;
      match EndOf(cfg, y, actions, t)
      case None => ToCommit(z, t) && c.expires <= z.now
      case Some(end) =>
        || (InVain(end, t) && c.expires <= z.now)
        || (Recorded(end, t) && end.at.now + end.at.execs[t].ttl <= z.now)
  {
    var y := After(cfg, s, before);
    Reached(cfg, s, before);
    CommitFate(cfg, y, actions, t);
    RunKeeps(cfg, y, actions);
    var z := After(cfg, y, actions);
    BeginsUnseen(cfg, z, a, u, y.execs[t].key);
    assert ExecInv(cfg, z, t);
  }

  // ------------------------------------------------- exactly when it can run again

  /** Work on `k` starts at instant `n`, in a step that continues some run from `y`. */
  ghost predicate Starts(cfg: Config, y: State, actions: seq<Action>, a: Action, u: Tid, k: Key, n: int) {
    && Run(cfg, y, actions)
    && var z := After(cfg, y, actions);
       z.now == n && Enabled(cfg, z, a) && Begins(cfg, z, a, u, k)
  }

  /** The key is taken up to and at instant `n`: its visible record lasts longer, and
      nobody can settle it into something shorter. */
  predicate Blocked(s: State, k: Key, n: int) {
    && Visible(s, k) && n < s.store[k].expires
    && var id := s.store[k].record.claimId;
       Holds(s, id) ==> ToCommit(s, s.issued[id]) && n < s.now + s.execs[s.issued[id]].ttl
  }

  /** The holder of the claim goes on, records its result or ends in vain. */
  lemma BlockedByHolder(cfg: Config, s: State, t: Tid, f: Effect, k: Key, n: int)
    requires Sound(cfg) && ExecInv(cfg, s, t) && KeyInv(cfg, s, k) && Enabled(cfg, s, Step(t, f)) && Blocked(s, k, n) && s.now <= n
    requires Holds(s, s.store[k].record.claimId) && s.issued[s.store[k].record.claimId] == t
    ensures Blocked(Apply(s, t, f), k, n)
  {
  }

  /** Nobody else touches the slot or takes over the claim. */
  lemma BlockedByAnother(cfg: Config, s: State, t: Tid, f: Effect, k: Key, n: int)
    requires Sound(cfg) && ExecInv(cfg, s, t) && KeyInv(cfg, s, k) && Enabled(cfg, s, Step(t, f)) && Blocked(s, k, n) && s.now <= n
    requires !(Holds(s, s.store[k].record.claimId) && s.issued[s.store[k].record.claimId] == t)
    ensures Blocked(Apply(s, t, f), k, n)
  {
  }

  lemma BlockedStep(cfg: Config, s: State, a: Action, k: Key, n: int)
    requires Sound(cfg) && Inv(cfg, s) && Enabled(cfg, s, a) && Blocked(s, k, n) && Next(cfg, s, a).now <= n
    ensures Blocked(Next(cfg, s, a), k, n)
  {
    assert KeyInv(cfg, s, k);
    var id := s.store[k].record.claimId;
    if a.Step? {
      assert ExecInv(cfg, s, a.t);
      if Holds(s, id) && s.issued[id] == a.t {
        BlockedByHolder(cfg, s, a.t, a.effect, k, n);
      } else {
        BlockedByAnother(cfg, s, a.t, a.effect, k, n);
      }
    }
  }

  lemma {:induction false} BlockedStays(cfg: Config, s: State, actions: seq<Action>, k: Key, n: int)
    requires Sound(cfg) && Inv(cfg, s) && Run(cfg, s, actions) && Blocked(s, k, n) && After(cfg, s, actions).now <= n
    ensures Blocked(After(cfg, s, actions), k, n)
    decreases |actions|
  {
    if actions != [] {
      ClockAdvances(cfg, Next(cfg, s, actions[0]), actions[1..]);
      BlockedStep(cfg, s, actions[0], k, n);
      ActionKeeps(cfg, s, actions[0]);
      BlockedStays(cfg, Next(cfg, s, actions[0]), actions[1..], k, n);
    }
  }

  /** A run grown by one action. */
  lemma Grow(cfg: Config, s: State, actions: seq<Action>, a: Action) returns (more: seq<Action>)
    requires Run(cfg, s, actions) && Enabled(cfg, After(cfg, s, actions), a)
    ensures Run(cfg, s, more) && After(cfg, s, more) == Next(cfg, After(cfg, s, actions), a)
  {
    RunExtends(cfg, s, actions, a);
    more := actions + [a];
  }

  function Silently(pc: Pc): Effect { Effect(pc, Keep, None, None) }

  /** A silent step of execution `t`, and all it changes. */
  lemma Goes(cfg: Config, s: State, actions: seq<Action>, t: Tid, pc: Pc) returns (more: seq<Action>)
    requires Run(cfg, s, actions) && t in After(cfg, s, actions).execs
    requires var z := After(cfg, s, actions); Move(cfg, z, z.execs[t], Silently(pc))
    ensures Run(cfg, s, more)
    ensures var y := After(cfg, s, actions); var e := y.execs[t];
      After(cfg, s, more) == y.(execs := y.execs[t := e.(pc := pc)],
                                locks := if HoldsLock(pc) then y.locks[e.key := t] else if HoldsLock(e.pc) then y.locks - {e.key} else y.locks)
  {
    more := Grow(cfg, s, actions, Step(t, Silently(pc)));
  }

  lemma GetsToClaim(cfg: Config, s: State, actions: seq<Action>, t: Tid) returns (more: seq<Action>)
    requires Run(cfg, s, actions)
    requires var z := After(cfg, s, actions);
      && t in z.execs && z.execs[t].pc.Start? && z.execs[t].key !in z.locks
      && (cfg.policy.FailOpen? || !Visible(z, z.execs[t].key))
    ensures Run(cfg, s, more)
    ensures var y := After(cfg, s, actions); var e := y.execs[t];
      After(cfg, s, more) == y.(execs := y.execs[t := e.(pc := ClaimWrite)], locks := y.locks[e.key := t])
  {
    more := Goes(cfg, s, actions, t, WantClaim);
    more := Goes(cfg, s, more, t, ClaimRead);
    more := Goes(cfg, s, more, t, ClaimWrite);
  }

  function ClaimStep(cfg: Config, e: Exec, t: Tid, id: ClaimId, now: int): Action {
    var c := Claim(id, now, now + cfg.inFlightTTL);
    Step(t, Effect(Running(c), Put(InFlightEntry(e, c)), Some(id), None))
  }

  /** A call gets to its work whenever nothing is visible under its key, or, when reads
      fail open, whatever is. */
  lemma ReachesWork(cfg: Config, s: State, actions: seq<Action>, t: Tid, id: ClaimId) returns (more: seq<Action>)
    requires Run(cfg, s, actions)
    requires var z := After(cfg, s, actions);
      && id !in z.issued && t in z.execs && z.execs[t].pc.Start? && z.execs[t].key !in z.locks
      && (cfg.policy.FailOpen? || !Visible(z, z.execs[t].key))
    ensures Run(cfg, s, more)
    ensures var y, z := After(cfg, s, actions), After(cfg, s, more);
      var c := Claim(id, y.now, y.now + cfg.inFlightTTL);
      && z.now == y.now && z.locks == y.locks && z.issued == y.issued[id := t] && z.returned == y.returned
      && z.execs == y.execs[t := y.execs[t].(pc := Running(c))] && z.store == y.store[y.execs[t].key := InFlightEntry(y.execs[t], c)]
  {
    var y := After(cfg, s, actions);
    more := GetsToClaim(cfg, s, actions, t);
    more := Grow(cfg, s, more, ClaimStep(cfg, y.execs[t], t, id, y.now));
  }

  /** There is always another execution, and another ClaimID. */
  lemma {:induction false} FreshTid(used: set<Tid>) returns (t: Tid)
    ensures forall u :: u in used ==> u < t
  {
    t := 0;
    if used != {} {
      var u :| u in used;
      t := FreshTid(used - {u});
      if t <= u { t := u + 1; }
      assert forall x :: x in used ==> x == u || x in used - {u};
    }
  }

  lemma {:induction false} FreshId(used: set<ClaimId>) returns (id: ClaimId)
    ensures forall x :: x in used ==> |x| < |id|
  {
    id := "";
    if used != {} {
      var x :| x in used;
      id := FreshId(used - {x});
      if |id| <= |x| { id := x + "+"; }
    }
  }

  /** Whoever holds the key's lock dies. */
  lemma Unlock(cfg: Config, s: State, actions: seq<Action>, k: Key) returns (more: seq<Action>)
    requires Sound(cfg) && Inv(cfg, s) && Run(cfg, s, actions)
    ensures Run(cfg, s, more)
    ensures var y, z := After(cfg, s, actions), After(cfg, s, more);
      && z.now == y.now && z.store == y.store && k !in z.locks && z.execs.Keys == y.execs.Keys
      && forall t :: t in y.execs && !HoldsLock(y.execs[t].pc) ==> z.execs[t] == y.execs[t]
  {
    RunKeeps(cfg, s, actions);
    var y := After(cfg, s, actions);
    assert KeyInv(cfg, y, k);
    more := actions;
    if k in y.locks {
      more := Grow(cfg, s, actions, Step(y.locks[k], Silently(Done(Crashed))));
    }
  }

  /** A new call comes at instant `n`, and finds nothing. */
  lemma Comes(cfg: Config, s: State, actions: seq<Action>, k: Key, n: int) returns (more: seq<Action>, u: Tid)
    requires Sound(cfg) && Inv(cfg, s) && Run(cfg, s, actions)
    requires var y := After(cfg, s, actions); y.now <= n && (k in y.store ==> y.store[k].expires <= n)
    ensures Run(cfg, s, more)
    ensures var z := After(cfg, s, more);
      z.now == n && u in z.execs && z.execs[u] == Exec(k, "", 1, Start) && k !in z.locks && !Visible(z, k)
  {
    more := Unlock(cfg, s, actions, k);
    more := Grow(cfg, s, more, Tick(n));
    u := FreshTid(After(cfg, s, more).execs.Keys);
    more := Grow(cfg, s, more, Arrive(u, k, "", 1));
  }

  lemma ClaimBegins(cfg: Config, z: State, u: Tid, id: ClaimId)
    requires u in z.execs && z.execs[u].pc.ClaimWrite? && id !in z.issued
    ensures var a := ClaimStep(cfg, z.execs[u], u, id, z.now);
      Enabled(cfg, z, a) && Begins(cfg, z, a, u, z.execs[u].key)
  {
  }

  /** Once nothing blocks the key, a new call can run its work there. */
  lemma StartsWhenFree(cfg: Config, s: State, actions: seq<Action>, k: Key, n: int)
    requires Sound(cfg) && Inv(cfg, s) && Run(cfg, s, actions)
    requires var y := After(cfg, s, actions); y.now <= n && (k in y.store ==> y.store[k].expires <= n)
    ensures exists more, a, u :: Starts(cfg, s, more, a, u, k, n)
  {
    var more, u := Comes(cfg, s, actions, k, n);
    more := GetsToClaim(cfg, s, more, u);
    var z := After(cfg, s, more);
    var id := FreshId(z.issued.Keys);
    ClaimBegins(cfg, z, u, id);
    assert Starts(cfg, s, more, ClaimStep(cfg, z.execs[u], u, id, n), u, k, n);
  }

  /** An execution whose claim is still in its slot can get to settle it there and then. */
  lemma GetsToSettle(cfg: Config, s: State, actions: seq<Action>, t: Tid) returns (more: seq<Action>)
    requires Sound(cfg) && Inv(cfg, s) && Run(cfg, s, actions)
    requires var y := After(cfg, s, actions);
      t in y.execs && y.execs[t].pc.Settling? && Ours(y, y.execs[t].key, y.execs[t].pc.claim.id)
    ensures Run(cfg, s, more)
    ensures var y, z := After(cfg, s, actions), After(cfg, s, more); var e := y.execs[t];
      z.now == y.now && z.store == y.store && t in z.execs && z.execs[t] == e.(pc := e.pc.(phase := Writing))
  {
    var e := After(cfg, s, actions).execs[t];
    more := actions;
    if e.pc.phase.Waiting? {
      more := Unlock(cfg, s, more, e.key);
      more := Goes(cfg, s, more, t, e.pc.(phase := Checking));
    }
    if !e.pc.phase.Writing? {
      more := Goes(cfg, s, more, t, e.pc.(phase := Writing));
    }
  }

  lemma SettlesNow(cfg: Config, s: State, actions: seq<Action>, t: Tid) returns (more: seq<Action>)
    requires Sound(cfg) && Inv(cfg, s) && Run(cfg, s, actions)
    requires var y := After(cfg, s, actions);
      t in y.execs && y.execs[t].pc.Settling? && Ours(y, y.execs[t].key, y.execs[t].pc.claim.id)
    ensures Run(cfg, s, more)
    ensures var y, z := After(cfg, s, actions), After(cfg, s, more); var e := y.execs[t];
      && z.now == y.now
      && (if e.pc.plan.Commit? then e.key in z.store && z.store[e.key].expires == y.now + e.ttl else e.key !in z.store)
  {
    more := GetsToSettle(cfg, s, actions, t);
    var z := After(cfg, s, more);
    var e := z.execs[t];
    more := Grow(cfg, s, more, Step(t, Effect(Done(PlanOutcome(e.pc.plan)), SettleWrite(z, e), None, None)));
  }

  lemma StartsUnlessBlocked(cfg: Config, y: State, k: Key, n: int)
    requires Sound(cfg) && Inv(cfg, y) && y.now <= n && !Blocked(y, k, n)
    ensures exists actions, a, u :: Starts(cfg, y, actions, a, u, k, n)
  {
    var actions: seq<Action> := [];
    if Visible(y, k) && n < y.store[k].expires {
      assert KeyInv(cfg, y, k);
      var t := y.issued[y.store[k].record.claimId];
      if y.execs[t].pc.Running? {
        actions := Grow(cfg, y, actions, Step(t, Silently(Settling(y.execs[t].pc.claim, Release(WorkFailed), Waiting))));
      }
      actions := SettlesNow(cfg, y, actions, t);
    }
    StartsWhenFree(cfg, y, actions, k, n);
  }

  /** From any state of any run, the work of a key can start at a given instant if and
      only if the key is not blocked then. */
  lemma StartsExactly(cfg: Config, s: State, before: seq<Action>, k: Key, n: int)
    requires Sound(cfg) && Started(cfg, s, before) && After(cfg, s, before).now <= n
    ensures var y := After(cfg, s, before);
      (exists actions, a, u :: Starts(cfg, y, actions, a, u, k, n)) <==> !Blocked(y, k, n)
  {
    var y := After(cfg, s, before);
    Reached(cfg, s, before);
    if !Blocked(y, k, n) { StartsUnlessBlocked(cfg, y, k, n); }
    forall actions, a, u | Starts(cfg, y, actions, a, u, k, n) ensures !Blocked(y, k, n) {
      RunKeeps(cfg, y, actions);
      BeginsUnseen(cfg, After(cfg, y, actions), a, u, k);
      if Blocked(y, k, n) { BlockedStays(cfg, y, actions, k, n); }
    }
  }

  /** Exactly when running at most once can fail: from the moment the work returned a
      recordable result, its claim unexpired, work on the key can start again at an
      instant if and only if by then that claim has expired, or the record would have,
      had it been written at once. */
  lemma RunsAgainExactly(cfg: Config, s: State, before: seq<Action>, t: Tid, n: int)
    requires Sound(cfg) && Started(cfg, s, before) && ToCommit(After(cfg, s, before), t)
    requires var y := After(cfg, s, before); y.now < y.execs[t].pc.claim.expires && y.now <= n
    ensures var y := After(cfg, s, before); var e := y.execs[t];
      (exists actions, a, u :: Starts(cfg, y, actions, a, u, e.key, n)) <==> e.pc.claim.expires <= n || y.now + e.ttl <= n
  {
    Reached(cfg, s, before);
    assert ExecInv(cfg, After(cfg, s, before), t);
    StartsExactly(cfg, s, before, After(cfg, s, before).execs[t].key, n);
  }

  // ------------------------------------------------------------------- such a run

  /** A run to where the work of `t` has returned `v`. */
  lemma Returns(cfg: Config, s: State, actions: seq<Action>, t: Tid, id: ClaimId, v: Value) returns (more: seq<Action>)
    requires Run(cfg, s, actions) && cfg.recordable(v)
    requires var z := After(cfg, s, actions);
      && id !in z.issued && t in z.execs && z.execs[t].pc.Start? && z.execs[t].key !in z.locks && !Visible(z, z.execs[t].key)
    ensures Run(cfg, s, more)
    ensures var y, z := After(cfg, s, actions), After(cfg, s, more);
      var c := Claim(id, y.now, y.now + cfg.inFlightTTL);
      && z.now == y.now && z.locks == y.locks && z.issued == y.issued[id := t] && z.returned == y.returned[t := v]
      && z.execs == y.execs[t := y.execs[t].(pc := Settling(c, Commit(v), Waiting))]
      && z.store == y.store[y.execs[t].key := InFlightEntry(y.execs[t], c)]
  {
    more := ReachesWork(cfg, s, actions, t, id);
    var c := After(cfg, s, more).execs[t].pc.claim;
    more := Grow(cfg, s, more, Step(t, Effect(Settling(c, Commit(v), Waiting), Keep, None, Some(v))));
  }

  /** Two calls of one key and fingerprint whose work both ran to its end: the first was
      answered with its result, but could not lock to record it. */
  lemma WorkRunsTwice(cfg: Config, v: Value) returns (s: State, actions: seq<Action>)
    requires Sound(cfg) && cfg.recordable(v)
    ensures Started(cfg, s, actions)
    ensures var z := After(cfg, s, actions);
      && z.returned == map[0 := v, 1 := v] && z.execs.Keys == {0, 1}
      && z.execs[0] == Exec("k", "f", 1, Done(Executed(v)))
      && z.execs[1].key == "k" && z.execs[1].fingerprint == "f" && ToCommit(z, 1)
  {
    s := State(0, map[], map[], map[], map[], map[]);
    actions := Grow(cfg, s, [], Arrive(0, "k", "f", 1));
    actions := Returns(cfg, s, actions, 0, "a", v);
    actions := Grow(cfg, s, actions, Step(0, Silently(Done(Executed(v)))));
    actions := Grow(cfg, s, actions, Tick(cfg.inFlightTTL));
    actions := Grow(cfg, s, actions, Arrive(1, "k", "f", 1));
    actions := Returns(cfg, s, actions, 1, "b", v);
  }
}
