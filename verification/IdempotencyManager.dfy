/** `Manager.Do` in the order of its statements: one call at a time, with any time
    between its accesses to the store, any of which may fail. */
module IdempotencyManager {
  import opened Prelude
  import opened Idempotency

  datatype WorkResult = Returned(value: Value) | Errored | Panicked

  /** A write was answered, was lost, or took effect although it was reported to fail. */
  datatype WriteResult = Wrote | Lost | Landed

  /** How a locked region fares: whether the lock and the read were answered, and the write. */
  datatype Fare = Fare(lock: bool, read: bool, write: WriteResult)

  /** What `claim` came back with: the claim, the record found instead, or an error. */
  datatype Claimed = Took(claim: Claim) | Existing(record: Record) | Refused

  /** Time spent in the claim, in the work, and between check and settling write. */
  datatype Lag = Lag(claim: nat, work: nat, write: nat)

  /** What a read of the key makes of the store: failing open, a failed read misses. */
  predicate Misses(cfg: Config, s: State, key: Key, answered: bool) {
    if answered then !Visible(s, key) else cfg.policy.FailOpen?
  }

  /** The claim is taken; after a first read that missed, the work then runs. */
  predicate Claims(cfg: Config, s: State, key: Key, fare: Fare) {
    fare.lock && Misses(cfg, s, key, fare.read) && fare.write.Wrote?
  }

  predicate Runs(cfg: Config, s: State, key: Key, answered: bool, claim: Fare) {
    Misses(cfg, s, key, answered) && Claims(cfg, s, key, claim)
  }

  function AnswerOf(work: WorkResult): Outcome {
    if work.Returned? then Executed(work.value) else WorkFailed
  }

  function Returns(returned: map<Tid, Value>, t: Tid, work: WorkResult): map<Tid, Value> {
    if work.Returned? then returned[t := work.value] else returned
  }

  function PlanFor(cfg: Config, work: WorkResult): Plan {
    if work.Returned? && cfg.recordable(work.value) then Commit(work.value) else Release(AnswerOf(work))
  }

  function CompletedEntry(e: Exec, id: ClaimId, v: Value, expires: int): Entry {
    Entry(Record(Completed, e.fingerprint, id, Some(v)), expires)
  }

  /** The work of `t` did not run, and the call failed or was answered by a record. */
  predicate Untouched(was: State, s: State, key: Key, fingerprint: Fingerprint, o: Outcome) {
    && s.returned == was.returned
    && (o == Failed || (Visible(was, key) && o == Replay(was.store[key].record, fingerprint)))
  }

  /** A call that began at `now` ran its work once and returned its own answer, and the
      key ended recorded, released, or with a claim left to expire. */
  predicate Worked(cfg: Config, now: int, s: State, e: Exec, id: ClaimId, work: WorkResult, lag: Lag, settle: Fare) {
    && s.now == now + lag.claim + lag.work + lag.write
    && if lag.work < cfg.inFlightTTL && settle.lock && settle.read && !settle.write.Lost?
       then if work.Returned? && cfg.recordable(work.value)
            then e.key in s.store && s.store[e.key] == CompletedEntry(e, id, work.value, s.now + e.ttl)
            else e.key !in s.store
       else e.key in s.store && s.store[e.key] == Entry(Record(InFlight, e.fingerprint, id, None), now + lag.claim + cfg.inFlightTTL)
  }

  class Manager {
    const cfg: Config
    ghost const origin: State
    ghost var trace: seq<Action>
    ghost var settles: map<Tid, nat>   // calls of commit and release
    var s: State

    /** The manager is always in a state the protocol can reach. */
    ghost predicate Valid()
      reads this
    {
      0 < cfg.inFlightTTL && Init(origin) && Run(cfg, origin, trace) && s == After(cfg, origin, trace)
    }

    constructor (cfg: Config, now: int)
      requires 0 < cfg.inFlightTTL
      ensures Valid() && this.cfg == cfg && s == State(now, map[], map[], map[], map[], map[]) && settles == map[]
    {
      this.cfg := cfg;
      s := State(now, map[], map[], map[], map[], map[]);
      origin := State(now, map[], map[], map[], map[], map[]);
      trace, settles := [], map[];
    }

    ghost function Settles(t: Tid): nat
      reads this
    {
      if t in settles then settles[t] else 0
    }

    method Take(a: Action)
      requires Valid() && Enabled(cfg, s, a)
      modifies this`trace, this`s
      ensures Valid() && s == Next(cfg, old(s), a)
    {
      RunExtends(cfg, origin, trace, a);
      trace := trace + [a];
      s := Next(cfg, s, a);
    }

    method Goto(t: Tid, pc: Pc)
      requires Valid() && Enabled(cfg, s, Step(t, Effect(pc, Keep, None, None)))
      modifies this`trace, this`s
      ensures Valid() && s == Apply(old(s), t, Effect(pc, Keep, None, None))
    {
      Take(Step(t, Effect(pc, Keep, None, None)));
    }

    /** Ends the call, and leaves the region it was in. */
    method Leave(t: Tid, o: Outcome, lag: nat)
      requires Valid() && Enabled(cfg, s, Step(t, Effect(Done(o), Keep, None, None)))
      modifies this`trace, this`s
      ensures Valid() && s.now == old(s.now) + lag && s.store == old(s.store) && s.issued == old(s.issued) && s.returned == old(s.returned)
      ensures s.execs == old(s.execs)[t := old(s.execs[t]).(pc := Done(o))]
      ensures s.locks == if HoldsLock(old(s.execs[t]).pc) then old(s.locks) - {old(s.execs[t]).key} else old(s.locks)
    {
      Goto(t, Done(o));
      Take(Tick(s.now + lag));
    }

    /** The outcome of a claim by `t` on `was`, the write having come at this instant. */
    ghost predicate ClaimLeft(was: State, t: Tid, id: ClaimId, fare: Fare, r: Claimed)
      reads this
      requires t in was.execs
    {
      var e := was.execs[t];
      && s.returned == was.returned && s.issued.Keys <= was.issued.Keys + {id}
      && match r
         case Took(c) =>
           && s.execs == was.execs[t := e.(pc := Running(c))]
           && c == Idempotency.Claim(id, s.now, s.now + cfg.inFlightTTL)
           && s.store == was.store[e.key := InFlightEntry(e, c)]
         case Existing(record) =>
           && s.execs == was.execs[t := e.(pc := Done(Replay(record, e.fingerprint)))]
           && e.key in was.store && record == was.store[e.key].record && s.store == was.store
         case Refused =>
           && s.execs == was.execs[t := e.(pc := Done(Failed))]
           && s.store == (if fare.lock && Misses(cfg, was, e.key, fare.read) && fare.write.Landed?
                          then was.store[e.key := InFlightEntry(e, Idempotency.Claim(id, s.now, s.now + cfg.inFlightTTL))]
                          else was.store)
    }

    /** `claim`: lock, re-read, write the in-flight record, unlock. */
    method Claim(t: Tid, id: ClaimId, lag: nat, fare: Fare) returns (r: Claimed)
      requires Valid() && t in s.execs && s.execs[t].pc.WantClaim? && id !in s.issued
      requires fare.lock ==> s.execs[t].key !in s.locks
      modifies this`trace, this`s
      ensures Valid() && s.locks == old(s.locks) && s.now == old(s.now) + lag
      ensures r.Took? <==> Claims(cfg, old(s), old(s.execs[t].key), fare)
      ensures r.Took? <==> fare.lock && (if fare.read then !old(Visible(s, s.execs[t].key)) else cfg.policy.FailOpen?) && fare.write.Wrote?
      ensures r.Existing? <==> fare.lock && fare.read && old(Visible(s, s.execs[t].key))
      ensures ClaimLeft(old(s), t, id, fare, r)
    {
      if !fare.lock {
        r := Refused;
        Leave(t, Failed, lag);
        return;
      }
      Goto(t, ClaimRead);
      r := ClaimLocked(t, id, lag, fare);
    }

    /** What `claim` does under the lock. */
    method ClaimLocked(t: Tid, id: ClaimId, lag: nat, fare: Fare) returns (r: Claimed)
      requires Valid() && t in s.execs && s.execs[t].pc.ClaimRead? && id !in s.issued && fare.lock
      modifies this`trace, this`s
      ensures Valid() && s.locks == old(s.locks) - {old(s.execs[t].key)} && s.now == old(s.now) + lag
      ensures r.Took? <==> Claims(cfg, old(s), old(s.execs[t].key), fare)
      ensures r.Existing? <==> fare.read && old(Visible(s, s.execs[t].key))
      ensures ClaimLeft(old(s), t, id, fare, r)
    {
      var e := s.execs[t];
      if Misses(cfg, s, e.key, fare.read) {
        Goto(t, ClaimWrite);
        Take(Tick(s.now + lag));
        r := WriteClaim(t, id, fare.write);
      } else {
        r := if fare.read then Existing(s.store[e.key].record) else Refused;
        Leave(t, if fare.read then Replay(s.store[e.key].record, e.fingerprint) else Failed, lag);
      }
    }

    /** The write inside `claim`. */
    method WriteClaim(t: Tid, id: ClaimId, write: WriteResult) returns (r: Claimed)
      requires Valid() && t in s.execs && s.execs[t].pc.ClaimWrite? && id !in s.issued
      modifies this`trace, this`s
      ensures Valid() && s.now == old(s.now) && s.returned == old(s.returned) && s.issued == old(s.issued)[id := t]
      ensures s.locks == old(s.locks) - {old(s.execs[t].key)}
      ensures var e := old(s.execs[t]);
        var c := Idempotency.Claim(id, s.now, s.now + cfg.inFlightTTL);
        && r == (if write.Wrote? then Took(c) else Refused)
        && s.execs == old(s.execs)[t := e.(pc := if write.Wrote? then Running(c) else Done(Failed))]
        && s.store == (if write.Lost? then old(s.store) else old(s.store)[e.key := InFlightEntry(e, c)])
    {
      var e := s.execs[t];
      var c := Idempotency.Claim(id, s.now, s.now + cfg.inFlightTTL);
      r := if write.Wrote? then Took(c) else Refused;
      Take(Step(t, Effect(if write.Wrote? then Running(c) else Done(Failed),
                          if write.Lost? then Keep else Put(InFlightEntry(e, c)), Some(id), None)));
    }

    /** `stillOurs`, under the lock: go on to write only over our own claim. */
    method StillOurs(t: Tid, answered: bool) returns (ours: bool)
      requires Valid() && t in s.execs && s.execs[t].pc.Settling? && s.execs[t].pc.phase.Checking?
      modifies this`trace, this`s
      ensures Valid() && s.store == old(s.store) && s.returned == old(s.returned) && s.issued == old(s.issued) && s.now == old(s.now)
      ensures var e := old(s.execs[t]);
              && ours == (answered && Ours(old(s), e.key, e.pc.claim.id))
              && s.execs == old(s.execs)[t := e.(pc := if ours then e.pc.(phase := Writing) else Done(PlanOutcome(e.pc.plan)))]
              && s.locks == (if ours then old(s.locks)[e.key := t] else old(s.locks) - {e.key})
    {
      var e := s.execs[t];
      ours := answered && Visible(s, e.key) && s.store[e.key].record.claimId == e.pc.claim.id;
      Goto(t, if ours then e.pc.(phase := Writing) else Done(PlanOutcome(e.pc.plan)));
    }

    /** What settling by `t` made of the state `was`, the write having come at this instant. */
    ghost predicate SettleLeft(was: State, t: Tid, fare: Fare)
      reads this
      requires t in was.execs && was.execs[t].pc.Settling?
    {
      var e := was.execs[t];
      && s.returned == was.returned && s.issued == was.issued
      && s.execs == was.execs[t := e.(pc := Done(PlanOutcome(e.pc.plan)))]
      && s.store == (if !(fare.lock && fare.read && Ours(was, e.key, e.pc.claim.id)) || fare.write.Lost? then was.store
                     else match e.pc.plan
                     case Commit(v) => was.store[e.key := CompletedEntry(e, e.pc.claim.id, v, s.now + e.ttl)]
                     case Release(_) => was.store - {e.key})
    }

    /** The lock, the check and the write that `commit` and `release` share. A failure
        is swallowed: the call ends with its answer all the same. */
    method Settle(t: Tid, lag: nat, fare: Fare)
      requires Valid() && t in s.execs && s.execs[t].pc.Settling? && s.execs[t].pc.phase.Waiting?
      requires fare.lock ==> s.execs[t].key !in s.locks
      modifies this
      ensures Valid() && s.locks == old(s.locks) && s.now == old(s.now) + lag && Settles(t) == old(Settles(t)) + 1
      ensures SettleLeft(old(s), t, fare)
    {
      settles := settles[t := Settles(t) + 1];
      if fare.lock {
        Goto(t, s.execs[t].pc.(phase := Checking));
        SettleLocked(t, lag, fare);
      } else {
        Leave(t, PlanOutcome(s.execs[t].pc.plan), lag);
      }
    }

    /** What they do under the lock. */
    method SettleLocked(t: Tid, lag: nat, fare: Fare)
      requires Valid() && t in s.execs && s.execs[t].pc.Settling? && s.execs[t].pc.phase.Checking? && fare.lock
      modifies this`trace, this`s
      ensures Valid() && s.locks == old(s.locks) - {old(s.execs[t].key)} && s.now == old(s.now) + lag
      ensures SettleLeft(old(s), t, fare)
    {
      var ours := StillOurs(t, fare.read);
      Take(Tick(s.now + lag));
      if ours {
        var write := if fare.write.Lost? then Keep else SettleWrite(s, s.execs[t]);
        Take(Step(t, Effect(Done(PlanOutcome(s.execs[t].pc.plan)), write, None, None)));
      }
    }

    /** `invoke`: the work runs unlocked, and the deferred call releases the claim if
        the work did not return. */
    method Invoke(t: Tid, work: WorkResult, lag: Lag, fare: Fare) returns (returned: bool)
      requires Valid() && t in s.execs && s.execs[t].pc.Running?
      requires fare.lock ==> s.execs[t].key !in s.locks
      modifies this
      ensures Valid() && returned == !work.Panicked? && s.locks == old(s.locks) && s.issued == old(s.issued)
      ensures s.returned == Returns(old(s.returned), t, work)
      ensures var e := old(s.execs[t]);
        if returned then
          && s.now == old(s.now) + lag.work && s.store == old(s.store) && Settles(t) == old(Settles(t))
          && s.execs == old(s.execs)[t := e.(pc := Settling(e.pc.claim, PlanFor(cfg, work), Waiting))]
        else
          && s.now == old(s.now) + lag.work + lag.write && Settles(t) == old(Settles(t)) + 1
          && s.execs == old(s.execs)[t := e.(pc := Done(WorkFailed))]
          && s.store == (if fare.lock && fare.read && Ours(old(s).(now := old(s.now) + lag.work), e.key, e.pc.claim.id) && !fare.write.Lost?
                         then old(s.store) - {e.key} else old(s.store))
    {
      returned := false;
      Take(Tick(s.now + lag.work));
      var result := if work.Returned? then Some(work.value) else None;
      Take(Step(t, Effect(Settling(s.execs[t].pc.claim, PlanFor(cfg, work), Waiting), Keep, None, result)));
      if !work.Panicked? { returned := true; }
      if !returned { Settle(t, lag.write, fare); }
    }

    /** The call once it has its claim `c`: run the work, then commit or release. */
    method RunClaimed(t: Tid, work: WorkResult, lag: Lag, settle: Fare)
      requires Valid() && t in s.execs && s.execs[t].pc.Running?
      requires settle.lock ==> s.execs[t].key !in s.locks
      modifies this
      ensures Valid() && s.locks == old(s.locks) && s.issued == old(s.issued)
      ensures s.now == old(s.now) + lag.work + lag.write && Settles(t) == old(Settles(t)) + 1
      ensures s.returned == Returns(old(s.returned), t, work)
      ensures var e := old(s.execs[t]);
        && s.execs == old(s.execs)[t := e.(pc := Done(AnswerOf(work)))]
        && s.store == (if !(settle.lock && settle.read && !settle.write.Lost? && Ours(old(s).(now := old(s.now) + lag.work), e.key, e.pc.claim.id))
                       then old(s.store)
                       else if work.Returned? && cfg.recordable(work.value)
                       then old(s.store)[e.key := CompletedEntry(e, e.pc.claim.id, work.value, s.now + e.ttl)]
                       else old(s.store) - {e.key})
    {
      var returned := Invoke(t, work, lag, settle);
      if returned { Settle(t, lag.write, settle); }
    }

    /** The call once its first read missed: claim, run the work, commit or release. */
    method Execute(t: Tid, id: ClaimId, work: WorkResult, lag: Lag, claim: Fare, settle: Fare) returns (o: Outcome)
      requires Valid() && t in s.execs && s.execs[t].pc.WantClaim? && id !in s.issued
      requires claim.lock || settle.lock ==> s.execs[t].key !in s.locks
      modifies this
      ensures Valid() && s.locks == old(s.locks) && s.issued.Keys <= old(s.issued.Keys) + {id} && old(s.now) <= s.now
      ensures s.execs == old(s.execs)[t := old(s.execs[t]).(pc := Done(o))]
      ensures s.store - {old(s.execs[t].key)} == old(s.store) - {old(s.execs[t].key)}
      ensures claim.lock && claim.read && old(Visible(s, s.execs[t].key)) ==>
                o == Replay(old(s.store[s.execs[t].key]).record, old(s.execs[t].fingerprint)) && s.store == old(s.store)
      ensures !Claims(cfg, old(s), old(s.execs[t].key), claim) ==> Untouched(old(s), s, old(s.execs[t].key), old(s.execs[t].fingerprint), o) && Settles(t) == old(Settles(t))
      ensures Claims(cfg, old(s), old(s.execs[t].key), claim) ==>
                && o == AnswerOf(work) && s.returned == Returns(old(s.returned), t, work) && Settles(t) == old(Settles(t)) + 1
                && Worked(cfg, old(s.now), s, s.execs[t], id, work, lag, settle)
    {
      var r := Claim(t, id, lag.claim, claim);
      match r
      case Took(_) =>
        o := AnswerOf(work);
        RunClaimed(t, work, lag, settle);
      case Existing(record) => o := Replay(record, s.execs[t].fingerprint);
      case Refused => o := Failed;
    }

    /** The unlocked read, which answers most calls. */
    method FirstRead(t: Tid, answered: bool) returns (found: Option<Outcome>)
      requires Valid() && t in s.execs && s.execs[t].pc.Start?
      modifies this`trace, this`s
      ensures Valid()
      ensures found.None? <==> Misses(cfg, old(s), old(s.execs[t].key), answered)
      ensures var e := old(s.execs[t]);
        && (found.Some? ==> found.value == if answered then Replay(old(s.store[e.key]).record, e.fingerprint) else Failed)
        && s == old(s).(execs := old(s.execs)[t := e.(pc := if found.None? then WantClaim else Done(found.value))])
    {
      var e := s.execs[t];
      found := None;
      if !Misses(cfg, s, e.key, answered) {
        found := Some(if answered then Replay(s.store[e.key].record, e.fingerprint) else Failed);
      }
      Goto(t, if found.None? then WantClaim else Done(found.value));
    }

    /** The call up to its first read. */
    method Begin(t: Tid, key: Key, fingerprint: Fingerprint, ttl: int, answered: bool) returns (found: Option<Outcome>)
      requires Valid() && 0 < ttl && t !in s.execs
      modifies this`trace, this`s
      ensures Valid()
      ensures found.None? <==> Misses(cfg, old(s), key, answered)
      ensures found.Some? ==> found.value == if answered then Replay(old(s.store[key]).record, fingerprint) else Failed
      ensures s.now == old(s.now) && s.store == old(s.store) && s.locks == old(s.locks)
      ensures s.issued == old(s.issued) && s.returned == old(s.returned)
      ensures s.execs == old(s.execs)[t := Exec(key, fingerprint, ttl, if found.None? then WantClaim else Done(found.value))]
    {
      Take(Arrive(t, key, fingerprint, ttl));
      found := FirstRead(t, answered);
    }

    /** The call, by cases that the parts above name. */
    method Call(t: Tid, key: Key, fingerprint: Fingerprint, ttl: int, id: ClaimId, work: WorkResult, lag: Lag,
              answered: bool, claim: Fare, settle: Fare)
      returns (o: Outcome)
      requires Valid() && 0 < ttl && t !in s.execs && id !in s.issued
      requires claim.lock || settle.lock ==> key !in s.locks
      modifies this
      ensures Valid() && s.locks == old(s.locks) && s.execs.Keys == old(s.execs.Keys) + {t}
      ensures s.execs[t] == Exec(key, fingerprint, ttl, Done(o))
      ensures s.issued.Keys <= old(s.issued.Keys) + {id}
      ensures old(s.now) <= s.now && s.store - {key} == old(s.store) - {key}
      ensures answered && old(Visible(s, key)) ==> o == Replay(old(s.store[key]).record, fingerprint) && s.store == old(s.store)
      ensures !answered && cfg.policy.FailClosed? ==> o == Failed && s.store == old(s.store)
      ensures !answered && cfg.policy.FailOpen? && claim.lock && claim.read && old(Visible(s, key)) ==>
                o == Replay(old(s.store[key]).record, fingerprint) && s.store == old(s.store)
      ensures Runs(cfg, old(s), key, answered, claim) ==>
                && o == AnswerOf(work) && s.returned == Returns(old(s.returned), t, work) && Settles(t) == old(Settles(t)) + 1
                && Worked(cfg, old(s.now), s, s.execs[t], id, work, lag, settle)
      ensures !Runs(cfg, old(s), key, answered, claim) ==>
                Untouched(old(s), s, key, fingerprint, o) && Settles(t) == old(Settles(t))
    {
      var found := Begin(t, key, fingerprint, ttl, answered);
      if found.Some? {
        o := found.value;
      } else {
        o := Execute(t, id, work, lag, claim, settle);
      }
    }

    /** What a read that was answered makes of a record it finds. */
    lemma ReplayMeans(r: Record, fingerprint: Fingerprint)
      ensures r.fingerprint != fingerprint ==> Replay(r, fingerprint) == Mismatch
      ensures r.fingerprint == fingerprint && r.stage.InFlight? ==> Replay(r, fingerprint) == RefusedInFlight
      ensures r.fingerprint == fingerprint && r.stage.Completed? && r.value.Some? ==> Replay(r, fingerprint) == Replayed(r.value.value)
    {
    }

    method Do(t: Tid, key: Key, fingerprint: Fingerprint, ttl: int, id: ClaimId, work: WorkResult, lag: Lag,
              answered: bool, claim: Fare, settle: Fare)
      returns (o: Outcome)
      requires Valid() && 0 < ttl && t !in s.execs && id !in s.issued
      requires claim.lock || settle.lock ==> key !in s.locks
      modifies this
      ensures Valid() && s.locks == old(s.locks) && s.execs.Keys == old(s.execs.Keys) + {t}
      ensures s.execs[t] == Exec(key, fingerprint, ttl, Done(o))
      ensures s.issued.Keys <= old(s.issued.Keys) + {id}
      ensures old(s.now) <= s.now && s.store - {key} == old(s.store) - {key}
      // A record that the first read finds, or the second if the first failed open, answers the
      // call; a first read that fails under FailClosed ends it.
      ensures old(Visible(s, key)) && (answered || (cfg.policy.FailOpen? && claim.lock && claim.read)) ==>
                var r := old(s.store[key]).record;
                && s.store == old(s.store)
                && (r.fingerprint != fingerprint ==> o == Mismatch)
                && (r.fingerprint == fingerprint && r.stage.InFlight? ==> o == RefusedInFlight)
                && (r.fingerprint == fingerprint && r.stage.Completed? && r.value.Some? ==> o == Replayed(r.value.value))
      ensures !answered && cfg.policy.FailClosed? ==> o == Failed && s.store == old(s.store)
      // The work runs if and only if both reads miss and the claim is taken; it then settles once,
      // and its own answer is returned.
      ensures var missed := if answered then !old(Visible(s, key)) else cfg.policy.FailOpen?;
              var again := if claim.read then !old(Visible(s, key)) else cfg.policy.FailOpen?;
              if missed && claim.lock && again && claim.write.Wrote?
              then && o == (if work.Returned? then Executed(work.value) else WorkFailed)
                   && s.returned == (if work.Returned? then old(s.returned)[t := work.value] else old(s.returned))
                   && Settles(t) == old(Settles(t)) + 1 && s.now == old(s.now) + lag.claim + lag.work + lag.write
              else && s.returned == old(s.returned) && Settles(t) == old(Settles(t))
                   && (o.Failed? || (old(Visible(s, key)) && (o.Mismatch? || o.RefusedInFlight? || o.Replayed?)))
      // Within the claim's window, with the store answering, the key ends recorded or released;
      // otherwise the claim is left to expire.
      ensures o.Executed? || o.WorkFailed? ==>
                if lag.work < cfg.inFlightTTL && settle.lock && settle.read && !settle.write.Lost?
                then if work.Returned? && cfg.recordable(work.value)
                     then key in s.store && s.store[key] == Entry(Record(Completed, fingerprint, id, Some(work.value)), s.now + ttl)
                     else key !in s.store
                else && key in s.store
                     && s.store[key] == Entry(Record(InFlight, fingerprint, id, None), old(s.now) + lag.claim + cfg.inFlightTTL)
    {
      o := Call(t, key, fingerprint, ttl, id, work, lag, answered, claim, settle);
      if old(Visible(s, key)) { ReplayMeans(old(s.store[key]).record, fingerprint); }
      ReplayKinds(old(s), key, fingerprint);
    }

    lemma ReplayKinds(was: State, key: Key, fingerprint: Fingerprint)
      ensures Visible(was, key) ==>
                var o := Replay(was.store[key].record, fingerprint); o.Mismatch? || o.RefusedInFlight? || o.Replayed?
    {
    }

    /** A retry within the TTL of a recorded result gets that result, and the same key
        for another request is reported; a second run needs both reads to fail open. */
    method RetryReplays(t: Tid, u: Tid, key: Key, f: Fingerprint, g: Fingerprint, ttl: int, id: ClaimId, jd: ClaimId,
                        v: Value, other: WorkResult, lag: Lag, pause: nat, answered: bool, claim: Fare, settle: Fare)
      returns (first: Outcome, second: Outcome)
      requires Valid() && 0 < ttl && t != u && t !in s.execs && u !in s.execs && u !in s.returned
      requires id != jd && id !in s.issued && jd !in s.issued && key !in s.locks && !Visible(s, key)
      requires cfg.recordable(v) && lag.work < cfg.inFlightTTL && pause < ttl && other.Returned?
      modifies this
      ensures Valid() && first == Executed(v)
      ensures answered ==> second == (if f == g then Replayed(v) else Mismatch)
      ensures u in s.returned <==> cfg.policy.FailOpen? && !answered && claim.lock && !claim.read && claim.write.Wrote?
    {
      first := Do(t, key, f, ttl, id, Returned(v), lag, true, Fare(true, true, Wrote), Fare(true, true, Wrote));
      Take(Tick(s.now + pause));
      second := Do(u, key, g, ttl, jd, other, lag, answered, claim, settle);
    }
  }
}
