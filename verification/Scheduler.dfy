/** Leased ticks of scheduled jobs: any number of replicas, each tick acquiring a
    lease on its job, running it and releasing it, against a lock service that
    grants a lease only while nobody holds an unexpired one. */
module Scheduler {
  import opened Prelude

  type Key = string
  type Tid = nat

  datatype Lease = Lease(owner: Tid, expires: int)

  datatype Outcome =
    | Skipped | AcquireError                            // the job did not run
    | Released | LeaseExpired | ReleaseError            // it ran

  datatype Pc =
    | Ready
    | Running(at: int, expires: int)
    | Releasing(at: int, expires: int)
    | Ended(outcome: Outcome)

  datatype Tick = Tick(key: Key, ttl: int, pc: Pc)

  /** `ran`, `skipped` and `failed` are what the counters of `tick` count. */
  datatype State = State(now: int, leases: map<Key, Lease>, ticks: map<Tid, Tick>, ran: set<Tid>, skipped: set<Tid>, failed: set<Tid>)

  datatype Action =
    | Clock(now: int)
    | Due(t: Tid, key: Key, ttl: int)
    | Acquire(t: Tid)
    | AcquireFails(t: Tid, landed: bool)
    | Finish(t: Tid)
    | Release(t: Tid)
    | ReleaseFails(t: Tid, landed: bool)

  predicate Live(s: State, k: Key) { k in s.leases && s.now < s.leases[k].expires }

  predicate Owns(s: State, t: Tid) {
    t in s.ticks && Live(s, s.ticks[t].key) && s.leases[s.ticks[t].key].owner == t
  }

  predicate Enabled(s: State, a: Action) {
    match a
    case Clock(now) => s.now <= now
    case Due(t, _, ttl) => t !in s.ticks && 0 < ttl
    case Acquire(t) => t in s.ticks && s.ticks[t].pc.Ready?
    case AcquireFails(t, landed) => t in s.ticks && s.ticks[t].pc.Ready? && (landed ==> !Live(s, s.ticks[t].key))
    case Finish(t) => t in s.ticks && s.ticks[t].pc.Running?
    case Release(t) => t in s.ticks && s.ticks[t].pc.Releasing?
    case ReleaseFails(t, landed) => t in s.ticks && s.ticks[t].pc.Releasing? && (landed ==> Owns(s, t))
  }

  function To(s: State, t: Tid, pc: Pc): State
    requires t in s.ticks
  {
    s.(ticks := s.ticks[t := s.ticks[t].(pc := pc)])
  }

  function Grant(s: State, t: Tid): map<Key, Lease>
    requires t in s.ticks
  {
    s.leases[s.ticks[t].key := Lease(t, s.now + s.ticks[t].ttl)]
  }

  function Next(s: State, a: Action): State
    requires Enabled(s, a)
  {
    match a
    case Clock(now) => s.(now := now)
    case Due(t, k, ttl) => s.(ticks := s.ticks[t := Tick(k, ttl, Ready)])
    case Acquire(t) =>
      if Live(s, s.ticks[t].key) then To(s, t, Ended(Skipped)).(skipped := s.skipped + {t})
      else To(s, t, Running(s.now, s.now + s.ticks[t].ttl)).(leases := Grant(s, t), ran := s.ran + {t})
    case AcquireFails(t, landed) =>
      To(s, t, Ended(AcquireError)).(leases := if landed then Grant(s, t) else s.leases, failed := s.failed + {t})
    case Finish(t) => To(s, t, Releasing(s.ticks[t].pc.at, s.ticks[t].pc.expires))
    case Release(t) =>
      if Owns(s, t) then To(s, t, Ended(Released)).(leases := s.leases - {s.ticks[t].key})
      else To(s, t, Ended(LeaseExpired))
    case ReleaseFails(t, landed) =>
      To(s, t, Ended(ReleaseError)).(leases := if landed then s.leases - {s.ticks[t].key} else s.leases)
  }

  predicate Init(s: State) {
    s.leases == map[] && s.ticks == map[] && s.ran == {} && s.skipped == {} && s.failed == {}
  }

  predicate Run(s: State, actions: seq<Action>)
    decreases |actions|
  {
    actions == [] || (Enabled(s, actions[0]) && Run(Next(s, actions[0]), actions[1..]))
  }

  function After(s: State, actions: seq<Action>): State
    requires Run(s, actions)
    decreases |actions|
  {
    if actions == [] then s else After(Next(s, actions[0]), actions[1..])
  }

  lemma {:induction false} RunExtends(s: State, actions: seq<Action>, a: Action)
    requires Run(s, actions) && Enabled(After(s, actions), a)
    ensures Run(s, actions + [a]) && After(s, actions + [a]) == Next(After(s, actions), a)
    decreases |actions|
  {
    if actions != [] {
      assert (actions + [a])[1..] == actions[1..] + [a];
      RunExtends(Next(s, actions[0]), actions[1..], a);
    } else {
      assert actions + [a] == [a] && Run(Next(s, a), []);
    }
  }

  // --------------------------------------------------------------- invariants

  /** Granted and not yet released. */
  predicate Granted(pc: Pc) { pc.Running? || pc.Releasing? }

  /** The job was started, whether or not it ended. */
  predicate Ran(pc: Pc) {
    Granted(pc) || (pc.Ended? && (pc.outcome.Released? || pc.outcome.LeaseExpired? || pc.outcome.ReleaseError?))
  }

  /** A granted, unexpired lease is the one the lock service records. */
  ghost predicate TickInv(s: State, t: Tid) {
    && (t in s.ticks && Granted(s.ticks[t].pc) ==>
          var k := s.ticks[t].key;
          && s.ticks[t].pc.at <= s.now && s.ticks[t].pc.at < s.ticks[t].pc.expires
          && (s.now < s.ticks[t].pc.expires ==> k in s.leases && s.leases[k] == Lease(t, s.ticks[t].pc.expires))
          && (k in s.leases && s.leases[k].owner == t ==> s.leases[k].expires == s.ticks[t].pc.expires))
    && (t in s.ticks ==> 0 < s.ticks[t].ttl)
    && (forall k :: k in s.leases && s.leases[k].owner == t ==> t in s.ticks && !s.ticks[t].pc.Ready?)
    && (t in s.ran <==> t in s.ticks && Ran(s.ticks[t].pc))
    && (t in s.skipped <==> t in s.ticks && s.ticks[t].pc == Ended(Skipped))
    && (t in s.failed <==> t in s.ticks && s.ticks[t].pc == Ended(AcquireError))
  }

  /** The lease windows of two granted ticks of one job do not intersect. */
  ghost predicate PairInv(s: State, i: Tid, j: Tid) {
    i in s.ticks && j in s.ticks && i != j && s.ticks[i].key == s.ticks[j].key && Granted(s.ticks[i].pc) && Granted(s.ticks[j].pc) ==>
      s.ticks[i].pc.expires <= s.ticks[j].pc.at || s.ticks[j].pc.expires <= s.ticks[i].pc.at
  }

  ghost predicate Inv(s: State) {
    (forall t: Tid :: TickInv(s, t)) && (forall i: Tid, j: Tid :: PairInv(s, i, j))
  }

  lemma StepTick(s: State, a: Action, u: Tid)
    requires Enabled(s, a) && TickInv(s, u) && (!a.Clock? ==> TickInv(s, a.t))
    ensures TickInv(Next(s, a), u)
  {
  }

  lemma StepPair(s: State, a: Action, i: Tid, j: Tid)
    requires Enabled(s, a) && TickInv(s, i) && TickInv(s, j) && PairInv(s, i, j)
    ensures PairInv(Next(s, a), i, j)
  {
  }

  lemma {:induction false} RunKeeps(s: State, actions: seq<Action>)
    requires Inv(s) && Run(s, actions)
    ensures Inv(After(s, actions))
    decreases |actions|
  {
    if actions != [] {
      StepKeeps(s, actions[0]);
      RunKeeps(Next(s, actions[0]), actions[1..]);
    }
  }

  lemma StepKeeps(s: State, a: Action)
    requires Inv(s) && Enabled(s, a)
    ensures Inv(Next(s, a))
  {
    var s1 := Next(s, a);
    if !a.Clock? { assert TickInv(s, a.t); }
    forall u: Tid ensures TickInv(s1, u) { assert TickInv(s, u); StepTick(s, a, u); }
    forall i: Tid, j: Tid ensures PairInv(s1, i, j) {
      assert TickInv(s, i) && TickInv(s, j) && PairInv(s, i, j);
      StepPair(s, a, i, j);
    }
  }

  // ----------------------------------------------------------------- theorems

  ghost predicate Reachable(z: State) {
    exists s, actions :: Init(s) && Run(s, actions) && After(s, actions) == z
  }

  lemma Reached(z: State)
    requires Reachable(z)
    ensures Inv(z)
  {
    var s, actions :| Init(s) && Run(s, actions) && After(s, actions) == z;
    RunKeeps(s, actions);
  }

  ghost predicate Overlap(s: State, i: Tid, j: Tid) {
    i != j && i in s.ticks && j in s.ticks && s.ticks[i].key == s.ticks[j].key && s.ticks[i].pc.Running? && s.ticks[j].pc.Running?
  }

  /** Two runs of one job overlap only after the lease of the one that acquired first
      expired, before the other was granted; within their leases they never do. */
  lemma OverlapNeedsExpiry(z: State, i: Tid, j: Tid)
    requires Reachable(z) && Overlap(z, i, j)
    ensures z.ticks[i].pc.at != z.ticks[j].pc.at
    ensures z.ticks[i].pc.at < z.ticks[j].pc.at ==> z.ticks[i].pc.expires <= z.ticks[j].pc.at <= z.now
    ensures z.ticks[j].pc.at < z.ticks[i].pc.at ==> z.ticks[j].pc.expires <= z.ticks[i].pc.at <= z.now
  {
    Reached(z);
    assert TickInv(z, i) && TickInv(z, j) && PairInv(z, i, j);
  }

  /** If no run outlives its lease, no two runs of one job ever overlap. */
  lemma NoOverlapWithinLeases(z: State, i: Tid, j: Tid)
    requires Reachable(z) && forall t :: t in z.ticks && z.ticks[t].pc.Running? ==> z.now < z.ticks[t].pc.expires
    ensures !Overlap(z, i, j)
  {
    if Overlap(z, i, j) {
      OverlapNeedsExpiry(z, i, j);
    }
  }

  /** An outlived run: granted, and past its lease. It cannot end as released. */
  ghost predicate Outlived(s: State, t: Tid) {
    t in s.ticks && (if s.ticks[t].pc.Ended? then s.ticks[t].pc.outcome.LeaseExpired? || s.ticks[t].pc.outcome.ReleaseError?
                     else Granted(s.ticks[t].pc) && s.ticks[t].pc.expires <= s.now)
  }

  /** The lock service answered the release of this tick, if there was one. */
  predicate Answered(actions: seq<Action>, t: Tid) {
    forall k :: 0 <= k < |actions| ==> !(actions[k].ReleaseFails? && actions[k].t == t)
  }

  lemma {:induction false} OutlivedIsReported(s: State, actions: seq<Action>, t: Tid)
    requires Inv(s) && Run(s, actions) && Outlived(s, t)
    ensures var z := After(s, actions);
      && Outlived(z, t)
      && (z.ticks[t].pc == Ended(ReleaseError) && Answered(actions, t) ==> s.ticks[t].pc == Ended(ReleaseError))
    decreases |actions|
  {
    if actions != [] {
      assert TickInv(s, t);
      StepKeeps(s, actions[0]);
      OutlivedIsReported(Next(s, actions[0]), actions[1..], t);
    }
  }

  /** Of two overlapping runs, the one that acquired first ends counted as
      lease-expired, if the lock service answers its release at all; never as released. */
  lemma OverlapIsReported(s: State, actions: seq<Action>, i: Tid, j: Tid)
    requires Reachable(s) && Overlap(s, i, j) && s.ticks[i].pc.at < s.ticks[j].pc.at && Run(s, actions)
    ensures var z := After(s, actions); i in z.ticks
    ensures var z := After(s, actions);
            z.ticks[i].pc.Ended? ==>
              z.ticks[i].pc.outcome.LeaseExpired? || (z.ticks[i].pc.outcome.ReleaseError? && !Answered(actions, i))
  {
    OverlapNeedsExpiry(s, i, j);
    Reached(s);
    OutlivedIsReported(s, actions, i);
  }

  /** Every tick that asked for its lease was run, skipped or failed, one of them only. */
  lemma EveryTickIsCountedOnce(z: State, t: Tid)
    requires Reachable(z)
    ensures t in z.ticks && !z.ticks[t].pc.Ready? <==> t in z.ran + z.skipped + z.failed
    ensures !(t in z.ran && t in z.skipped) && !(t in z.ran && t in z.failed) && !(t in z.skipped && t in z.failed)
  {
    Reached(z);
    assert TickInv(z, t);
  }

  /** How a tick's lock calls go: whether each is answered, and if not whether it took
      effect all the same. */
  datatype Service = Answers | Fails(landed: bool)

  /** Nothing in `actions` is done by tick `t` itself. */
  predicate Others(actions: seq<Action>, t: Tid) {
    forall k :: 0 <= k < |actions| ==> actions[k].Clock? || actions[k].t != t
  }

  lemma {:induction false} OthersLeave(s: State, actions: seq<Action>, t: Tid)
    requires Run(s, actions) && Others(actions, t) && t in s.ticks
    ensures t in After(s, actions).ticks && After(s, actions).ticks[t] == s.ticks[t]
    decreases |actions|
  {
    if actions != [] {
      assert Others(actions[1..], t);
      OthersLeave(Next(s, actions[0]), actions[1..], t);
    }
  }

  function TtlOf(leaseTTL: int, defaultTTL: int): int { if leaseTTL <= 0 then defaultTTL else leaseTTL }

  /** The state in which a tick that was granted its lease begins its run. */
  function Started(s: State, t: Tid, key: Key, ttl: int): State
    requires t !in s.ticks && 0 < ttl
  {
    Next(Next(s, Due(t, key, ttl)), Acquire(t))
  }

  class Replicas {
    ghost const origin: State
    ghost var trace: seq<Action>
    var s: State

    ghost predicate Valid()
      reads this
    {
      Init(origin) && Run(origin, trace) && s == After(origin, trace)
    }

    constructor (now: int)
      ensures Valid() && s == State(now, map[], map[], {}, {}, {})
    {
      s := State(now, map[], map[], {}, {}, {});
      origin := State(now, map[], map[], {}, {}, {});
      trace := [];
    }

    method Act(a: Action)
      requires Valid() && Enabled(s, a)
      modifies this
      ensures Valid() && s == Next(old(s), a)
    {
      RunExtends(origin, trace, a);
      trace := trace + [a];
      s := Next(s, a);
    }

    lemma Facts(t: Tid)
      requires Valid()
      ensures TickInv(s, t)
    {
      assert Reachable(s);
      Reached(s);
    }

    /** What everybody else and the clock do while a job runs. */
    method Interleave(meanwhile: seq<Action>)
      requires Valid() && Run(s, meanwhile)
      modifies this
      ensures Valid() && s == After(old(s), meanwhile)
    {
      var i := 0;
      assert meanwhile[i..] == meanwhile;
      while i < |meanwhile|
        invariant 0 <= i <= |meanwhile| && Valid()
        invariant Run(s, meanwhile[i..]) && After(s, meanwhile[i..]) == After(old(s), meanwhile)
      {
        assert meanwhile[i..][1..] == meanwhile[i + 1..];
        Act(meanwhile[i]);
        i := i + 1;
      }
    }

    /** `tick`, with any actions of other ticks while the job runs: skipped exactly when
        another holder's lease is live, and lease-expired exactly when the run took as long
        as its lease or longer, the job's own TTL or the default. */
    method RunTick(t: Tid, key: Key, leaseTTL: int, defaultTTL: int, meanwhile: seq<Action>, acquire: Service, release: Service)
      returns (o: Outcome)
      requires Valid() && t !in s.ticks && 0 < defaultTTL
      requires acquire.Fails? && acquire.landed ==> !Live(s, key)
      requires Others(meanwhile, t) && (acquire.Answers? && !Live(s, key) ==>
                 var busy := Started(s, t, key, TtlOf(leaseTTL, defaultTTL));
                 && Run(busy, meanwhile)
                 && (release.Fails? && release.landed ==> After(busy, meanwhile).now < s.now + TtlOf(leaseTTL, defaultTTL)))
      modifies this
      ensures Valid() && t in s.ticks && s.ticks[t].key == key && s.ticks[t].pc == Ended(o)
      ensures 0 < leaseTTL ==> s.ticks[t].ttl == leaseTTL
      ensures leaseTTL <= 0 ==> s.ticks[t].ttl == defaultTTL
      ensures o.LeaseExpired? <==>
        && acquire.Answers? && !old(Live(s, key)) && release.Answers?
        && (if 0 < leaseTTL then leaseTTL <= s.now - old(s.now) else defaultTTL <= s.now - old(s.now))
      ensures
        && (o.AcquireError? <==> acquire.Fails?)
        && (o.Skipped? <==> acquire.Answers? && old(Live(s, key)))
        && (o.ReleaseError? <==> acquire.Answers? && !old(Live(s, key)) && release.Fails?)
        && (o.Released? ==> key !in s.leases)
        && (t in s.ran <==> acquire.Answers? && !old(Live(s, key)))
      ensures o.Skipped? ==> s.leases == old(s.leases)
    {
      var granted := Lock(t, key, TtlOf(leaseTTL, defaultTTL), acquire);
      if granted {
        o := Execute(t, meanwhile, release);
      } else {
        o := s.ticks[t].pc.outcome;
      }
      Facts(t);
    }

    /** The acquisition of a lease. */
    method Lock(t: Tid, key: Key, ttl: int, acquire: Service) returns (granted: bool)
      requires Valid() && t !in s.ticks && 0 < ttl
      requires acquire.Fails? && acquire.landed ==> !Live(s, key)
      modifies this
      ensures Valid() && s.now == old(s.now) && (t in s.ran <==> granted)
      ensures granted <==> acquire.Answers? && !old(Live(s, key))
      ensures granted ==> s == Started(old(s), t, key, ttl)
      ensures s.ticks == old(s.ticks)[t := Tick.Tick(key, ttl,
        if granted then Running(s.now, s.now + ttl) else Ended(if acquire.Fails? then AcquireError else Skipped))]
      ensures s.leases == if granted || (acquire.Fails? && acquire.landed) then old(s.leases)[key := Lease(t, s.now + ttl)] else old(s.leases)
    {
      Facts(t);
      Act(Due(t, key, ttl));
      Act(if acquire.Fails? then AcquireFails(t, acquire.landed) else Acquire(t));
      granted := s.ticks[t].pc.Running?;
    }

    /** The run under the lease just granted, and the deferred release. */
    method Execute(t: Tid, meanwhile: seq<Action>, release: Service) returns (o: Outcome)
      requires Valid() && t in s.ticks && s.ticks[t].pc.Running? && Run(s, meanwhile) && Others(meanwhile, t)
      requires release.Fails? && release.landed ==> After(s, meanwhile).now < s.ticks[t].pc.expires
      modifies this
      ensures Valid() && s.now == After(old(s), meanwhile).now
      ensures t in s.ticks && s.ticks[t] == old(s.ticks[t]).(pc := Ended(o))
      ensures o.ReleaseError? <==> release.Fails?
      ensures o.LeaseExpired? <==> release.Answers? && old(s.ticks[t].pc).expires <= s.now
      ensures o.Released? <==> release.Answers? && s.now < old(s.ticks[t].pc).expires
      ensures o.Released? ==> old(s.ticks[t].key) !in s.leases
      ensures s.leases == After(old(s), meanwhile).leases -
                          if o.Released? || (release.Fails? && release.landed) then {old(s.ticks[t].key)} else {}
    {
      OthersLeave(s, meanwhile, t);
      Interleave(meanwhile);
      Facts(t);
      assert Owns(s, t) <==> s.now < s.ticks[t].pc.expires;
      Act(Finish(t));
      Act(if release.Fails? then ReleaseFails(t, release.landed) else Release(t));
      o := s.ticks[t].pc.outcome;
    }
  }
}
