/** The code of the pool's workers and of its shutdown. Each method carries out actions
    of the protocol in `Pool`, so whatever is true of every run is true of it. */
module PoolWorkers {
  import opened Prelude
  import opened Pool

  class Workers {
    const cfg: Config
    var s: State
    ghost var trace: seq<Action>

    ghost predicate Valid()
      reads this
    {
      Run(cfg, NewState(cfg), trace) && s == After(cfg, NewState(cfg), trace)
    }

    constructor (cfg: Config)
      ensures Valid() && this.cfg == cfg && s == NewState(cfg)
    {
      this.cfg := cfg;
      s := NewState(cfg);
      trace := [];
    }

    lemma Facts()
      requires Valid()
      ensures Inv(cfg, s)
    {
      assert Reachable(cfg, s);
      Reached(cfg, s);
    }

    method Act(a: Action)
      requires Valid() && Enabled(s, a)
      modifies this
      ensures Valid() && s == Next(cfg, old(s), a)
    {
      RunExtends(cfg, NewState(cfg), trace, a);
      trace := trace + [a];
      s := Next(cfg, s, a);
    }

    /** `process`: run the handler as often as the retry policy asks, `results` being how
        each attempt went, then count the message or retire it. */
    method Process(w: Wid, results: seq<bool>, delivered: bool) returns (attempts: nat, o: Outcome)
      requires Valid() && w < |s.workers| && s.workers[w].Holding? && s.workers[w].attempts == 0 && !s.workers[w].ok
      requires forall k :: 0 <= k < |results| - 1 ==> !results[k]
      modifies this
      ensures Valid() && attempts == |results|
      ensures o.Processed? <==> true in results
      ensures o.Dropped? <==> true !in results && !cfg.deadLetters
      ensures o.DeadLettered? <==> true !in results && cfg.deadLetters && delivered
      ensures o.DeadLetterFailed? <==> true !in results && cfg.deadLetters && !delivered
      ensures var i := old(s.workers[w].message);
        s == old(s).(workers := old(s.workers)[w := Idle], submits := old(s.submits)[i := Accepted(w, Some(o))],
                     ended := old(s.ended) + multiset{i})
    {
      attempts := 0;
      var i := s.workers[w].message;
      while attempts < |results|
        invariant attempts <= |results| && Valid()
        invariant s == old(s).(workers := old(s.workers)[w := Holding(i, attempts, attempts > 0 && results[attempts - 1])])
      {
        Act(Attempt(w, results[attempts]));
        attempts := attempts + 1;
      }
      assert results == [] || (true in results <==> results[|results| - 1]);
      o := OutcomeOf(cfg, s.workers[w].ok, delivered);
      Act(Conclude(w, delivered));
    }

    /** Shutdown is never stuck: from any point of any run, with any messages held and any
        `submit` still blocked, stopping, waiting out the consumer, finishing what is held
        and retiring the workers in `Run`'s order brings the pool to done, with every
        accepted message ended exactly once. */
    method Drain()
      requires Valid()
      modifies this
      ensures Valid() && s.run.Finished? && s.stop
      ensures forall i :: i in old(s.submits) && old(s.submits[i]).Accepted? ==>
        i in s.submits && s.submits[i].Accepted? && s.submits[i].outcome.Some? && s.ended[i] == 1
      ensures forall i :: i in s.submits ==> i in old(s.submits)
    {
      Facts();
      Act(Close);
      if s.run.Serving? {
        Act(RunStep);
      }
      Act(ConsumerReturns);
      if s.run.AwaitConsumer? {
        Act(RunStep);
      }
      RetireAll();
      if s.run.AwaitWorkers? {
        Act(RunStep);
      }
      assert Reachable(cfg, s);
      forall i | i in s.submits && s.submits[i].Accepted?
        ensures s.submits[i].outcome.Some? && s.ended[i] == 1
      {
        DrainIsComplete(cfg, s, i);
      }
    }

    ghost predicate SameAccepted(before: map<Sid, Submit>)
      reads this
    {
      s.submits.Keys == before.Keys && forall i :: i in before ==> s.submits[i].Accepted? == before[i].Accepted?
    }

    method RetireAll()
      requires Valid() && NoMoreWork(s)
      modifies this
      ensures Valid() && s.run == old(s.run) && s.stop == old(s.stop) && SameAccepted(old(s.submits))
      ensures forall w :: 0 <= w < |s.workers| ==> s.workers[w].Exited?
    {
      var w := 0;
      while w < |s.workers|
        invariant w <= |s.workers| == |old(s.workers)| && Valid()
        invariant s.run == old(s.run) && s.stop == old(s.stop) && SameAccepted(old(s.submits))
        invariant forall v :: 0 <= v < w ==> s.workers[v].Exited?
      {
        Retire(w);
        w := w + 1;
      }
    }

    method Retire(w: Wid)
      requires Valid() && NoMoreWork(s) && w < |s.workers|
      modifies this
      ensures Valid() && s.run == old(s.run) && s.stop == old(s.stop) && SameAccepted(old(s.submits))
      ensures s.workers == old(s.workers)[w := Exited]
    {
      Facts();
      assert WorkerInv(s, w);
      if s.workers[w].Holding? {
        Act(Conclude(w, true));
      }
      if s.workers[w].Idle? {
        Act(Exit(w));
      }
    }
  }
}
