/** What the idempotency protocol guarantees over whole runs. */
module IdempotencySafety {
  import opened Prelude
  import opened Idempotency

  /** A run from an empty store. */
  predicate Started(cfg: Config, s: State, actions: seq<Action>) {
    Init(s) && Run(cfg, s, actions)
  }

  lemma Reached(cfg: Config, s: State, actions: seq<Action>)
    requires Sound(cfg) && Started(cfg, s, actions)
    ensures Inv(cfg, After(cfg, s, actions))
  {
    RunKeeps(cfg, s, actions);
  }

  /** Two runs of the work on one key are in progress together only if the claim of
      one had already expired when the other was granted. */
  lemma OverlapOnlyAfterExpiry(cfg: Config, s: State, actions: seq<Action>, i: Tid, j: Tid)
    requires Sound(cfg) && Started(cfg, s, actions)
    requires var z := After(cfg, s, actions);
             i in z.execs && j in z.execs && i != j && z.execs[i].key == z.execs[j].key
             && z.execs[i].pc.Running? && z.execs[j].pc.Running?
    ensures var z := After(cfg, s, actions);
            var c, d := z.execs[i].pc.claim, z.execs[j].pc.claim;
            (c.at < d.at && c.expires <= d.at <= z.now) || (d.at < c.at && d.expires <= c.at <= z.now)
  {
    Reached(cfg, s, actions);
    var z := After(cfg, s, actions);
    assert PairInv(z, i, j) && ExecInv(cfg, z, i) && ExecInv(cfg, z, j);
  }

  /** The work starts only in the step that wrote a fresh in-flight record into a
      slot where nothing was visible. */
  lemma WorkStartsWithClaim(cfg: Config, s: State, actions: seq<Action>, a: Action, t: Tid)
    requires Sound(cfg) && Started(cfg, s, actions) && Enabled(cfg, After(cfg, s, actions), a)
    requires var z := After(cfg, s, actions); var z1 := Next(cfg, z, a);
             t in z1.execs && z1.execs[t].pc.Running? && !(t in z.execs && z.execs[t].pc.Running?)
    ensures var z := After(cfg, s, actions); var z1 := Next(cfg, z, a);
            var e := z1.execs[t]; var c := e.pc.claim;
            && !Visible(z, e.key) && c.id !in z.issued && z1.issued[c.id] == t
            && e.key in z.locks && z.locks[e.key] == t
            && Visible(z1, e.key) && z1.store[e.key] == Entry(Record(InFlight, e.fingerprint, c.id, None), z.now + cfg.inFlightTTL)
  {
    Reached(cfg, s, actions);
    var z := After(cfg, s, actions);
    assert ExecInv(cfg, z, t);
  }

  /** Whatever changes a slot, nothing was visible there, or the visible record was
      the unsettled claim of the execution that changed it. */
  lemma ForeignRecordsUntouched(cfg: Config, s: State, actions: seq<Action>, a: Action, k: Key)
    requires Sound(cfg) && Started(cfg, s, actions) && Enabled(cfg, After(cfg, s, actions), a)
    requires var z := After(cfg, s, actions); Visible(z, k)
    requires var z := After(cfg, s, actions); var z1 := Next(cfg, z, a);
             k !in z1.store || z1.store[k] != z.store[k]
    ensures var z := After(cfg, s, actions);
            && a.Step? && a.t in z.execs && z.execs[a.t].key == k && Active(z.execs[a.t].pc)
            && z.store[k] == InFlightEntry(z.execs[a.t], z.execs[a.t].pc.claim)
  {
    Reached(cfg, s, actions);
    var z := After(cfg, s, actions);
    if a.Step? {
      assert ExecInv(cfg, z, a.t);
    }
  }

  /** How often `t` carries out the write of `commit` or the delete of `release`. */
  function Settlements(cfg: Config, s: State, actions: seq<Action>, t: Tid): nat
    requires Run(cfg, s, actions)
    decreases |actions|
  {
    if actions == [] then 0
    else
      (if actions[0].Step? && actions[0].t == t && s.execs[t].pc.Settling? && s.execs[t].pc.phase.Writing? then 1 else 0)
      + Settlements(cfg, Next(cfg, s, actions[0]), actions[1..], t)
  }

  /** A claim is committed or released at most once, whatever else happens. */
  lemma {:induction false} SettledAtMostOnce(cfg: Config, s: State, actions: seq<Action>, t: Tid)
    requires Run(cfg, s, actions)
    ensures Settlements(cfg, s, actions, t) <= 1
    ensures t in s.execs && s.execs[t].pc.Done? ==> Settlements(cfg, s, actions, t) == 0
    decreases |actions|
  {
    if actions != [] {
      SettledAtMostOnce(cfg, Next(cfg, s, actions[0]), actions[1..], t);
    }
  }

  lemma {:induction false} ClockAdvances(cfg: Config, s: State, actions: seq<Action>)
    requires Run(cfg, s, actions)
    ensures s.now <= After(cfg, s, actions).now
    decreases |actions|
  {
    if actions != [] {
      ClockAdvances(cfg, Next(cfg, s, actions[0]), actions[1..]);
    }
  }

  predicate CompletedAt(s: State, k: Key, entry: Entry) {
    Visible(s, k) && s.store[k] == entry && entry.record.stage.Completed?
  }

  lemma CommittedSurvivesStep(cfg: Config, s: State, a: Action, k: Key, entry: Entry)
    requires Sound(cfg) && Inv(cfg, s) && Enabled(cfg, s, a)
    requires CompletedAt(s, k, entry) && Next(cfg, s, a).now < entry.expires
    ensures CompletedAt(Next(cfg, s, a), k, entry)
  {
    if a.Step? {
      assert ExecInv(cfg, s, a.t);
    }
  }

  /** Once a result is committed no execution changes or deletes it before its TTL. */
  lemma {:induction false} CommittedIsStable(cfg: Config, s: State, actions: seq<Action>, k: Key, entry: Entry)
    requires Sound(cfg) && Inv(cfg, s) && Run(cfg, s, actions)
    requires CompletedAt(s, k, entry) && After(cfg, s, actions).now < entry.expires
    ensures CompletedAt(After(cfg, s, actions), k, entry)
    decreases |actions|
  {
    if actions != [] {
      var s1 := Next(cfg, s, actions[0]);
      ClockAdvances(cfg, s1, actions[1..]);
      CommittedSurvivesStep(cfg, s, actions[0], k, entry);
      ActionKeeps(cfg, s, actions[0]);
      CommittedIsStable(cfg, s1, actions[1..], k, entry);
    }
  }

  /** Not yet granted a claim: the work of this execution has not started. */
  predicate Unclaimed(pc: Pc) {
    pc.Start? || pc.WantClaim? || pc.ClaimRead? || pc.ClaimWrite?
  }

  /** What `Do` may answer while `entry` stands: its value to the same request, a
      mismatch to another one, or a failure. */
  predicate AnsweredBy(e: Exec, entry: Entry) {
    || Unclaimed(e.pc)
    || e.pc == Done(Failed)
    || e.pc == Done(Crashed)
    || (e.pc.Done? && if e.fingerprint == entry.record.fingerprint
                      then entry.record.value.Some? && e.pc.outcome == Replayed(entry.record.value.value)
                      else e.pc.outcome == Mismatch)
  }

  lemma AnswerStep(cfg: Config, s: State, a: Action, k: Key, entry: Entry, t: Tid)
    requires Sound(cfg) && Inv(cfg, s) && Enabled(cfg, s, a) && CompletedAt(s, k, entry)
    requires t in s.execs && s.execs[t].key == k && AnsweredBy(s.execs[t], entry)
    ensures t in Next(cfg, s, a).execs && Next(cfg, s, a).execs[t].key == k && AnsweredBy(Next(cfg, s, a).execs[t], entry)
  {
    assert ExecInv(cfg, s, t) && KeyInv(cfg, s, k);
  }

  /** While a committed result stands, an execution that has not claimed yet never
      runs the work: it replays that value, reports a mismatch or fails. */
  lemma {:induction false} CommittedAnswersEveryone(cfg: Config, s: State, actions: seq<Action>, k: Key, entry: Entry, t: Tid)
    requires Sound(cfg) && Inv(cfg, s) && Run(cfg, s, actions)
    requires CompletedAt(s, k, entry) && After(cfg, s, actions).now < entry.expires
    requires t in s.execs ==> s.execs[t].key == k && AnsweredBy(s.execs[t], entry)
    requires t in After(cfg, s, actions).execs && After(cfg, s, actions).execs[t].key == k
    ensures AnsweredBy(After(cfg, s, actions).execs[t], entry)
    decreases |actions|
  {
    if actions != [] {
      var s1 := Next(cfg, s, actions[0]);
      ClockAdvances(cfg, s1, actions[1..]);
      CommittedSurvivesStep(cfg, s, actions[0], k, entry);
      ActionKeeps(cfg, s, actions[0]);
      if t in s.execs {
        AnswerStep(cfg, s, actions[0], k, entry, t);
      } else if t in s1.execs {
        KeyStays(cfg, s1, actions[1..], t);
      }
      CommittedAnswersEveryone(cfg, s1, actions[1..], k, entry, t);
    }
  }

  /** What `Do` may answer while the execution `h` holds its claim: it is refused, told of
      a mismatch if it asks for something else, or fails. */
  predicate RefusedBy(e: Exec, h: Exec) {
    || Unclaimed(e.pc)
    || e.pc == Done(Failed)
    || e.pc == Done(Crashed)
    || e.pc == Done(if e.fingerprint == h.fingerprint then RefusedInFlight else Mismatch)
  }

  lemma RefuseStep(cfg: Config, s: State, a: Action, h: Tid, t: Tid)
    requires Sound(cfg) && Inv(cfg, s) && Enabled(cfg, s, a) && t != h
    requires h in s.execs && Active(s.execs[h].pc) && s.now < s.execs[h].pc.claim.expires
    requires t in s.execs && s.execs[t].key == s.execs[h].key && RefusedBy(s.execs[t], s.execs[h])
    ensures RefusedBy(Next(cfg, s, a).execs[t], s.execs[h])
  {
    assert ExecInv(cfg, s, t) && ExecInv(cfg, s, h);
  }

  lemma HolderStays(cfg: Config, s: State, a: Action, h: Tid)
    requires Enabled(cfg, s, a) && h in s.execs && Active(s.execs[h].pc)
    ensures h in Next(cfg, s, a).execs
    ensures var e, f := s.execs[h], Next(cfg, s, a).execs[h];
      && f.key == e.key && f.fingerprint == e.fingerprint
      && if Active(f.pc) then f.pc.claim == e.pc.claim else f.pc.Done?
  {
  }

  lemma {:induction false} DoneStays(cfg: Config, s: State, actions: seq<Action>, h: Tid)
    requires Run(cfg, s, actions) && h in s.execs && s.execs[h].pc.Done?
    ensures h in After(cfg, s, actions).execs && After(cfg, s, actions).execs[h].pc.Done?
    decreases |actions|
  {
    if actions != [] { DoneStays(cfg, Next(cfg, s, actions[0]), actions[1..], h); }
  }

  /** While some execution holds an unexpired claim, whatever it is doing, any other call
      on its key that has no claim yet is refused as in flight, told of a mismatch if it
      asks for something else, or fails; it never runs the work. */
  lemma {:induction false} ClaimAnswersEveryone(cfg: Config, s: State, actions: seq<Action>, h: Tid, t: Tid)
    requires Sound(cfg) && Inv(cfg, s) && Run(cfg, s, actions) && t != h
    requires h in s.execs && Active(s.execs[h].pc)
    requires var z := After(cfg, s, actions); h in z.execs && Active(z.execs[h].pc) && z.now < s.execs[h].pc.claim.expires
    requires t in s.execs ==> s.execs[t].key == s.execs[h].key && RefusedBy(s.execs[t], s.execs[h])
    requires t in After(cfg, s, actions).execs && After(cfg, s, actions).execs[t].key == s.execs[h].key
    ensures RefusedBy(After(cfg, s, actions).execs[t], s.execs[h])
    decreases |actions|
  {
    if actions != [] {
      var s1 := Next(cfg, s, actions[0]);
      ClockAdvances(cfg, s, actions);
      HolderStays(cfg, s, actions[0], h);
      if s1.execs[h].pc.Done? { DoneStays(cfg, s1, actions[1..], h); }
      ActionKeeps(cfg, s, actions[0]);
      if t in s.execs {
        RefuseStep(cfg, s, actions[0], h, t);
      } else if t in s1.execs {
        KeyStays(cfg, s1, actions[1..], t);
      }
      ClaimAnswersEveryone(cfg, s1, actions[1..], h, t);
    }
  }

  lemma {:induction false} KeyStays(cfg: Config, s: State, actions: seq<Action>, t: Tid)
    requires Run(cfg, s, actions) && t in s.execs
    ensures t in After(cfg, s, actions).execs
    ensures After(cfg, s, actions).execs[t].key == s.execs[t].key
    ensures After(cfg, s, actions).execs[t].fingerprint == s.execs[t].fingerprint
    decreases |actions|
  {
    if actions != [] {
      KeyStays(cfg, Next(cfg, s, actions[0]), actions[1..], t);
    }
  }

  /** A replayed value is what a recordable run of the work returned, under the same
      key and for the same fingerprint. */
  lemma ReplayHasSource(cfg: Config, s: State, actions: seq<Action>, t: Tid)
    requires Sound(cfg) && Started(cfg, s, actions)
    requires t in After(cfg, s, actions).execs
    requires After(cfg, s, actions).execs[t].pc.Done? && After(cfg, s, actions).execs[t].pc.outcome.Replayed?
    ensures var z := After(cfg, s, actions); var e := z.execs[t];
            exists r :: Produced(cfg, z, r, e.key, e.fingerprint, e.pc.outcome.value)
  {
    Reached(cfg, s, actions);
    assert ExecInv(cfg, After(cfg, s, actions), t);
  }
}
