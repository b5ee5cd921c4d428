/** When a calendar job fires: the loop that waits for its next fire time, and the batch
    registration before it. Times and durations are integers. */
module Cadence {
  import opened Prelude

  /** `Schedule.Next`, with None for the zero time. */
  type Schedule = int -> Option<int>

  /** No due time comes later than `t` and before `x`, itself due. */
  ghost predicate First(due: int -> bool, t: int, x: int) {
    t < x && due(x) && forall y :: t < y < x ==> !due(y)
  }

  /** The documented contract of a schedule whose fire times are `due`. */
  ghost predicate Follows(next: Schedule, due: int -> bool) {
    forall t :: match next(t)
      case Some(x) => First(due, t, x)
      case None => forall y :: t < y ==> !due(y)
  }

  /** `window`: the time until the fire after `t`, zero when it is the last. */
  function Window(next: Schedule, t: int): int {
    match next(t) case None => 0 case Some(x) => x - t
  }

  /** How one turn of the loop goes: how long after the last tick the clock is read, how
      late the wait ends, and how long acquiring, running and releasing take. */
  datatype Turn = Turn(idle: nat, late: nat, acquire: nat, run: nat, release: nat, granted: bool)

  /** One tick: the reading of the clock that led to it, the instant it was for, when it
      began and ended, and whether the run was counted as an overrun. */
  datatype Firing = Firing(onStart: bool, read: int, at: int, began: int, ended: int, run: Option<nat>, overran: bool)

  /** `tick` and `execute`, begun at `now` for the instant `at`. */
  function Tick(next: Schedule, onStart: bool, read: int, at: int, now: int, turn: Turn): Firing {
    if turn.granted then
      var window := Window(next, at);
      Firing(onStart, read, at, now, now + turn.acquire + turn.run + turn.release, Some(turn.run), window > 0 && turn.run > window)
    else Firing(onStart, read, at, now, now + turn.acquire, None, false)
  }

  // ------------------------------------------------------------- what a log is

  /** When the loop was last free before firing `i`. */
  function FreeAt(start: int, log: seq<Firing>, i: nat): int
    requires i <= |log|
  {
    if i == 0 then start else log[i - 1].ended
  }

  ghost predicate Fires(next: Schedule, start: int, log: seq<Firing>, i: nat)
    requires i < |log|
  {
    var f := log[i];
    && FreeAt(start, log, i) <= f.read && (if f.onStart then i == 0 && f.read == f.at == start else next(f.read) == Some(f.at))
    && f.at <= f.began && f.read <= f.began
    && f.began + (if f.run.Some? then f.run.value else 0) <= f.ended
    && (f.overran <==> f.run.Some? && next(f.at).Some? && 0 < next(f.at).value - f.at < f.run.value)
  }

  /** `log` is what one run of the loop did, for whatever schedule. */
  ghost predicate Logged(next: Schedule, start: int, log: seq<Firing>) {
    forall i :: 0 <= i < |log| ==> Fires(next, start, log, i)
  }

  lemma LogGrows(next: Schedule, start: int, log: seq<Firing>, f: Firing)
    requires Logged(next, start, log) && Fires(next, start, log + [f], |log|)
    ensures Logged(next, start, log + [f])
  {
    var more := log + [f];
    forall i | 0 <= i < |more| ensures Fires(next, start, more, i) {
      if i < |log| { assert Fires(next, start, log, i); }
    }
  }

  /** `runScheduled`, until stopped or until the schedule has no fire time left. The wait
      for an instant that is not ahead of the clock is over at once. */
  method RunScheduled(next: Schedule, start: int, onStart: Option<Turn>, turns: seq<Turn>)
    returns (log: seq<Firing>, exhausted: Option<int>)
    ensures Logged(next, start, log)
    ensures onStart.Some? <==> log != [] && log[0].onStart
    ensures exhausted.Some? ==> FreeAt(start, log, |log|) <= exhausted.value && next(exhausted.value).None?
    ensures exhausted.None? ==> |log| == |turns| + if onStart.Some? then 1 else 0
  {
    log, exhausted := [], None;
    var now := start;
    if onStart.Some? {
      log := [Tick(next, true, now, now, now, onStart.value)];
      now := log[0].ended;
    }
    ghost var opening := |log|;
    var i := 0;
    while i < |turns|
      invariant 0 <= i <= |turns| && |log| == opening + i && (opening == 0 || log[0].onStart)
      invariant Logged(next, start, log) && now == FreeAt(start, log, |log|)
      invariant forall j :: opening <= j < |log| ==> !log[j].onStart
    {
      var read := now + turns[i].idle;
      var at := next(read);
      if at.None? {
        return log, Some(read);
      }
      now := if at.value - read > 0 then at.value + turns[i].late else read;
      var f := Tick(next, false, read, at.value, now, turns[i]);
      LogGrows(next, start, log, f);
      log := log + [f];
      now := f.ended;
      i := i + 1;
    }
  }

  // ----------------------------------------------------------------- theorems

  /** Ticks of one job on one replica come one after the other, and no instant is
      fired twice. */
  lemma {:induction false} InOrder(next: Schedule, due: int -> bool, start: int, log: seq<Firing>, i: nat, j: nat)
    requires Follows(next, due) && Logged(next, start, log) && i < j < |log|
    ensures log[i].ended <= log[j].read && log[i].at <= log[i].ended && log[i].at < log[j].at
    decreases j
  {
    assert Fires(next, start, log, i) && Fires(next, start, log, j) && Fires(next, start, log, j - 1);
    if i < j - 1 {
      InOrder(next, due, start, log, i, j - 1);
    }
    assert First(due, log[j].read, log[j].at);
  }

  ghost predicate Fired(log: seq<Firing>, x: int) {
    exists i :: 0 <= i < |log| && !log[i].onStart && log[i].at == x
  }

  function LastInstant(start: int, log: seq<Firing>, i: nat): int
    requires i <= |log|
  {
    if i == 0 then start else log[i - 1].at
  }

  /** The loop was away at `x`: after firing for an earlier instant, and before it read
      the clock again. */
  ghost predicate Missed(start: int, log: seq<Firing>, x: int) {
    exists i :: 0 <= i < |log| && LastInstant(start, log, i) < x <= log[i].read
  }

  /** Which firing's wait covers `x`. */
  lemma {:induction false} Covers(start: int, log: seq<Firing>, x: int) returns (i: nat)
    requires log != [] && start < x <= log[|log| - 1].at
    ensures i < |log| && LastInstant(start, log, i) < x <= log[i].at
    decreases |log|
  {
    i := |log| - 1;
    if i > 0 && x <= log[i - 1].at {
      i := Covers(start, log[..i], x);
    }
  }

  lemma FiredIsNotMissed(next: Schedule, due: int -> bool, start: int, log: seq<Firing>, i: nat, j: nat)
    requires Follows(next, due) && Logged(next, start, log) && i < |log| && j < |log| && !log[i].onStart
    ensures !(LastInstant(start, log, j) < log[i].at <= log[j].read)
  {
    assert Fires(next, start, log, i) && Fires(next, start, log, j);
    assert First(due, log[i].read, log[i].at);
    if j < i {
      InOrder(next, due, start, log, j, i);
      assert log[j].read <= log[j].ended;
    } else if i + 1 < j {
      InOrder(next, due, start, log, i, j - 1);
    }
  }

  /** Fire times are coalesced and never dropped otherwise: up to the last one fired, a
      fire time is fired if and only if it did not pass while the loop was away. */
  lemma FiredUnlessMissed(next: Schedule, due: int -> bool, start: int, log: seq<Firing>, x: int)
    requires Follows(next, due) && Logged(next, start, log) && log != []
    requires start < x <= log[|log| - 1].at && due(x)
    ensures Fired(log, x) <==> !Missed(start, log, x)
  {
    var i := Covers(start, log, x);
    assert Fires(next, start, log, i);
    if log[i].read < x {
      assert First(due, log[i].read, log[i].at) && log[i].at == x;
    }
    if Fired(log, x) && Missed(start, log, x) {
      var k :| 0 <= k < |log| && !log[k].onStart && log[k].at == x;
      var j :| 0 <= j < |log| && LastInstant(start, log, j) < x <= log[j].read;
      FiredIsNotMissed(next, due, start, log, k, j);
      assert false;
    }
  }

  /** Nothing but the schedule's own instants is ever fired for. */
  lemma FiresOnlyWhenDue(next: Schedule, due: int -> bool, start: int, log: seq<Firing>, x: int)
    requires Follows(next, due) && Logged(next, start, log) && Fired(log, x)
    ensures due(x) && start < x
  {
    var i :| 0 <= i < |log| && !log[i].onStart && log[i].at == x;
    assert Fires(next, start, log, i) && First(due, log[i].read, x);
    if i > 0 {
      InOrder(next, due, start, log, 0, i);
      assert Fires(next, start, log, 0);
    }
  }

  /** The instant after one that fired is fired next if and only if the clock was read
      before it; a run counted as an overrun always cost it. */
  lemma OverrunCostsAFireTime(next: Schedule, due: int -> bool, start: int, log: seq<Firing>, i: nat)
    requires Follows(next, due) && Logged(next, start, log) && i + 1 < |log|
    requires next(log[i].at).Some?
    ensures var y := next(log[i].at).value;
      && (Fired(log, y) <==> log[i + 1].read < y)
      && (log[i + 1].read < y <==> log[i + 1].at == y)
      && (log[i].overran ==> !Fired(log, y))
  {
    var y := next(log[i].at).value;
    assert First(due, log[i].at, y);
    InOrder(next, due, start, log, i, i + 1);
    assert Fires(next, start, log, i) && Fires(next, start, log, i + 1) && First(due, log[i + 1].read, log[i + 1].at);
    if k :| 0 <= k < |log| && !log[k].onStart && log[k].at == y {
      FiredIsNotMissed(next, due, start, log, k, i + 1);
    }
  }

  // ------------------------------------------------------------- registration

  datatype Job = Job(name: string, runnable: bool, schedule: Option<Schedule>, interval: int)

  datatype Error = SchedulerRunning | InvalidJob(at: nat) | DuplicateJob(at: nat)

  /** `validate`: named, with work to do, either on a schedule with some fire time left or
      at an interval, not both. */
  predicate Schedulable(job: Job, now: int) {
    && job.name != "" && job.runnable
    && (job.schedule.Some? <==> job.interval <= 0)
    && (job.schedule.Some? ==> job.schedule.value(now).Some?)
  }

  ghost predicate Distinct(jobs: seq<Job>) {
    forall i, j :: 0 <= i < j < |jobs| ==> jobs[i].name != jobs[j].name
  }

  /** A batch that can be taken as a whole. */
  ghost predicate Acceptable(taken: map<string, Job>, batch: seq<Job>, now: int) {
    && Distinct(batch)
    && forall i :: 0 <= i < |batch| ==>
         && batch[i].name != "" && batch[i].runnable && batch[i].name !in taken
         && (if batch[i].schedule.Some? then batch[i].interval <= 0 && batch[i].schedule.value(now).Some? else 0 < batch[i].interval)
  }

  /** `staged` holds exactly the jobs of `batch`. */
  ghost predicate Stages(staged: map<string, Job>, batch: seq<Job>) {
    && (forall n :: n in staged ==> exists i :: 0 <= i < |batch| && batch[i].name == n)
    && (forall i :: 0 <= i < |batch| ==> batch[i].name in staged && staged[batch[i].name] == batch[i])
  }

  lemma StagedAlready(staged: map<string, Job>, batch: seq<Job>, i: nat)
    requires i < |batch| && Stages(staged, batch[..i]) && batch[i].name in staged
    ensures !Distinct(batch) && exists j :: 0 <= j < i && batch[j].name == batch[i].name
  {
    var j :| 0 <= j < i && batch[..i][j].name == batch[i].name;
    assert batch[j].name == batch[i].name;
  }

  lemma AcceptableOneMore(taken: map<string, Job>, staged: map<string, Job>, batch: seq<Job>, i: nat, now: int)
    requires i < |batch| && Acceptable(taken, batch[..i], now) && Stages(staged, batch[..i])
    requires Schedulable(batch[i], now) && batch[i].name !in taken && batch[i].name !in staged
    ensures Acceptable(taken, batch[..i + 1], now)
  {
    var all := batch[..i + 1];
    assert all == batch[..i] + [batch[i]];
    forall j, k | 0 <= j < k < |all| ensures all[j].name != all[k].name {
      assert all[j] == batch[..i][j] && (k < i ==> all[k] == batch[..i][k]);
    }
  }

  lemma StagesOneMore(staged: map<string, Job>, batch: seq<Job>, i: nat)
    requires i < |batch| && Stages(staged, batch[..i]) && batch[i].name !in staged
    ensures Stages(staged[batch[i].name := batch[i]], batch[..i + 1])
  {
    var all, more := batch[..i + 1], staged[batch[i].name := batch[i]];
    assert all == batch[..i] + [batch[i]] && all[i] == batch[i];
    forall n | n in more ensures exists j :: 0 <= j < |all| && all[j].name == n {
      if n in staged {
        var j :| 0 <= j < i && batch[..i][j].name == n;
        assert all[j].name == n;
      } else {
        assert all[i].name == n;
      }
    }
    forall j | 0 <= j < |all| ensures all[j].name in more && more[all[j].name] == all[j] {
      if j < i { assert all[j] == batch[..i][j]; }
    }
  }

  class Registry {
    var jobs: map<string, Job>
    var running: bool

    constructor ()
      ensures jobs == map[] && !running
    {
      jobs, running := map[], false;
    }

    /** Validates a batch into a map of its own. */
    method Stage(batch: seq<Job>, now: int) returns (staged: map<string, Job>, err: Option<Error>)
      ensures err.None? <==> Acceptable(jobs, batch, now)
      ensures err.None? ==> Stages(staged, batch)
      ensures err.Some? ==> (err.value.InvalidJob? || err.value.DuplicateJob?) && err.value.at < |batch|
      ensures err.Some? ==> Acceptable(jobs, batch[..err.value.at], now)
      ensures err.Some? && err.value.InvalidJob? ==> !Schedulable(batch[err.value.at], now)
      ensures err.Some? && err.value.DuplicateJob? ==>
                var n := batch[err.value.at].name;
                Schedulable(batch[err.value.at], now) && (n in jobs || exists j :: 0 <= j < err.value.at && batch[j].name == n)
    {
      staged, err := map[], None;
      var i := 0;
      while i < |batch|
        invariant 0 <= i <= |batch| && err.None?
        invariant Acceptable(jobs, batch[..i], now) && Stages(staged, batch[..i])
      {
        var job := batch[i];
        if !Schedulable(job, now) {
          return staged, Some(InvalidJob(i));
        }
        if job.name in jobs {
          return staged, Some(DuplicateJob(i));
        }
        if job.name in staged {
          StagedAlready(staged, batch, i);
          return staged, Some(DuplicateJob(i));
        }
        AcceptableOneMore(jobs, staged, batch, i, now);
        StagesOneMore(staged, batch, i);
        staged := staged[job.name := job];
        i := i + 1;
      }
      assert batch[..i] == batch;
    }

    /** `Register`: the whole batch or nothing of it, and nothing once running. */
    method Register(batch: seq<Job>, now: int) returns (err: Option<Error>)
      modifies this`jobs
      ensures err.None? <==> !running && Acceptable(old(jobs), batch, now)
      ensures err.Some? ==> jobs == old(jobs)
      ensures err.None? ==> exists staged :: Stages(staged, batch) && staged.Keys !! old(jobs).Keys && jobs == old(jobs) + staged
    {
      if running {
        return Some(SchedulerRunning);
      }
      var staged;
      staged, err := Stage(batch, now);
      if err.None? {
        assert staged.Keys !! jobs.Keys;
        jobs := jobs + staged;
      }
    }
  }
}
