/** When timers are due: exactly the interval after they are armed, and no later where nothing is kept waiting. */
module SchedulerDue {
  import opened Options
  import opened SchedulerMachine
  import opened SchedulerSafety
  import opened SchedulerRate

  // -------------------------------------------------------- deadlines of a run

  /** The state before step k of the run. */
  ghost function At(epoch: int, steps: seq<Step>, k: nat): State
    requires k <= |steps|
  {
    match Exec(Init(epoch), steps[..k])
    case Some(s) => s
    case None => Init(epoch)
  }

  /** Step k of the run makes t a timer of j with this deadline. */
  ghost predicate ArmedAt(epoch: int, steps: seq<Step>, k: nat, t: TimerId, j: JobId, deadline: int) {
    && k < |steps|
    && t == |At(epoch, steps, k).timers|
    && |At(epoch, steps, k + 1).timers| == t + 1
    && At(epoch, steps, k + 1).timers[t] == Timer(j, Armed(deadline))
  }

  lemma AtPrefix(epoch: int, steps: seq<Step>, more: seq<Step>, k: nat)
    requires k <= |steps| && steps <= more
    ensures At(epoch, more, k) == At(epoch, steps, k)
  {
    assert more[..k] == steps[..k];
  }

  lemma AtEnd(epoch: int, steps: seq<Step>)
    requires Runs(Init(epoch), steps)
    ensures At(epoch, steps, |steps|) == After(Init(epoch), steps)
  {
    assert steps[..|steps|] == steps;
  }

  lemma ArmedAtExtends(epoch: int, steps: seq<Step>, more: seq<Step>, k: nat, t: TimerId, j: JobId, deadline: int)
    requires steps <= more && ArmedAt(epoch, steps, k, t, j, deadline)
    ensures ArmedAt(epoch, more, k, t, j, deadline)
  {
    AtPrefix(epoch, steps, more, k);
    AtPrefix(epoch, steps, more, k + 1);
  }

  /** A step keeps the jobs of the timers and the deadlines of those still armed, and arms at most one. */
  lemma TimersAfterStep(s: State, e: Step, t: TimerId)
    requires Bounded(s) && Enabled(s, e) && t < |Next(s, e).timers|
    ensures var s' := Next(s, e);
            if t < |s.timers| then
              s'.timers[t].job == s.timers[t].job && (s'.timers[t].status.Armed? ==> s'.timers[t] == s.timers[t])
            else
              && t == |s.timers| && |s'.timers| == t + 1 && s'.timers[t].job < |s.insts|
              && s'.timers[t].status.Armed? && s'.insts == s.insts && s.insts[s'.timers[t].job].rule.Schedulable()
              && (s.insts[s'.timers[t].job].rule.Every? ==>
                    s'.timers[t].status.deadline == s.now + s.insts[s'.timers[t].job].rule.interval)
  {
  }

  lemma RulesStay(s: State, e: Step)
    requires Enabled(s, e)
    ensures |s.insts| <= |Next(s, e).insts|
    ensures forall j | 0 <= j < |s.insts| :: Next(s, e).insts[j].rule == s.insts[j].rule
  {
  }

  /** Some step armed timer t, the interval before its deadline. */
  ghost predicate Due(epoch: int, steps: seq<Step>, t: TimerId, j: JobId, interval: int, status: Status) {
    exists k: nat, deadline: int :: ArmedAt(epoch, steps, k, t, j, deadline)
      && deadline == At(epoch, steps, k).now + interval
      && (status.Armed? ==> status.deadline == deadline)
  }

  /**
   In every run from the start, every timer of an interval job was armed at some step to
   be due the interval later, and keeps that deadline for as long as it is armed.
   */
  lemma {:induction false} DueAfterInterval(epoch: int, steps: seq<Step>, t: TimerId)
    requires Runs(Init(epoch), steps) && t < |After(Init(epoch), steps).timers|
    ensures var s := After(Init(epoch), steps); var timer := s.timers[t];
            && timer.job < |s.insts|
            && match s.insts[timer.job].rule
               case Every(interval) => interval > 0 && Due(epoch, steps, t, timer.job, interval, timer.status)
               case Cron => true
  {
    hide Next, Enabled;
    var front, e := steps[..|steps| - 1], steps[|steps| - 1];
    var s, s' := After(Init(epoch), front), After(Init(epoch), steps);
    Reachable(epoch, front);
    TimersAfterStep(s, e, t);
    RulesStay(s, e);
    var j := s'.timers[t].job;
    if t < |s.timers| {
      DueAfterInterval(epoch, front, t);
      if s.insts[j].rule.Every? {
        DueLater(epoch, front, steps, t, j, s.insts[j].rule.interval, s.timers[t].status, s'.timers[t].status);
      }
    } else if s.insts[j].rule.Every? {
      AtEnd(epoch, front);
      AtPrefix(epoch, front, steps, |front|);
      AtEnd(epoch, steps);
      assert ArmedAt(epoch, steps, |front|, t, j, s'.timers[t].status.deadline);
    }
  }

  lemma DueLater(epoch: int, steps: seq<Step>, more: seq<Step>, t: TimerId, j: JobId, interval: int,
                 was: Status, status: Status)
    requires steps <= more && Due(epoch, steps, t, j, interval, was) && (status.Armed? ==> status == was)
    ensures Due(epoch, more, t, j, interval, status)
  {
    var k: nat, deadline: int :| ArmedAt(epoch, steps, k, t, j, deadline)
      && deadline == At(epoch, steps, k).now + interval && (was.Armed? ==> was.deadline == deadline);
    ArmedAtExtends(epoch, steps, more, k, t, j, deadline);
    AtPrefix(epoch, steps, more, k);
  }

  /** One of the steps from `from` on arms a timer of j with a deadline in the range. */
  ghost predicate ArmsFor(epoch: int, steps: seq<Step>, from: nat, j: JobId, low: int, high: int) {
    exists k: nat, t: TimerId, deadline: int ::
      ArmedAt(epoch, steps, k, t, j, deadline) && from <= k && low <= deadline <= high
  }

  lemma ArmsForExtends(epoch: int, steps: seq<Step>, more: seq<Step>, from: nat, j: JobId, low: int, high: int,
                       from': nat, low': int, high': int)
    requires ArmsFor(epoch, steps, from, j, low, high)
    requires steps <= more && from' <= from && low' <= low && high <= high'
    ensures ArmsFor(epoch, more, from', j, low', high')
  {
    var k: nat, t: TimerId, deadline: int :|
      ArmedAt(epoch, steps, k, t, j, deadline) && from <= k && low <= deadline <= high;
    ArmedAtExtends(epoch, steps, more, k, t, j, deadline);
  }

  /** An interval job j was armed after the steps `from`, to be due its interval after a moment of [since, now]. */
  ghost predicate DueSince(epoch: int, steps: seq<Step>, now: int, rule: Rule, j: JobId, from: seq<Step>, since: int) {
    match rule
    case Every(interval) => ArmsFor(epoch, steps, |from|, j, since + interval, now + interval)
    case Cron => true
  }

  lemma StillDue(epoch: int, steps: seq<Step>, now: int, rule: Rule, j: JobId, from: seq<Step>, since: int,
                 steps': seq<Step>, now': int, from': seq<Step>, since': int)
    requires DueSince(epoch, steps, now, rule, j, from, since)
    requires steps <= steps' && now <= now' && from' <= from && since' <= since
    ensures DueSince(epoch, steps', now', rule, j, from', since')
  {
    if rule.Every? {
      ArmsForExtends(epoch, steps, steps', |from|, j, since + rule.interval, now + rule.interval,
                     |from'|, since' + rule.interval, now' + rule.interval);
    }
  }

  lemma TimerOfArmNew(s: State, j: JobId, delay: int)
    requires Enabled(s, ArmNew(j, delay))
    ensures Next(s, ArmNew(j, delay)).timers == s.timers + [Timer(j, Armed(s.now + delay))]
    ensures s.insts[j].rule.Every? ==> delay == s.insts[j].rule.interval
  {
  }

  lemma ArmNewIsDue(epoch: int, steps: seq<Step>, s: State, j: JobId, delay: int, more: seq<Step>)
    requires Exec(Init(epoch), steps) == Some(s) && Enabled(s, ArmNew(j, delay))
    requires steps + [ArmNew(j, delay)] <= more
    ensures DueSince(epoch, more, s.now, s.insts[j].rule, j, steps, s.now)
  {
    hide Exec, Next, Enabled, At;
    var longer := steps + [ArmNew(j, delay)];
    TimerOfArmNew(s, j, delay);
    RunsOneMore(Init(epoch), steps, ArmNew(j, delay));
    AtEnd(epoch, steps);
    AtPrefix(epoch, steps, longer, |steps|);
    AtEnd(epoch, longer);
    assert ArmedAt(epoch, longer, |steps|, |s.timers|, j, s.now + delay);
    ArmedAtExtends(epoch, longer, more, |steps|, |s.timers|, j, s.now + delay);
  }

  // ------------------------------------------------------------ prompt runs

  /**
   Time passes only while nothing is kept waiting: no armed timer is overdue, and no
   callback stands before `Run` or before its re-arming.  A run may take any time.
   */
  predicate LetsPass(s: State, e: Step) {
    e.Tick? && e.elapsed > 0 ==>
      forall t | 0 <= t < |s.timers| ::
        match s.timers[t].status
        case Armed(deadline) => s.now + e.elapsed <= deadline
        case Spawned => false
        case RunDone => false
        case _ => true
  }

  ghost predicate Punctual(epoch: int, steps: seq<Step>) {
    forall k | 0 <= k < |steps| :: LetsPass(At(epoch, steps, k), steps[k])
  }

  /** Every start but the first is exactly the interval after the end before it. */
  predicate Periodic(p: seq<Event>, interval: int) {
    forall i | 0 < i < |p| && i % 2 == 0 :: p[i].at == p[i - 1].at + interval
  }

  /** The phase of j's one timer when nothing is late. */
  predicate OnTimePhase(p: seq<Event>, interval: int, status: Status, now: int) {
    match status
    case Armed(deadline) => now <= deadline && (p != [] ==> deadline == p[|p| - 1].at + interval)
    case Spawned => p != [] ==> now == p[|p| - 1].at + interval
    case RunDone => p != [] && p[|p| - 1].at == now
    case _ => true
  }

  ghost predicate OnTime(s: State, j: JobId)
    requires j < |s.insts|
  {
    s.insts[j].rule.Every? ==>
      var p, interval := Mine(s.log, j), s.insts[j].rule.interval;
      && Periodic(p, interval)
      && forall t: nat | Token(s, j, t) :: OnTimePhase(p, interval, s.timers[t].status, s.now)
  }

  /** An entered or left run of another job leaves j on time, as does any step that moves no event or phase. */
  lemma OnTimeByPhase(s: State, s': State, j: JobId)
    requires j < |s.insts| && OnTime(s, j) && j < |s'.insts| && s'.insts[j].rule == s.insts[j].rule
    requires Mine(s'.log, j) == Mine(s.log, j)
    requires s.insts[j].rule.Every? ==>
               forall t: nat | Token(s', j, t) ::
                 OnTimePhase(Mine(s.log, j), s.insts[j].rule.interval, s'.timers[t].status, s'.now)
    ensures OnTime(s', j)
  {
  }

  lemma PeriodicOneMore(p: seq<Event>, e: Event, interval: int)
    requires Periodic(p, interval) && (|p| % 2 == 0 && p != [] ==> e.at == p[|p| - 1].at + interval)
    ensures Periodic(p + [e], interval)
  {
  }

  lemma EventStaysOnTime(s: State, s': State, u: TimerId, event: Event)
    requires OneToken(s) && event.job < |s.insts| && Paced(s, event.job) && OnTime(s, event.job)
    requires u < |s.timers| && event.job == s.timers[u].job && event.at == s.now
    requires if event.Started? then s.timers[u].status.Spawned? else s.timers[u].status.InRun?
    requires s'.timers == s.timers[u := Timer(event.job, if event.Started? then InRun else RunDone)]
    requires s'.log == s.log + [event] && s'.insts == s.insts && s'.now == s.now
    ensures OnTime(s', event.job)
  {
    hide Mine, Spaced;
    var j := event.job;
    var p := Mine(s.log, j);
    assert Token(s, j, u);
    MineOneMore(s.log, event, j);
    if s.insts[j].rule.Every? {
      PeriodicOneMore(p, event, s.insts[j].rule.interval);
      forall t: nat | Token(s', j, t)
        ensures OnTimePhase(p + [event], s.insts[j].rule.interval, s'.timers[t].status, s'.now)
      {
        OneCallback(s, s', u, if event.Started? then InRun else RunDone, t);
      }
    }
  }

  lemma EventKeepsTime(s: State, e: Step, j: JobId)
    requires Inv(s) && Enabled(s, e) && (e.EnterRun? || e.LeaveRun?)
    requires j < |s.insts| && Paced(s, j) && OnTime(s, j)
    ensures OnTime(Next(s, e), j)
  {
    hide Mine, Spaced, Periodic, OnTimePhase, PhaseOk;
    var s' := Next(s, e);
    var event := s'.log[|s.log|];
    if event.job == j {
      hide OnTime, Paced;
      EventStaysOnTime(s, s', e.timer, event);
    } else {
      MineOneMore(s.log, event, j);
      forall t: nat | Token(s', j, t) ensures Token(s, j, t) && s'.timers[t] == s.timers[t] {}
      OnTimeByPhase(s, s', j);
    }
  }

  /** When a timer is armed, the job has not run yet or its run has ended just now. */
  lemma ArmedOnTime(s: State, e: Step, j: JobId, t: TimerId)
    requires Inv(s) && Enabled(s, e) && (e.Rearm? || e.ArmNew?) && UntouchedSilent(s)
    requires j < |s.insts| && OnTime(s, j) && s.insts[j].rule.Every?
    requires Token(Next(s, e), j, t)
    ensures OnTimePhase(Mine(s.log, j), s.insts[j].rule.interval, Next(s, e).timers[t].status, s.now)
  {
    hide Mine, Periodic;
    ArmStep(s, e, j, t);
    if t >= |s.timers| {
      if e.ArmNew? {
        assert Untouched(s, j);
      } else {
        assert Token(s, j, e.timer);
      }
    }
  }

  lemma ArmKeepsTime(s: State, e: Step, j: JobId)
    requires Inv(s) && Enabled(s, e) && (e.Rearm? || e.ArmNew?) && UntouchedSilent(s)
    requires j < |s.insts| && OnTime(s, j)
    ensures OnTime(Next(s, e), j)
  {
    hide Mine, Periodic, OnTimePhase, Next, Enabled, Inv, UntouchedSilent, OnTime;
    ArmLeaves(s, e, j);
    if s.insts[j].rule.Every? {
      forall t: nat | Token(Next(s, e), j, t)
        ensures OnTimePhase(Mine(s.log, j), s.insts[j].rule.interval, Next(s, e).timers[t].status, Next(s, e).now)
      {
        ArmedOnTime(s, e, j, t);
      }
    }
    OnTimeByPhase(s, Next(s, e), j);
  }

  lemma TickKeepsTime(s: State, e: Step, j: JobId)
    requires Enabled(s, e) && e.Tick? && LetsPass(s, e) && j < |s.insts| && OnTime(s, j)
    ensures OnTime(Next(s, e), j)
  {
    hide Mine, Periodic;
    forall t: nat | Token(Next(s, e), j, t) ensures Token(s, j, t) {}
  }

  /** Steps other than the clock's leave the time alone. */
  lemma OtherKeepsTime(s: State, e: Step, j: JobId)
    requires Enabled(s, e) && !e.EnterRun? && !e.LeaveRun? && !e.Rearm? && !e.ArmNew? && !e.Tick?
    requires j < |s.insts| && OnTime(s, j)
    ensures OnTime(Next(s, e), j)
  {
    hide Mine, Periodic, Next, Enabled;
    var s' := Next(s, e);
    QuietFrame(s, e, j);
    ClockStands(s, e);
    forall t: nat | Token(s', j, t) ensures Aged(s, s', j, t) {
      if e.ByApi() { QuietCall(s, e, j, t); } else { QuietRuntime(s, e, j, t); }
    }
  }

  lemma ClockStands(s: State, e: Step)
    requires Enabled(s, e) && !e.Tick?
    ensures Next(s, e).now == s.now
  {
  }

  lemma StepKeepsTime(s: State, e: Step, j: JobId)
    requires Inv(s) && Enabled(s, e) && LetsPass(s, e) && UntouchedSilent(s)
    requires j < |s.insts| && Paced(s, j) && OnTime(s, j)
    ensures OnTime(Next(s, e), j)
  {
    hide *;
    if e.EnterRun? || e.LeaveRun? {
      EventKeepsTime(s, e, j);
    } else if e.Rearm? || e.ArmNew? {
      ArmKeepsTime(s, e, j);
    } else if e.Tick? {
      TickKeepsTime(s, e, j);
    } else {
      OtherKeepsTime(s, e, j);
    }
  }

  lemma NewIsOnTime(s: State, e: Step, j: JobId)
    requires Inv(s) && Enabled(s, e) && UntouchedSilent(s) && |s.insts| <= j < |Next(s, e).insts|
    ensures OnTime(Next(s, e), j)
  {
    assert Untouched(s, j);
    assert forall t: nat :: !Token(Next(s, e), j, t);
  }

  lemma PunctualFront(epoch: int, steps: seq<Step>)
    requires Runs(Init(epoch), steps) && Punctual(epoch, steps) && steps != []
    ensures Punctual(epoch, steps[..|steps| - 1])
    ensures LetsPass(After(Init(epoch), steps[..|steps| - 1]), steps[|steps| - 1])
  {
    var front := steps[..|steps| - 1];
    forall k: nat | k <= |front| ensures At(epoch, front, k) == At(epoch, steps, k) {
      AtPrefix(epoch, front, steps, k);
    }
    AtEnd(epoch, front);
    forall k | 0 <= k < |front| ensures LetsPass(At(epoch, front, k), front[k]) {
      assert LetsPass(At(epoch, steps, k), steps[k]);
    }
    assert LetsPass(At(epoch, steps, |front|), steps[|front|]);
  }

  lemma {:induction false} AlwaysOnTime(epoch: int, steps: seq<Step>, j: JobId)
    requires Runs(Init(epoch), steps) && Punctual(epoch, steps) && j < |After(Init(epoch), steps).insts|
    ensures OnTime(After(Init(epoch), steps), j)
  {
    hide Next, Enabled, OnTime, Punctual, LetsPass, Paced, UntouchedSilent;
    var front, e := steps[..|steps| - 1], steps[|steps| - 1];
    var s := After(Init(epoch), front);
    PunctualFront(epoch, steps);
    Reachable(epoch, front);
    AlwaysPaced(epoch, front);
    if j < |s.insts| {
      AlwaysOnTime(epoch, front, j);
      StepKeepsTime(s, e, j);
    } else {
      NewIsOnTime(s, e, j);
    }
  }

  /**
   Where nothing is kept waiting an interval job is periodic: each run starts exactly the
   interval after the end of the run before it.
   */
  lemma PunctualRunsArePeriodic(epoch: int, steps: seq<Step>, j: JobId)
    requires Runs(Init(epoch), steps) && Punctual(epoch, steps)
    requires j < |After(Init(epoch), steps).insts| && After(Init(epoch), steps).insts[j].rule.Every?
    ensures var s := After(Init(epoch), steps); var p := Mine(s.log, j);
            forall i | 0 < i < |p| && i % 2 == 0 ::
              p[i].Started? && p[i - 1].Ended? && p[i].at == p[i - 1].at + s.insts[j].rule.interval
  {
    hide Mine, Exec, OnTimePhase;
    AlwaysOnTime(epoch, steps, j);
    RunsAlternate(epoch, steps, j);
  }

  /**
   A callback that has run can always be followed by a run that starts exactly the
   interval later, and a re-arming that is possible at all waits that long.
   */
  lemma StartsAgainOnTime(s: State, t: TimerId)
    requires Inv(s) && !s.crashed && Is(s, t, RunDone) && s.insts[s.timers[t].job].rule.Every?
    ensures var j := s.timers[t].job; var interval := s.insts[j].rule.interval; var n := |s.timers|;
            var again := [Rearm(t, interval), Publish(t), Tick(interval), Fire(n), EnterRun(n)];
            && interval > 0
            && Runs(s, again) && After(s, again).log == s.log + [Started(j, s.now + interval)]
            && forall delay :: Enabled(s, Rearm(t, delay)) ==> delay == interval
  {
    hide Exec;
    var j, interval, n := s.timers[t].job, s.insts[s.timers[t].job].rule.interval, |s.timers|;
    RunsNothing(s);
    var r1, s1 := ThenStep(s, [], s, Rearm(t, interval));
    var r2, s2 := ThenStep(s, r1, s1, Publish(t));
    var r3, s3 := ThenStep(s, r2, s2, Tick(interval));
    assert s3.timers[n] == Timer(j, Armed(s.now + interval));
    var r4, s4 := ThenStep(s, r3, s3, Fire(n));
    var r5, s5 := ThenStep(s, r4, s4, EnterRun(n));
    assert r5 == [Rearm(t, interval), Publish(t), Tick(interval), Fire(n), EnterRun(n)];
  }
}
