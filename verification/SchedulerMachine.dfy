/**
 The scheduler as a step system.

 API calls hold the scheduler's mutex; a timer callback does not.  Every step
 below is one action of one goroutine, so a run is an arbitrary interleaving of
 one API call with the clock, the Go runtime's timers and the callbacks.
 `schedule` is two steps: arming a timer, and publishing it in `j.timer`.

 A timer fires at most once, so a timer and the goroutine of its callback share
 one identifier.
 */
module SchedulerMachine {
  import opened Options

  type JobId = nat
  type TimerId = nat

  /** How a job computes its delay; `Every` keeps whatever interval was given. */
  datatype Rule = Every(interval: int) | Cron {
    // `timeUntilNextRun` dereferences a nil cron expression otherwise.
    predicate Schedulable() { Cron? || interval > 0 }

    predicate Allows(delay: int) { Every? ==> delay == interval }
  }

  /** An allocated job struct. */
  datatype Instance = Instance(rule: Rule, timer: Option<TimerId>)

  datatype Status =
    | Armed(deadline: int)
    | Cancelled
    | Spawned                     // fired: the callback goroutine exists
    | InRun                       // inside Job.Run
    | RunDone                     // Run returned, the next timer is not armed yet
    | Unpublished(next: TimerId)  // next is armed, j.timer is not assigned yet
    | Finished

  datatype Timer = Timer(job: JobId, status: Status)

  datatype Event = Started(job: JobId, at: int) | Ended(job: JobId, at: int)

  /** Who holds the mutex, and how far that API call has come. */
  datatype Holder =
    | Free
    | Scheduling(todo: set<JobId>, pending: Option<TimerId>)
    | Cancelling(todo: set<JobId>)

  datatype State = State(
    jobs: map<string, JobId>,
    running: bool,
    insts: seq<Instance>,
    timers: seq<Timer>,
    holder: Holder,
    crashed: bool,
    now: int,
    log: seq<Event>
  )

  datatype Step =
    // the API call that holds the mutex
    | LockStart
    | LockStop
    | LockAdd(name: string, rule: Rule)
    | RemoveJob(name: string)
    | ArmNew(job: JobId, delay: int)
    | NilCron(job: JobId)
    | PublishNew
    | CancelJob(job: JobId)
    | Unlock
    // the clock, the runtime and the callbacks
    | Tick(elapsed: int)
    | Fire(timer: TimerId)
    | EnterRun(timer: TimerId)
    | LeaveRun(timer: TimerId)
    | Rearm(timer: TimerId, delay: int)
    | Publish(timer: TimerId)
  {
    predicate ByApi() {
      LockStart? || LockStop? || LockAdd? || RemoveJob? || ArmNew? || NilCron? || PublishNew? || CancelJob? || Unlock?
    }
  }

  function Init(now: int): State {
    State(map[], false, [], [], Free, false, now, [])
  }

  predicate Is(s: State, t: TimerId, status: Status) {
    t < |s.timers| && s.timers[t].status == status
  }

  predicate Enabled(s: State, e: Step) {
    && !s.crashed
    && match e
       case LockStart => s.holder.Free? && !s.running
       case LockStop => s.holder.Free? && s.running
       case LockAdd(name, _) => s.holder.Free? && name !in s.jobs
       case RemoveJob(name) => s.holder.Free? && name in s.jobs && s.jobs[name] < |s.insts|
       case ArmNew(j, delay) =>
         && s.holder.Scheduling? && s.holder.pending.None? && j in s.holder.todo && j < |s.insts|
         && s.insts[j].rule.Schedulable() && s.insts[j].rule.Allows(delay)
       case NilCron(j) =>
         && s.holder.Scheduling? && s.holder.pending.None? && j in s.holder.todo && j < |s.insts|
         && !s.insts[j].rule.Schedulable()
       case PublishNew =>
         && s.holder.Scheduling? && s.holder.pending.Some?
         && s.holder.pending.value < |s.timers| && s.timers[s.holder.pending.value].job < |s.insts|
       case CancelJob(j) => s.holder.Cancelling? && j in s.holder.todo && j < |s.insts|
       case Unlock =>
         || (s.holder.Scheduling? && s.holder.todo == {} && s.holder.pending.None?)
         || (s.holder.Cancelling? && s.holder.todo == {})
       case Tick(elapsed) => elapsed >= 0
       case Fire(t) => t < |s.timers| && s.timers[t].status.Armed? && s.timers[t].status.deadline <= s.now
       case EnterRun(t) => Is(s, t, Spawned)
       case LeaveRun(t) => Is(s, t, InRun)
       case Rearm(t, delay) =>
         && Is(s, t, RunDone) && s.timers[t].job < |s.insts|
         && s.insts[s.timers[t].job].rule.Schedulable() && s.insts[s.timers[t].job].rule.Allows(delay)
       case Publish(t) =>
         t < |s.timers| && s.timers[t].status.Unpublished? && s.timers[t].job < |s.insts|
  }

  function SetStatus(s: State, t: TimerId, status: Status): State
    requires t < |s.timers|
  {
    s.(timers := s.timers[t := s.timers[t].(status := status)])
  }

  function SetTimer(s: State, j: JobId, t: TimerId): State
    requires j < |s.insts|
  {
    s.(insts := s.insts[j := s.insts[j].(timer := Some(t))])
  }

  /** `j.cancel()`: stops the timer published in `j.timer`, if it is still armed. */
  function Cancel(s: State, j: JobId): State
    requires j < |s.insts|
  {
    match s.insts[j].timer
    case None => s
    case Some(t) =>
      if t < |s.timers| && s.timers[t].status.Armed? then SetStatus(s, t, Cancelled) else s
  }

  function Next(s: State, e: Step): State
    requires Enabled(s, e)
  {
    match e
    case LockStart => s.(holder := Scheduling(s.jobs.Values, None))
    case LockStop => s.(holder := Cancelling(s.jobs.Values))
    case LockAdd(name, rule) =>
      var j := |s.insts|;
      s.(jobs := s.jobs[name := j],
         insts := s.insts + [Instance(rule, None)],
         holder := if s.running then Scheduling({j}, None) else Free)
    case RemoveJob(name) => Cancel(s, s.jobs[name]).(jobs := s.jobs - {name})
    case ArmNew(j, delay) =>
      s.(timers := s.timers + [Timer(j, Armed(s.now + delay))],
         holder := Scheduling(s.holder.todo - {j}, Some(|s.timers|)))
    case NilCron(_) => s.(crashed := true)
    case PublishNew =>
      var t := s.holder.pending.value;
      SetTimer(s, s.timers[t].job, t).(holder := Scheduling(s.holder.todo, None))
    case CancelJob(j) => Cancel(s, j).(holder := Cancelling(s.holder.todo - {j}))
    case Unlock => s.(holder := Free, running := true)
    case Tick(elapsed) => s.(now := s.now + elapsed)
    case Fire(t) => SetStatus(s, t, Spawned)
    case EnterRun(t) => SetStatus(s, t, InRun).(log := s.log + [Started(s.timers[t].job, s.now)])
    case LeaveRun(t) => SetStatus(s, t, RunDone).(log := s.log + [Ended(s.timers[t].job, s.now)])
    case Rearm(t, delay) =>
      var s1 := SetStatus(s, t, Unpublished(|s.timers|));
      s1.(timers := s1.timers + [Timer(s.timers[t].job, Armed(s.now + delay))])
    case Publish(t) =>
      SetStatus(SetTimer(s, s.timers[t].job, s.timers[t].status.next), t, Finished)
  }

  /** The state after taking the steps one by one, if each is enabled in turn. */
  function Exec(s: State, steps: seq<Step>): Option<State> {
    if steps == [] then Some(s)
    else
      match Exec(s, steps[..|steps| - 1])
      case None => None
      case Some(m) => if Enabled(m, steps[|steps| - 1]) then Some(Next(m, steps[|steps| - 1])) else None
  }

  predicate Runs(s: State, steps: seq<Step>) {
    Exec(s, steps).Some?
  }

  function After(s: State, steps: seq<Step>): State
    requires Runs(s, steps)
  {
    Exec(s, steps).value
  }

  /** The times at which runs of j started, in order. */
  function Starts(log: seq<Event>, j: JobId): seq<int> {
    if log == [] then []
    else
      var last := log[|log| - 1];
      Starts(log[..|log| - 1], j) + (if last == Started(j, last.at) then [last.at] else [])
  }

  lemma RunsNothing(s: State)
    ensures Exec(s, []) == Some(s)
  {
  }

  /** Extending a run by one step. */
  lemma RunsOneMore(s: State, steps: seq<Step>, e: Step)
    requires Runs(s, steps) && Enabled(After(s, steps), e)
    ensures Runs(s, steps + [e]) && After(s, steps + [e]) == Next(After(s, steps), e)
  {
    assert (steps + [e])[..|steps|] == steps;
  }

  /** Two runs in a row are a run. */
  lemma {:induction false} RunsConcat(s: State, a: seq<Step>, b: seq<Step>)
    requires Runs(s, a) && Runs(After(s, a), b)
    ensures Runs(s, a + b) && After(s, a + b) == After(After(s, a), b)
  {
    if b == [] {
      assert a + b == a;
    } else {
      var front := b[..|b| - 1];
      RunsConcat(s, a, front);
      RunsOneMore(s, a + front, b[|b| - 1]);
      assert a + b == a + front + [b[|b| - 1]];
    }
  }

  /** A run is its first i steps and then the rest. */
  lemma {:induction false} RunsSplit(s: State, steps: seq<Step>, i: nat)
    requires Runs(s, steps) && i <= |steps|
    ensures Runs(s, steps[..i]) && Exec(After(s, steps[..i]), steps[i..]) == Exec(s, steps)
  {
    if i == |steps| {
      assert steps[..i] == steps;
    } else {
      var front := steps[..|steps| - 1];
      RunsSplit(s, front, i);
      assert front[..i] == steps[..i] && steps[i..][..|steps| - 1 - i] == front[i..];
    }
  }

  /** One step more, as a value. */
  lemma ThenStep(s: State, steps: seq<Step>, m: State, e: Step) returns (longer: seq<Step>, m': State)
    requires Exec(s, steps) == Some(m) && Enabled(m, e)
    ensures longer == steps + [e] && m' == Next(m, e) && Exec(s, longer) == Some(m')
  {
    RunsOneMore(s, steps, e);
    longer, m' := steps + [e], Next(m, e);
  }
}
