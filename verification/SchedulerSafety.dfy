/**
 What every interleaving of the scheduler keeps, and exactly which job
 instances outlive `Stop` and `Remove`.
 */
module SchedulerSafety {
  import opened Options
  import opened SchedulerMachine

  // ------------------------------------------------------------- invariant

  /** Timer t will still lead to a run of j, or is leading one: it is armed, or its callback has not re-armed yet. */
  predicate Token(s: State, j: JobId, t: TimerId) {
    && t < |s.timers| && s.timers[t].job == j
    && (s.timers[t].status.Armed? || InFlightStatus(s.timers[t].status))
  }

  predicate InFlightStatus(status: Status) {
    status.Spawned? || status.InRun? || status.RunDone?
  }

  /** No timer was ever armed for j. */
  ghost predicate Untouched(s: State, j: JobId) {
    forall t | 0 <= t < |s.timers| :: s.timers[t].job != j
  }

  /** References stay inside the tables, and only jobs with a usable delay have timers. */
  ghost predicate Bounded(s: State) {
    && (forall n | n in s.jobs :: s.jobs[n] < |s.insts|)
    && (forall t | 0 <= t < |s.timers| ::
          s.timers[t].job < |s.insts| && s.insts[s.timers[t].job].rule.Schedulable())
    && (forall j | 0 <= j < |s.insts| && s.insts[j].timer.Some? ::
          s.insts[j].timer.value < |s.timers| && s.timers[s.insts[j].timer.value].job == j)
    && (forall t | 0 <= t < |s.timers| && s.timers[t].status.Unpublished? ::
          s.timers[t].status.next < |s.timers| && s.timers[s.timers[t].status.next].job == s.timers[t].job)
  }

  /** Distinct names hold distinct instances. */
  ghost predicate Injective(s: State) {
    forall m, n | m in s.jobs && n in s.jobs && m != n :: s.jobs[m] != s.jobs[n]
  }

  /** At most one armed timer or un-re-armed callback per instance. */
  ghost predicate OneToken(s: State) {
    forall j: nat, t: nat, u: nat | Token(s, j, t) && Token(s, j, u) :: t == u
  }

  ghost predicate HolderOk(s: State) {
    match s.holder
    case Free => !s.running ==> s.timers == []
    case Scheduling(todo, pending) =>
      && (forall j | j in todo :: j < |s.insts| && Untouched(s, j))
      && (pending.Some? ==> pending.value < |s.timers|)
    case Cancelling(todo) => s.running && forall j | j in todo :: j < |s.insts|
  }

  ghost predicate Inv(s: State) {
    Bounded(s) && Injective(s) && OneToken(s) && HolderOk(s)
  }

  /** Steps that leave the timers alone, allocating at most one instance. */
  lemma StillKeeps(s: State, s': State)
    requires Bounded(s) && OneToken(s)
    requires s'.timers == s.timers && s.insts <= s'.insts
    requires forall j | |s.insts| <= j < |s'.insts| :: s'.insts[j].timer.None?
    requires forall n | n in s'.jobs :: s'.jobs[n] < |s'.insts|
    ensures Bounded(s') && OneToken(s')
    ensures forall i | Untouched(s, i) :: Untouched(s', i)
  {
    forall j, t | Token(s', j, t) ensures Token(s, j, t) {}
    forall j | 0 <= j < |s'.insts| && s'.insts[j].timer.Some?
      ensures s'.insts[j].timer.value < |s.timers| && s.timers[s'.insts[j].timer.value].job == j
    {
      assert s'.insts[j] == s.insts[j];
    }
  }

  /** A timer moving on in its own life. */
  lemma MoveKeeps(s: State, s': State, t: TimerId, status: Status)
    requires Bounded(s) && OneToken(s)
    requires t < |s.timers| && !status.Unpublished?
    requires status.Armed? || InFlightStatus(status) ==> Token(s, s.timers[t].job, t)
    requires s'.timers == s.timers[t := Timer(s.timers[t].job, status)]
    requires s'.insts == s.insts && s'.jobs == s.jobs
    ensures Bounded(s') && OneToken(s')
    ensures forall i | Untouched(s, i) :: Untouched(s', i)
  {
    forall j, u | Token(s', j, u) ensures Token(s, j, u) {}
  }

  lemma CancelKeeps(s: State, j: JobId)
    requires Bounded(s) && OneToken(s) && j < |s.insts|
    ensures Bounded(Cancel(s, j)) && OneToken(Cancel(s, j))
    ensures forall i | Untouched(s, i) :: Untouched(Cancel(s, j), i)
  {
    if s.insts[j].timer.Some? && s.timers[s.insts[j].timer.value].status.Armed? {
      MoveKeeps(s, Cancel(s, j), s.insts[j].timer.value, Cancelled);
    }
  }

  lemma PublishKeeps(s: State, j: JobId, t: TimerId)
    requires Bounded(s) && OneToken(s) && j < |s.insts| && t < |s.timers| && s.timers[t].job == j
    ensures Bounded(SetTimer(s, j, t)) && OneToken(SetTimer(s, j, t))
    ensures forall i | Untouched(s, i) :: Untouched(SetTimer(s, j, t), i)
  {
    forall i, u | Token(SetTimer(s, j, t), i, u) ensures Token(s, i, u) {}
  }

  /** Arming gives a job its one token when it has no other. */
  lemma ArmKeeps(s: State, s': State, j: JobId, deadline: int)
    requires Bounded(s) && OneToken(s) && j < |s.insts| && s.insts[j].rule.Schedulable()
    requires forall t :: !Token(s, j, t)
    requires s'.timers == s.timers + [Timer(j, Armed(deadline))] && s'.insts == s.insts && s'.jobs == s.jobs
    ensures Bounded(s') && OneToken(s')
    ensures forall i | Untouched(s, i) && i != j :: Untouched(s', i)
  {
    forall i, t | Token(s', i, t) ensures Token(s, i, t) || (i == j && t == |s.timers|) {}
  }

  /** A spent timer that notes which timer it has armed for its job. */
  lemma NoteKeeps(s: State, s': State, t: TimerId, next: TimerId)
    requires Bounded(s) && OneToken(s)
    requires t < |s.timers| && !Token(s, s.timers[t].job, t)
    requires next < |s.timers| && s.timers[next].job == s.timers[t].job
    requires s'.timers == s.timers[t := Timer(s.timers[t].job, Unpublished(next))]
    requires s'.insts == s.insts && s'.jobs == s.jobs
    ensures Bounded(s') && OneToken(s')
    ensures forall i | Untouched(s, i) :: Untouched(s', i)
  {
    forall j, u | Token(s', j, u) ensures Token(s, j, u) {}
  }

  /** The callback that re-arms hands its token to the new timer. */
  lemma RearmKeeps(s: State, t: TimerId, delay: int)
    requires Bounded(s) && OneToken(s) && Enabled(s, Rearm(t, delay))
    ensures Bounded(Next(s, Rearm(t, delay))) && OneToken(Next(s, Rearm(t, delay)))
    ensures forall i | Untouched(s, i) :: Untouched(Next(s, Rearm(t, delay)), i)
  {
    var j, next, deadline := s.timers[t].job, |s.timers|, s.now + delay;
    assert Token(s, j, t);
    var spent := SetStatus(s, t, Finished);
    var armed := spent.(timers := spent.timers + [Timer(j, Armed(deadline))]);
    var s' := Next(s, Rearm(t, delay));
    OnlyToken(s, spent, j, t);
    assert s'.timers == armed.timers[t := Timer(j, Unpublished(next))];
    assert !Untouched(s, j);
    hide Bounded, OneToken, Untouched;
    MoveKeeps(s, spent, t, Finished);
    ArmKeeps(spent, armed, j, deadline);
    NoteKeeps(armed, s', t, next);
  }

  /** The one token of a job is gone when its timer is spent. */
  lemma OnlyToken(s: State, s': State, j: JobId, t: TimerId)
    requires OneToken(s) && Token(s, j, t) && s'.timers == s.timers[t := Timer(j, Finished)]
    ensures forall u :: !Token(s', j, u)
  {
    forall u | Token(s', j, u) ensures Token(s, j, u) {}
  }

  /** Steps of an API call that cancel, arm or publish. */
  lemma TimerCallKeepsTables(s: State, e: Step)
    requires Inv(s) && Enabled(s, e) && (e.RemoveJob? || e.CancelJob? || e.ArmNew? || e.PublishNew?)
    ensures Bounded(Next(s, e)) && OneToken(Next(s, e))
    ensures e.ArmNew? || forall i | Untouched(s, i) :: Untouched(Next(s, e), i)
    ensures e.ArmNew? ==> forall i | Untouched(s, i) && i != e.job :: Untouched(Next(s, e), i)
  {
    hide OneToken;
    var s' := Next(s, e);
    match e
    case RemoveJob(name) =>
      CancelKeeps(s, s.jobs[name]);
      StillKeeps(Cancel(s, s.jobs[name]), s');
    case CancelJob(j) =>
      CancelKeeps(s, j);
      StillKeeps(Cancel(s, j), s');
    case ArmNew(j, delay) => ArmKeeps(s, s', j, s.now + delay);
    case PublishNew =>
      var t := s.holder.pending.value;
      PublishKeeps(s, s.timers[t].job, t);
      StillKeeps(SetTimer(s, s.timers[t].job, t), s');
  }

  /** Steps of the runtime and of the callbacks. */
  lemma CallbackKeepsTables(s: State, e: Step)
    requires Bounded(s) && OneToken(s) && Enabled(s, e) && !e.ByApi() && !e.Tick?
    ensures Bounded(Next(s, e)) && OneToken(Next(s, e))
    ensures forall i | Untouched(s, i) :: Untouched(Next(s, e), i)
  {
    hide OneToken;
    var s' := Next(s, e);
    match e
    case Rearm(t, delay) => RearmKeeps(s, t, delay);
    case Fire(t) => MoveKeeps(s, s', t, Spawned);
    case EnterRun(t) => MoveKeeps(s, s', t, InRun);
    case LeaveRun(t) => MoveKeeps(s, s', t, RunDone);
    case Publish(t) =>
      var s1 := SetTimer(s, s.timers[t].job, s.timers[t].status.next);
      PublishKeeps(s, s.timers[t].job, s.timers[t].status.next);
      MoveKeeps(s1, s', t, Finished);
  }

  lemma StepKeepsTables(s: State, e: Step)
    requires Inv(s) && Enabled(s, e)
    ensures Bounded(Next(s, e)) && OneToken(Next(s, e))
    ensures e.ArmNew? || forall i | Untouched(s, i) :: Untouched(Next(s, e), i)
    ensures e.ArmNew? ==> forall i | Untouched(s, i) && i != e.job :: Untouched(Next(s, e), i)
  {
    hide OneToken, Untouched;
    if e.RemoveJob? || e.CancelJob? || e.ArmNew? || e.PublishNew? {
      TimerCallKeepsTables(s, e);
    } else if e.ByApi() || e.Tick? {
      StillKeeps(s, Next(s, e));
    } else {
      CallbackKeepsTables(s, e);
    }
  }

  lemma StepKeepsNames(s: State, e: Step)
    requires Bounded(s) && Injective(s) && Enabled(s, e)
    ensures Injective(Next(s, e))
  {
  }

  lemma StepKeepsHolder(s: State, e: Step)
    requires Inv(s) && Enabled(s, e)
    requires Bounded(Next(s, e))
    requires e.ArmNew? || forall i | Untouched(s, i) :: Untouched(Next(s, e), i)
    requires e.ArmNew? ==> forall i | Untouched(s, i) && i != e.job :: Untouched(Next(s, e), i)
    ensures HolderOk(Next(s, e))
  {
    if e.LockAdd? || e.LockStart? {
      NewlyScheduled(s, e);
    } else if e.ByApi() {
      CallKeepsHolder(s, e);
    } else {
      CallbackKeepsHolder(s, e);
    }
  }

  lemma CallKeepsHolder(s: State, e: Step)
    requires Inv(s) && Enabled(s, e) && e.ByApi() && !e.LockAdd? && !e.LockStart?
    requires e.ArmNew? || forall i | Untouched(s, i) :: Untouched(Next(s, e), i)
    requires e.ArmNew? ==> forall i | Untouched(s, i) && i != e.job :: Untouched(Next(s, e), i)
    ensures HolderOk(Next(s, e))
  {
    hide Untouched, OneToken, Injective;
  }

  lemma CallbackKeepsHolder(s: State, e: Step)
    requires Inv(s) && Enabled(s, e) && !e.ByApi()
    requires forall i | Untouched(s, i) :: Untouched(Next(s, e), i)
    ensures HolderOk(Next(s, e))
  {
    hide Untouched, OneToken, Injective;
  }

  /** What `Start` and `Add` are about to schedule was never scheduled before. */
  lemma NewlyScheduled(s: State, e: Step)
    requires Inv(s) && Enabled(s, e) && (e.LockAdd? || e.LockStart?)
    ensures HolderOk(Next(s, e))
  {
    var s' := Next(s, e);
    assert s'.timers == s.timers;
    if s'.holder.Scheduling? {
      forall j | j in s'.holder.todo ensures j < |s'.insts| && Untouched(s', j) {}
    }
  }

  /** No API call and no callback can break the invariant. */
  lemma StepKeepsInv(s: State, e: Step)
    requires Inv(s) && Enabled(s, e)
    ensures Inv(Next(s, e))
  {
    StepKeepsTables(s, e);
    StepKeepsNames(s, e);
    StepKeepsHolder(s, e);
  }

  /** The invariant holds in every state that some interleaving reaches. */
  lemma {:induction false} RunKeepsInv(s: State, steps: seq<Step>)
    requires Inv(s) && Runs(s, steps)
    ensures Inv(After(s, steps))
  {
    if steps != [] {
      var front := steps[..|steps| - 1];
      RunKeepsInv(s, front);
      StepKeepsInv(After(s, front), steps[|steps| - 1]);
    }
  }

  lemma Reachable(now: int, steps: seq<Step>)
    requires Runs(Init(now), steps)
    ensures Inv(After(Init(now), steps))
  {
    RunKeepsInv(Init(now), steps);
  }

  /**
   Single flight: whatever the interleaving, an instance has at most one armed
   timer or callback that has not re-armed, so two of its runs never overlap.
   */
  lemma SingleFlight(now: int, steps: seq<Step>, t: TimerId, u: TimerId)
    requires Runs(Init(now), steps)
    ensures var s := After(Init(now), steps);
            t < |s.timers| && u < |s.timers| && t != u && s.timers[t].job == s.timers[u].job ==>
              !(Token(s, s.timers[t].job, t) && Token(s, s.timers[t].job, u))
  {
    Reachable(now, steps);
  }
}
