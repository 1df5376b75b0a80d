/**
 When an escape from `Stop` needs a callback in flight, and when it does not.

 `j.timer` is assigned after `time.AfterFunc` returns, so a short timer can fire
 before it is published.  The late assignment then overwrites a newer timer,
 and `Stop` cancels the wrong one.
 */
module SchedulerPrompt {
  import opened Options
  import opened SchedulerMachine
  import opened SchedulerSafety
  import opened SchedulerCancel

  /** Goroutine u has armed timer t and not assigned j.timer yet. */
  predicate Publishes(s: State, u: TimerId, t: TimerId) {
    u < |s.timers| && s.timers[u].status == Unpublished(t)
  }

  predicate Pending(s: State, t: TimerId) {
    s.holder.Scheduling? && s.holder.pending == Some(t)
  }

  /** No timer fires before it has been published. */
  ghost predicate PromptStep(s: State, e: Step) {
    e.Fire? ==> !Pending(s, e.timer) && forall u: nat :: !Publishes(s, u, e.timer)
  }

  ghost predicate PromptRun(s: State, steps: seq<Step>)
    requires Runs(s, steps)
  {
    steps == [] ||
    (var front := steps[..|steps| - 1];
     PromptRun(s, front) && PromptStep(After(s, front), steps[|steps| - 1]))
  }

  /** j has a callback anywhere between firing and its assignment to j.timer. */
  ghost predicate InFlight(s: State, j: JobId) {
    exists u: nat :: u < |s.timers| && s.timers[u].job == j
                  && (InFlightStatus(s.timers[u].status) || s.timers[u].status.Unpublished?)
  }

  /** Armed, and not yet in j.timer. */
  predicate Fresh(s: State, t: TimerId) {
    && t < |s.timers| && s.timers[t].status.Armed? && s.timers[t].job < |s.insts|
    && s.insts[s.timers[t].job].timer != Some(t)
  }

  /** A timer awaiting publication is still armed, and only one goroutine will publish it. */
  ghost predicate PublicationsFresh(s: State) {
    && (forall u: nat, t: nat | Publishes(s, u, t) :: Fresh(s, t) && !Pending(s, t))
    && (forall t: nat | Pending(s, t) :: Fresh(s, t))
    && (forall u: nat, v: nat, t: nat | Publishes(s, u, t) && Publishes(s, v, t) :: u == v)
  }

  /** In j.timer, or about to be. */
  ghost predicate Known(s: State, t: TimerId)
    requires t < |s.timers|
  {
    || (s.timers[t].job < |s.insts| && s.insts[s.timers[t].job].timer == Some(t))
    || Pending(s, t)
    || exists u: nat :: Publishes(s, u, t)
  }

  ghost predicate ArmedAreKnown(s: State) {
    forall t: nat | t < |s.timers| && s.timers[t].status.Armed? :: Known(s, t)
  }

  ghost predicate AtMostOneArmed(s: State) {
    forall t: nat, u: nat | t < |s.timers| && u < |s.timers| && s.timers[t].status.Armed?
                         && s.timers[u].status.Armed? && s.timers[t].job == s.timers[u].job :: t == u
  }

  lemma OneArmed(s: State)
    requires OneToken(s)
    ensures AtMostOneArmed(s)
  {
    forall t: nat, u: nat | t < |s.timers| && u < |s.timers| && s.timers[t].status.Armed?
                         && s.timers[u].status.Armed? && s.timers[t].job == s.timers[u].job
      ensures t == u
    {
      assert Token(s, s.timers[t].job, t) && Token(s, s.timers[t].job, u);
    }
  }

  /** An assignment to j.timer of a timer other than t leaves t fresh. */
  lemma PublishingLeavesFresh(s: State, s': State, t: TimerId, v: TimerId)
    requires Fresh(s, t) && v < |s.timers| && v != t && s.timers[v].job < |s.insts|
    requires s'.insts == s.insts[s.timers[v].job := s.insts[s.timers[v].job].(timer := Some(v))]
    requires t < |s'.timers| && s'.timers[t] == s.timers[t]
    ensures Fresh(s', t)
  {
  }

  lemma PublishStaysFresh(s: State, e: Step, t: TimerId)
    requires Bounded(s) && Enabled(s, e) && Fresh(s, t) && (e.PublishNew? || e.Publish?)
    requires e.PublishNew? ==> !Pending(s, t)
    requires e.Publish? ==> !Publishes(s, e.timer, t)
    ensures Fresh(Next(s, e), t)
  {
    var v := if e.PublishNew? then s.holder.pending.value else s.timers[e.timer].status.next;
    PublishingLeavesFresh(s, Next(s, e), t, v);
  }

  lemma CallStaysFresh(s: State, e: Step, t: TimerId)
    requires Bounded(s) && Enabled(s, e) && Fresh(s, t) && e.ByApi() && !e.PublishNew?
    ensures Fresh(Next(s, e), t)
  {
  }

  lemma CallbackStaysFresh(s: State, e: Step, t: TimerId)
    requires Bounded(s) && Enabled(s, e) && Fresh(s, t) && !e.ByApi() && !e.Publish? && e != Fire(t)
    ensures Fresh(Next(s, e), t)
  {
  }

  /** Only its own publication, its own firing or nothing ends a timer's freshness. */
  lemma StaysFresh(s: State, e: Step, t: TimerId)
    requires Bounded(s) && Enabled(s, e) && Fresh(s, t) && e != Fire(t)
    requires e.PublishNew? ==> !Pending(s, t)
    requires e.Publish? ==> !Publishes(s, e.timer, t)
    ensures Fresh(Next(s, e), t)
  {
    hide *;
    if e.PublishNew? || e.Publish? {
      PublishStaysFresh(s, e, t);
    } else if e.ByApi() {
      CallStaysFresh(s, e, t);
    } else {
      CallbackStaysFresh(s, e, t);
    }
  }

  /** Publications are opened by arming and closed by publishing, and by nothing else. */
  lemma PublishesBack(s: State, e: Step, t: TimerId)
    requires Enabled(s, e)
    ensures forall u: nat | Publishes(Next(s, e), u, t) ::
              (e.Rearm? && u == e.timer && t == |s.timers|) || (Publishes(s, u, t) && e != Publish(u))
    ensures Pending(Next(s, e), t) ==> if e.ArmNew? then t == |s.timers| else Pending(s, t) && !e.PublishNew?
  {
  }

  lemma NewIsFresh(s: State, e: Step)
    requires Bounded(s) && Enabled(s, e) && (e.Rearm? || e.ArmNew?)
    ensures Fresh(Next(s, e), |s.timers|)
  {
  }

  lemma PromptStepFresh(s: State, e: Step)
    requires Bounded(s) && AtMostOneArmed(s) && Enabled(s, e) && PromptStep(s, e) && PublicationsFresh(s)
    ensures PublicationsFresh(Next(s, e))
  {
    var s' := Next(s, e);
    hide Next, Enabled, Bounded, AtMostOneArmed;
    if e.Rearm? || e.ArmNew? { NewIsFresh(s, e); }
    forall u: nat, t: nat | Publishes(s', u, t) ensures Fresh(s', t) && !Pending(s', t) {
      PublishesBack(s, e, t);
      if Publishes(s, u, t) { StaysFresh(s, e, t); }
    }
    forall t: nat | Pending(s', t) ensures Fresh(s', t) {
      PublishesBack(s, e, t);
      if Pending(s, t) { StaysFresh(s, e, t); }
    }
    forall u: nat, v: nat, t: nat | Publishes(s', u, t) && Publishes(s', v, t) ensures u == v {
      PublishesBack(s, e, t);
    }
  }

  /** t is the timer in j.timer. */
  ghost predicate Published(s: State, t: TimerId) {
    t < |s.timers| && s.timers[t].job < |s.insts| && s.insts[s.timers[t].job].timer == Some(t)
  }

  lemma PublishKeepsPublished(s: State, s': State, t: TimerId, v: TimerId)
    requires Published(s, t) && v < |s.timers| && s.timers[v].job < |s.insts|
    requires s.timers[v].job == s.timers[t].job ==> v == t
    requires s'.insts == s.insts[s.timers[v].job := s.insts[s.timers[v].job].(timer := Some(v))]
    requires t < |s'.timers| && s'.timers[t].job == s.timers[t].job
    ensures Published(s', t)
  {
  }

  lemma OthersKeepPublished(s: State, e: Step, t: TimerId)
    requires Enabled(s, e) && Published(s, t) && !e.Publish? && !e.PublishNew?
    ensures Published(Next(s, e), t)
  {
  }

  /** A published timer stays published while it is armed: no other armed timer of its job can be published over it. */
  lemma StaysPublished(s: State, e: Step, t: TimerId)
    requires Bounded(s) && AtMostOneArmed(s) && Enabled(s, e) && PublicationsFresh(s)
    requires Published(s, t) && s.timers[t].status.Armed?
    ensures Published(Next(s, e), t)
  {
    if e.PublishNew? || e.Publish? {
      var v := if e.PublishNew? then s.holder.pending.value else s.timers[e.timer].status.next;
      assert e.PublishNew? ==> Pending(s, v);
      assert e.Publish? ==> Publishes(s, e.timer, v);
      assert Fresh(s, v);
      PublishKeepsPublished(s, Next(s, e), t, v);
    } else {
      OthersKeepPublished(s, e, t);
    }
  }

  /** A pending publication stays pending until it is carried out. */
  lemma PublicationStays(s: State, e: Step, t: TimerId)
    requires Enabled(s, e)
    ensures forall u: nat | Publishes(s, u, t) :: Publishes(Next(s, e), u, t) || e == Publish(u)
    ensures Pending(s, t) ==> Pending(Next(s, e), t) || e.PublishNew?
  {
  }

  /** Carrying out a publication publishes. */
  lemma PublicationPublishes(s: State, e: Step, t: TimerId)
    requires Bounded(s) && Enabled(s, e) && t < |s.timers|
    requires (e.PublishNew? && Pending(s, t)) || (e.Publish? && Publishes(s, e.timer, t))
    ensures Published(Next(s, e), t)
  {
  }

  lemma StaysKnown(s: State, e: Step, t: TimerId)
    requires Bounded(s) && AtMostOneArmed(s) && Enabled(s, e) && PublicationsFresh(s)
    requires t < |s.timers| && s.timers[t].status.Armed? && Known(s, t) && t < |Next(s, e).timers|
    ensures Known(Next(s, e), t)
  {
    hide Next, Enabled, Bounded, AtMostOneArmed, PublicationsFresh, Pending, Publishes;
    PublicationStays(s, e, t);
    if u: nat :| Publishes(s, u, t) {
      if e == Publish(u) { PublicationPublishes(s, e, t); }
    } else if Pending(s, t) {
      if e.PublishNew? { PublicationPublishes(s, e, t); }
    } else {
      StaysPublished(s, e, t);
    }
  }

  /** Only arming makes an armed timer. */
  lemma ArmedBefore(s: State, e: Step, t: TimerId)
    requires Enabled(s, e) && t < |Next(s, e).timers| && Next(s, e).timers[t].status.Armed?
    ensures t < |s.timers| ==> s.timers[t].status.Armed?
    ensures t >= |s.timers| ==>
              (e.Rearm? && Publishes(Next(s, e), e.timer, t)) || (e.ArmNew? && Pending(Next(s, e), t))
  {
  }

  lemma PromptStepKnown(s: State, e: Step)
    requires Bounded(s) && AtMostOneArmed(s) && Enabled(s, e) && PublicationsFresh(s) && ArmedAreKnown(s)
    ensures ArmedAreKnown(Next(s, e))
  {
    hide Next, Enabled, Bounded, AtMostOneArmed, PublicationsFresh, Pending, Publishes;
    var s' := Next(s, e);
    forall t: nat | t < |s'.timers| && s'.timers[t].status.Armed? ensures Known(s', t) {
      ArmedBefore(s, e, t);
      if t < |s.timers| { StaysKnown(s, e, t); }
    }
  }

  lemma {:induction false} PromptRunKeeps(now: int, steps: seq<Step>)
    requires Runs(Init(now), steps) && PromptRun(Init(now), steps)
    ensures PublicationsFresh(After(Init(now), steps)) && ArmedAreKnown(After(Init(now), steps))
  {
    if steps != [] {
      var front := steps[..|steps| - 1];
      PromptRunKeeps(now, front);
      Reachable(now, front);
      OneArmed(After(Init(now), front));
      PromptStepFresh(After(Init(now), front), steps[|steps| - 1]);
      PromptStepKnown(After(Init(now), front), steps[|steps| - 1]);
    }
  }

  /**
   If timers are always published before they fire, then outside `Start` and
   `Add` the instances that escape a cancellation are exactly those with a
   callback in flight.
   */
  lemma PromptEscapesIffInFlight(now: int, steps: seq<Step>, j: JobId)
    requires Runs(Init(now), steps) && PromptRun(Init(now), steps)
    requires j < |After(Init(now), steps).insts| && !After(Init(now), steps).holder.Scheduling?
    ensures Escapes(After(Init(now), steps), j) <==> InFlight(After(Init(now), steps), j)
  {
    var s := After(Init(now), steps);
    PromptRunKeeps(now, steps);
    Reachable(now, steps);
    if Escapes(s, j) {
      var t: nat :| Token(s, j, t) && !(s.timers[t].status.Armed? && s.insts[j].timer == Some(t));
      if s.timers[t].status.Armed? {
        var u: nat :| Publishes(s, u, t);
        assert s.timers[u].status.Unpublished?;
      }
    }
    if InFlight(s, j) {
      var u: nat :| u < |s.timers| && s.timers[u].job == j
                 && (InFlightStatus(s.timers[u].status) || s.timers[u].status.Unpublished?);
      if s.timers[u].status.Unpublished? {
        assert Publishes(s, u, s.timers[u].status.next);
        assert Token(s, j, s.timers[u].status.next);
      } else {
        assert Token(s, j, u);
      }
    }
  }

  // --------------------------------------------- the late publication

  /** A one-tick job whose first timer fires before `Start` has published it. */
  function Overtaken(): seq<Step> {
    [LockAdd("job", Every(1)), LockStart, ArmNew(0, 1), Tick(1), Fire(0), EnterRun(0), LeaveRun(0),
     Rearm(0, 1), Publish(0), PublishNew, Unlock, LockStop, CancelJob(0), Unlock]
  }

  /** The state that Overtaken reaches: timer 1 is armed, j.timer is the spent timer 0, and no callback is left. */
  function AfterOvertaken(): State {
    State(map["job" := 0], true, [Instance(Every(1), Some(0))],
          [Timer(0, Finished), Timer(0, Armed(2))], Free, false, 1, [Started(0, 1), Ended(0, 1)])
  }

  function Starting(timers: seq<Timer>, published: Option<TimerId>, now: int, log: seq<Event>): State {
    State(map["job" := 0], false, [Instance(Every(1), published)], timers, Scheduling({}, Some(0)), false, now, log)
  }

  lemma OvertakenFires() returns (h: seq<Step>)
    ensures h == Overtaken()[..5] && Exec(Init(0), h) == Some(Starting([Timer(0, Spawned)], None, 1, []))
  {
    hide Exec;
    RunsNothing(Init(0));
    var jobs: map<string, JobId> := map["job" := 0];
    assert jobs.Values == {0} by { assert jobs["job"] in jobs.Values; }
    var s;
    h, s := ThenStep(Init(0), [], Init(0), LockAdd("job", Every(1)));
    h, s := ThenStep(Init(0), h, s, LockStart);
    assert s.jobs == jobs;
    h, s := ThenStep(Init(0), h, s, ArmNew(0, 1));
    assert s.holder.todo == {};
    h, s := ThenStep(Init(0), h, s, Tick(1));
    h, s := ThenStep(Init(0), h, s, Fire(0));
    assert s.timers == [Timer(0, Spawned)] && s.insts == [Instance(Every(1), None)];
    assert s == Starting([Timer(0, Spawned)], None, 1, []);
  }

  lemma OvertakenFinishes() returns (h: seq<Step>)
    ensures h == Overtaken()[..7]
    ensures Exec(Init(0), h) == Some(Starting([Timer(0, RunDone)], None, 1, [Started(0, 1), Ended(0, 1)]))
  {
    hide Exec;
    h := OvertakenFires();
    var s := Starting([Timer(0, Spawned)], None, 1, []);
    h, s := ThenStep(Init(0), h, s, EnterRun(0));
    h, s := ThenStep(Init(0), h, s, LeaveRun(0));
    assert s.timers == [Timer(0, RunDone)] && s.log == [Started(0, 1), Ended(0, 1)];
  }

  lemma OvertakenRearms() returns (h: seq<Step>)
    ensures h == Overtaken()[..9]
    ensures Exec(Init(0), h) ==
              Some(Starting([Timer(0, Finished), Timer(0, Armed(2))], Some(1), 1, [Started(0, 1), Ended(0, 1)]))
  {
    hide Exec;
    h := OvertakenFinishes();
    var s := Starting([Timer(0, RunDone)], None, 1, [Started(0, 1), Ended(0, 1)]);
    h, s := ThenStep(Init(0), h, s, Rearm(0, 1));
    h, s := ThenStep(Init(0), h, s, Publish(0));
    assert s.timers == [Timer(0, Finished), Timer(0, Armed(2))];
    assert s.insts == [Instance(Every(1), Some(1))];
  }

  lemma OvertakenRuns()
    ensures Runs(Init(0), Overtaken()) && After(Init(0), Overtaken()) == AfterOvertaken()
  {
    hide Exec;
    var h := OvertakenRearms();
    var s := Starting([Timer(0, Finished), Timer(0, Armed(2))], Some(1), 1, [Started(0, 1), Ended(0, 1)]);
    h, s := ThenStep(Init(0), h, s, PublishNew);
    assert s.insts == [Instance(Every(1), Some(0))];
    h, s := ThenStep(Init(0), h, s, Unlock);
    assert s == AfterOvertaken();
    h, s := ThenStep(Init(0), h, s, LockStop);
    assert s.jobs["job"] in s.holder.todo;
    h, s := ThenStep(Init(0), h, s, CancelJob(0));
    assert s.holder.todo == {};
    h, s := ThenStep(Init(0), h, s, Unlock);
    assert h == Overtaken();
  }

  /**
   `Stop` can miss a job with no callback in flight at all: the claim that only
   callbacks in flight escape it fails on this run.
   */
  lemma StopCanMissAnIdleJob()
    ensures Runs(Init(0), Overtaken())
    ensures var s := After(Init(0), Overtaken());
            Overtaken()[|Overtaken()| - 2] == CancelJob(0)
            && !InFlight(s, 0) && CanStartAgain(s, 0)
  {
    OvertakenRuns();
    var s := After(Init(0), Overtaken());
    Reachable(0, Overtaken());
    assert Token(s, 0, 1);
    LiveRestarts(s, 0);
  }
}
