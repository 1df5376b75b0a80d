/** Runs of one instance alternate, keep their distance, and are bounded in number over any window of time. */
module SchedulerRate {
  import opened SchedulerMachine
  import opened SchedulerSafety

  /** The starts and ends of runs of j, in order. */
  function Mine(log: seq<Event>, j: JobId): seq<Event> {
    if log == [] then []
    else Mine(log[..|log| - 1], j) + (if log[|log| - 1].job == j then [log[|log| - 1]] else [])
  }

  lemma MineOneMore(log: seq<Event>, e: Event, j: JobId)
    ensures Mine(log + [e], j) == Mine(log, j) + (if e.job == j then [e] else [])
  {
    assert (log + [e])[..|log|] == log;
  }

  /** The pause that `timeUntilNextRun` guarantees between two runs. */
  function Gap(rule: Rule): int {
    if rule.Every? then rule.interval else 0
  }

  /** Starts and ends alternate in time order, and each start is at least gap after the end before it. */
  predicate Spaced(p: seq<Event>, gap: int) {
    && (forall i | 0 <= i < |p| :: p[i].Started? <==> i % 2 == 0)
    && (forall i | 0 < i < |p| :: p[i - 1].at + (if i % 2 == 0 then gap else 0) <= p[i].at)
  }

  /** What the phase of j's one timer says about its latest event. */
  predicate PhaseOk(p: seq<Event>, rule: Rule, status: Status, now: int) {
    match status
    case Armed(deadline) => |p| % 2 == 0 && (p != [] && rule.Every? ==> p[|p| - 1].at + Gap(rule) <= deadline)
    case Spawned => |p| % 2 == 0 && (p != [] ==> p[|p| - 1].at + Gap(rule) <= now)
    case InRun => |p| % 2 == 1
    case RunDone => |p| % 2 == 0
    case _ => true
  }

  ghost predicate Paced(s: State, j: JobId)
    requires j < |s.insts|
  {
    var p := Mine(s.log, j);
    && Spaced(p, Gap(s.insts[j].rule))
    && (p != [] ==> p[|p| - 1].at <= s.now)
    && (forall t: nat | Token(s, j, t) :: PhaseOk(p, s.insts[j].rule, s.timers[t].status, s.now))
  }

  /** An instance that no timer was armed for has no events. */
  ghost predicate UntouchedSilent(s: State) {
    forall j: nat | Untouched(s, j) :: Mine(s.log, j) == []
  }

  lemma UntouchedBefore(s: State, e: Step, j: JobId)
    requires Enabled(s, e) && Untouched(Next(s, e), j)
    ensures Untouched(s, j)
  {
    forall t | 0 <= t < |s.timers| ensures s.timers[t].job != j { assert Next(s, e).timers[t].job == s.timers[t].job; }
  }

  /** Only callbacks log, each for its own job. */
  lemma LogStep(s: State, e: Step)
    requires Enabled(s, e)
    ensures var log := Next(s, e).log;
            if e.EnterRun? then log == s.log + [Started(s.timers[e.timer].job, s.now)]
            else if e.LeaveRun? then log == s.log + [Ended(s.timers[e.timer].job, s.now)]
            else log == s.log
  {
  }

  lemma StepKeepsSilence(s: State, e: Step)
    requires Inv(s) && Enabled(s, e) && UntouchedSilent(s)
    ensures UntouchedSilent(Next(s, e))
  {
    hide Next, Mine, Inv;
    var s' := Next(s, e);
    LogStep(s, e);
    forall j: nat | Untouched(s', j) ensures Mine(s'.log, j) == [] {
      UntouchedBefore(s, e, j);
      if e.EnterRun? || e.LeaveRun? { MineOneMore(s.log, s'.log[|s.log|], j); }
    }
  }

  /** One more event, alternating and late enough. */
  lemma SpacedOneMore(p: seq<Event>, e: Event, gap: int)
    requires Spaced(p, gap) && (e.Started? <==> |p| % 2 == 0)
    requires p != [] ==> p[|p| - 1].at + (if |p| % 2 == 0 then gap else 0) <= e.at
    ensures Spaced(p + [e], gap)
  {
  }

  /** The events of j being the same, its pace is a matter of the phase of its timers. */
  lemma PacedByPhase(s: State, s': State, j: JobId)
    requires j < |s.insts| && Paced(s, j) && j < |s'.insts| && s'.insts[j].rule == s.insts[j].rule
    requires Mine(s'.log, j) == Mine(s.log, j) && s'.now >= s.now
    requires forall t: nat | Token(s', j, t) :: PhaseOk(Mine(s.log, j), s.insts[j].rule, s'.timers[t].status, s'.now)
    ensures Paced(s', j)
  {
  }

  /** The token of a callback is the only one of its job. */
  lemma OneCallback(s: State, s': State, u: TimerId, status: Status, t: TimerId)
    requires OneToken(s) && u < |s.timers| && Token(s, s.timers[u].job, u)
    requires s'.timers == s.timers[u := Timer(s.timers[u].job, status)] && Token(s', s.timers[u].job, t)
    ensures t == u
  {
    assert t != u ==> Token(s, s.timers[u].job, t);
  }

  /** A start is due when the callback has been spawned; an end follows a start. */
  lemma EventKeepsOwnPace(s: State, s': State, u: TimerId, event: Event)
    requires OneToken(s) && event.job < |s.insts| && Paced(s, event.job)
    requires u < |s.timers| && event.job == s.timers[u].job && event.at == s.now
    requires if event.Started? then s.timers[u].status.Spawned? else s.timers[u].status.InRun?
    requires s'.timers == s.timers[u := Timer(event.job, if event.Started? then InRun else RunDone)]
    requires s'.log == s.log + [event] && s'.insts == s.insts && s'.now == s.now
    ensures Paced(s', event.job)
  {
    hide Mine;
    var j, rule := event.job, s.insts[event.job].rule;
    var p := Mine(s.log, j);
    assert Token(s, j, u);
    MineOneMore(s.log, event, j);
    SpacedOneMore(p, event, Gap(rule));
    forall t: nat | Token(s', j, t) ensures PhaseOk(p + [event], rule, s'.timers[t].status, s'.now) {
      OneCallback(s, s', u, s'.timers[u].status, t);
    }
  }

  /** Callback u enters or leaves Run, which logs the event. */
  lemma EventKeepsPace(s: State, s': State, u: TimerId, event: Event, j: JobId)
    requires OneToken(s) && j < |s.insts| && Paced(s, j)
    requires u < |s.timers| && event.job == s.timers[u].job && event.at == s.now
    requires if event.Started? then s.timers[u].status.Spawned? else s.timers[u].status.InRun?
    requires s'.timers == s.timers[u := Timer(event.job, if event.Started? then InRun else RunDone)]
    requires s'.log == s.log + [event] && s'.insts == s.insts && s'.now == s.now
    ensures Paced(s', j)
  {
    if event.job == j {
      hide *;
      EventKeepsOwnPace(s, s', u, event);
    } else {
      hide Mine, Spaced, PhaseOk, OneToken;
      MineOneMore(s.log, event, j);
      forall t: nat | Token(s', j, t) ensures Token(s, j, t) && s'.timers[t] == s.timers[t] {}
      PacedByPhase(s, s', j);
    }
  }

  /** A timer armed between two runs is due late enough. */
  lemma ArmedOnPace(p: seq<Event>, rule: Rule, now: int, delay: int)
    requires |p| % 2 == 0 && (p != [] ==> p[|p| - 1].at <= now) && rule.Allows(delay)
    ensures PhaseOk(p, rule, Armed(now + delay), now)
  {
  }

  /** Arming happens between two runs of the job. */
  lemma ArmedBetweenRuns(s: State, e: Step, i: JobId)
    requires Inv(s) && Enabled(s, e) && UntouchedSilent(s) && i < |s.insts| && Paced(s, i)
    requires (e.ArmNew? && e.job == i) || (e.Rearm? && s.timers[e.timer].job == i)
    ensures |Mine(s.log, i)| % 2 == 0 && s.insts[i].rule.Allows(e.delay)
  {
    hide Mine, Spaced;
    if e.ArmNew? {
      assert Untouched(s, i);
    } else {
      assert Token(s, i, e.timer);
    }
  }

  /** Arming adds one timer, and changes the others of no job but by spending the callback. */
  lemma ArmStep(s: State, e: Step, j: JobId, t: TimerId)
    requires Inv(s) && Enabled(s, e) && (e.Rearm? || e.ArmNew?) && Token(Next(s, e), j, t)
    ensures if t < |s.timers| then Token(s, j, t) && Next(s, e).timers[t] == s.timers[t]
            else Next(s, e).timers[t].status == Armed(s.now + e.delay)
                 && j == (if e.Rearm? then s.timers[e.timer].job else e.job)
  {
  }

  lemma ArmLeaves(s: State, e: Step, j: JobId)
    requires Enabled(s, e) && (e.Rearm? || e.ArmNew?) && j < |s.insts|
    ensures var s' := Next(s, e);
            s'.log == s.log && s'.now == s.now && j < |s'.insts| && s'.insts[j].rule == s.insts[j].rule
  {
  }

  /** A timer is armed for job i, by the callback that held its token or from outside. */
  lemma ArmKeepsPace(s: State, e: Step, j: JobId)
    requires Inv(s) && Enabled(s, e) && (e.Rearm? || e.ArmNew?) && UntouchedSilent(s) && j < |s.insts| && Paced(s, j)
    ensures Paced(Next(s, e), j)
  {
    hide Mine, Spaced, PhaseOk, Inv, Next, UntouchedSilent;
    var s' := Next(s, e);
    var p, rule := Mine(s.log, j), s.insts[j].rule;
    ArmLeaves(s, e, j);
    forall t: nat | Token(s', j, t) ensures PhaseOk(p, rule, s'.timers[t].status, s'.now) {
      ArmStep(s, e, j, t);
      if t >= |s.timers| {
        ArmedBetweenRuns(s, e, j);
        ArmedOnPace(p, rule, s.now, e.delay);
      }
    }
    PacedByPhase(s, s', j);
  }

  /** The token is as it was, or its timer has just fired. */
  ghost predicate Aged(s: State, s': State, j: JobId, t: TimerId) {
    && Token(s, j, t) && t < |s'.timers|
    && (s'.timers[t] == s.timers[t]
        || (s'.timers[t].status.Spawned? && s.timers[t].status.Armed? && s.timers[t].status.deadline <= s.now))
  }

  /** Every other step leaves the log alone and at most fires, stops or publishes timers. */
  lemma QuietKeepsPace(s: State, s': State, j: JobId)
    requires j < |s.insts| && Paced(s, j)
    requires s'.log == s.log && s'.now >= s.now && j < |s'.insts| && s'.insts[j].rule == s.insts[j].rule
    requires forall t: nat | Token(s', j, t) :: Aged(s, s', j, t)
    ensures Paced(s', j)
  {
  }

  lemma QuietFrame(s: State, e: Step, j: JobId)
    requires Enabled(s, e) && !e.EnterRun? && !e.LeaveRun? && j < |s.insts|
    ensures var s' := Next(s, e);
            s'.log == s.log && s'.now >= s.now && j < |s'.insts| && s'.insts[j].rule == s.insts[j].rule
  {
  }

  lemma QuietCall(s: State, e: Step, j: JobId, t: TimerId)
    requires Enabled(s, e) && e.ByApi() && !e.ArmNew? && Token(Next(s, e), j, t)
    ensures Aged(s, Next(s, e), j, t)
  {
  }

  lemma QuietRuntime(s: State, e: Step, j: JobId, t: TimerId)
    requires Enabled(s, e) && !e.ByApi() && !e.EnterRun? && !e.LeaveRun? && !e.Rearm? && Token(Next(s, e), j, t)
    ensures Aged(s, Next(s, e), j, t)
  {
  }

  lemma StepKeepsPace(s: State, e: Step, j: JobId)
    requires Inv(s) && Enabled(s, e) && UntouchedSilent(s) && j < |s.insts| && Paced(s, j)
    ensures Paced(Next(s, e), j)
  {
    var s' := Next(s, e);
    if e.EnterRun? || e.LeaveRun? {
      EventKeepsPace(s, s', e.timer, s'.log[|s.log|], j);
    } else if e.Rearm? || e.ArmNew? {
      ArmKeepsPace(s, e, j);
    } else {
      QuietFrame(s, e, j);
      forall t: nat | Token(s', j, t) ensures Aged(s, s', j, t) {
        if e.ByApi() { QuietCall(s, e, j, t); } else { QuietRuntime(s, e, j, t); }
      }
      QuietKeepsPace(s, s', j);
    }
  }

  ghost predicate AllPaced(s: State) {
    UntouchedSilent(s) && forall j: nat | j < |s.insts| :: Paced(s, j)
  }

  lemma StepKeepsAllPaced(s: State, e: Step)
    requires Inv(s) && Enabled(s, e) && AllPaced(s)
    ensures AllPaced(Next(s, e))
  {
    StepKeepsSilence(s, e);
    forall j: nat | j < |Next(s, e).insts| ensures Paced(Next(s, e), j) {
      if j < |s.insts| {
        StepKeepsPace(s, e, j);
      } else {
        assert Untouched(s, j);
        assert forall t: nat :: !Token(Next(s, e), j, t);
      }
    }
  }

  /** Every instance keeps its pace in every reachable state. */
  lemma {:induction false} AlwaysPaced(now: int, steps: seq<Step>)
    requires Runs(Init(now), steps)
    ensures AllPaced(After(Init(now), steps))
  {
    if steps != [] {
      var front := steps[..|steps| - 1];
      AlwaysPaced(now, front);
      Reachable(now, front);
      StepKeepsAllPaced(After(Init(now), front), steps[|steps| - 1]);
    }
  }

  // ------------------------------------------------------- the rate bound

  /** The times are those of every other event, from the first on. */
  predicate EveryOther(times: seq<int>, p: seq<Event>) {
    |times| == (|p| + 1) / 2 && forall i | 0 <= i < |times| :: times[i] == p[2 * i].at
  }

  lemma EveryOtherStep(times: seq<int>, p: seq<Event>, e: Event)
    requires EveryOther(times, p)
    ensures EveryOther(if |p| % 2 == 0 then times + [e.at] else times, p + [e])
  {
    Halves(|p|, |times|);
    var times', q := if |p| % 2 == 0 then times + [e.at] else times, p + [e];
    forall i | 0 <= i < |times'| ensures 2 * i < |q| && times'[i] == q[2 * i].at {
      if i < |times| { assert times[i] == p[2 * i].at; }
    }
  }

  lemma Halves(n: nat, half: nat)
    requires half == (n + 1) / 2
    ensures if n % 2 == 0 then n == 2 * half && (n + 2) / 2 == half + 1 else n + 1 == 2 * half && (n + 2) / 2 == half
  {
  }

  lemma StartsOneMore(log: seq<Event>, e: Event, j: JobId)
    ensures Starts(log + [e], j) == if e == Started(j, e.at) then Starts(log, j) + [e.at] else Starts(log, j)
  {
    assert (log + [e])[..|log|] == log;
    assert Starts(log, j) + [] == Starts(log, j);
  }

  lemma SpacedFront(p: seq<Event>, e: Event, gap: int)
    requires Spaced(p + [e], gap)
    ensures Spaced(p, gap) && (e.Started? <==> |p| % 2 == 0)
  {
    assert forall i | 0 <= i < |p| :: (p + [e])[i] == p[i];
    assert (p + [e])[|p|] == e;
  }

  lemma NoStarts(j: JobId)
    ensures EveryOther(Starts([], j), Mine([], j))
  {
  }

  /** The starts are every other event. */
  lemma {:induction false} StartsAreEven(log: seq<Event>, j: JobId, gap: int)
    requires Spaced(Mine(log, j), gap)
    ensures EveryOther(Starts(log, j), Mine(log, j))
  {
    hide Spaced, Mine, Starts, EveryOther;
    if log == [] {
      NoStarts(j);
    } else {
      var front, e := log[..|log| - 1], log[|log| - 1];
      assert log == front + [e];
      MineOneMore(front, e, j);
      StartsOneMore(front, e, j);
      if e.job == j {
        SpacedFront(Mine(front, j), e, gap);
        StartsAreEven(front, j, gap);
        EveryOtherStep(Starts(front, j), Mine(front, j), e);
      } else {
        assert Mine(front, j) + [] == Mine(front, j);
        StartsAreEven(front, j, gap);
      }
    }
  }

  /** How many of the times lie in [from, to]. */
  function CountIn(times: seq<int>, from: int, to: int): nat {
    if times == [] then 0
    else CountIn(times[..|times| - 1], from, to) + (if from <= times[|times| - 1] <= to then 1 else 0)
  }

  predicate Apart(times: seq<int>, gap: int) {
    forall i | 0 < i < |times| :: times[i - 1] + gap <= times[i]
  }

  /** Lowering the end of the window to a bound of the times loses none of them. */
  lemma {:induction false} CountBelow(times: seq<int>, from: int, to: int, low: int)
    requires low <= to && forall i | 0 <= i < |times| :: times[i] <= low
    ensures CountIn(times, from, to) == CountIn(times, from, low)
  {
    if times != [] {
      CountBelow(times[..|times| - 1], from, to, low);
    }
  }

  lemma {:induction false} ApartMonotone(times: seq<int>, gap: int, i: nat)
    requires gap > 0 && Apart(times, gap) && i + 1 < |times|
    ensures times[i] + gap <= times[|times| - 1]
    decreases |times| - i
  {
    if i + 2 < |times| {
      ApartMonotone(times, gap, i + 1);
      assert times[i] + gap <= times[i + 1];
    } else {
      assert times[i] + gap <= times[i + 1];
    }
  }

  lemma OneGapMore(c: int, gap: int)
    ensures (c + 1) * gap == c * gap + gap
  {
  }

  lemma {:induction false} WindowCount(times: seq<int>, gap: int, from: int, to: int)
    requires gap > 0 && Apart(times, gap)
    ensures CountIn(times, from, to) > 0 ==> (CountIn(times, from, to) - 1) * gap <= to - from
  {
    if times != [] {
      var front, last := times[..|times| - 1], times[|times| - 1];
      assert Apart(front, gap);
      if from <= last <= to {
        forall i | 0 <= i < |front| ensures front[i] <= last - gap { ApartMonotone(times, gap, i); }
        CountBelow(front, from, to, last - gap);
        WindowCount(front, gap, from, last - gap);
        OneGapMore(CountIn(front, from, to) - 1, gap);
      } else {
        WindowCount(front, gap, from, to);
      }
    }
  }

  lemma MoreGaps(a: int, b: int, gap: int)
    requires a <= b && gap > 0
    ensures a * gap <= b * gap
  {
  }

  lemma AtMostQuotient(c: int, gap: int, span: nat)
    requires gap > 0 && c * gap <= span
    ensures c <= span / gap
  {
    var q := span / gap;
    assert q * gap <= span < q * gap + gap;
    OneGapMore(q, gap);
    if q + 1 <= c {
      MoreGaps(q + 1, c, gap);
    }
  }

  /**
   In every interleaving the runs of one instance alternate, the next start at least
   the interval after the end of the last.
   */
  lemma RunsAlternate(now: int, steps: seq<Step>, j: JobId)
    requires Runs(Init(now), steps) && j < |After(Init(now), steps).insts|
    ensures var s := After(Init(now), steps); Spaced(Mine(s.log, j), Gap(s.insts[j].rule))
  {
    AlwaysPaced(now, steps);
    assert Paced(After(Init(now), steps), j);
  }

  lemma StartsApart(log: seq<Event>, j: JobId, gap: int)
    requires Spaced(Mine(log, j), gap)
    ensures Apart(Starts(log, j), gap)
  {
    StartsAreEven(log, j, gap);
    var times, p := Starts(log, j), Mine(log, j);
    forall i | 0 < i < |times| ensures times[i - 1] + gap <= times[i] {
      assert p[2 * i - 2].at <= p[2 * i - 1].at;
      assert p[2 * i - 1].at + gap <= p[2 * i].at;
    }
  }

  /**
   The rate bound: in every interleaving an interval job starts at most
   span/interval + 1 runs in any window of the given span.
   */
  lemma RateBound(now: int, steps: seq<Step>, j: JobId, from: int, span: nat)
    requires Runs(Init(now), steps) && j < |After(Init(now), steps).insts|
    requires After(Init(now), steps).insts[j].rule.Every? && After(Init(now), steps).insts[j].rule.interval > 0
    ensures var s := After(Init(now), steps);
            CountIn(Starts(s.log, j), from, from + span) <= span / s.insts[j].rule.interval + 1
  {
    hide *;
    var s := After(Init(now), steps);
    var gap := s.insts[j].rule.interval;
    RunsAlternate(now, steps, j);
    GapIsInterval(s.insts[j].rule);
    StartsApart(s.log, j, gap);
    WindowBound(Starts(s.log, j), gap, from, span);
  }

  lemma GapIsInterval(rule: Rule)
    requires rule.Every?
    ensures Gap(rule) == rule.interval
  {
  }

  /** How many times that far apart fit in a window. */
  lemma WindowBound(times: seq<int>, gap: int, from: int, span: nat)
    requires gap > 0 && Apart(times, gap)
    ensures CountIn(times, from, from + span) <= span / gap + 1
  {
    hide *;
    var c := CountIn(times, from, from + span);
    WindowCount(times, gap, from, from + span);
    if c > 0 { AtMostQuotient(c - 1, gap, span); } else { QuotientIsNatural(span, gap); }
  }

  lemma QuotientIsNatural(span: nat, gap: int)
    requires gap > 0
    ensures span / gap >= 0
  {
  }
}
