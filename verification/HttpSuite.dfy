/**
 A run of a suite of HTTP tests: the runner's loops and the tests' attempts as
 one machine.  What an attempt logs decides whether the runner retries; what it
 saves decides what later attempts request.

 The machine takes one step for each observation of the run, as RunSpec counts
 them.
 */
module HttpSuite {
  import opened Options
  import opened Json
  import opened Response
  import opened HttpTest
  import opened MetadataFlow
  import opened RunSpec

  /** A prepared test. */
  datatype Plan = Plan(url: UrlValue, expect_: Expectation)

  /** Everything outside of the program, by observation. */
  datatype Net = Net(
    answer: int -> Option<Received>,
    took: int -> nat,
    waited: int -> nat,
    cancelled: int -> bool,
    picksDone: int -> bool
  )

  /** word gives the texts of the logged entries, in the order in which they are logged. */
  datatype Setup = Setup(
    lib: Library, print_: Printer, plans: seq<Plan>, c: Settings, net: Net, word: set<Entry> -> seq<string>)

  datatype Joint =
    | AtAttempt(i: nat, k: nat, docs: map<string, Json>)  // attempt k of test i is next
    | AtWait(i: nat, k: nat, docs: map<string, Json>)     // the retry select after it
    | AtCheck(i: nat, docs: map<string, Json>)            // the look at ctx.Err() after test i
    | Over(docs: map<string, Json>)
    | Crashed(docs: map<string, Json>)

  /** Test i, attempted at observation t. */
  function Tried(u: Setup, t: int, i: nat): Attempt
    requires i < |u.plans|
  {
    Attempt(u.plans[i].url, u.plans[i].expect_, u.net.answer(t))
  }

  /** What an attempt logs. */
  function LoggedBy(lib: Library, a: Attempt): set<Entry> {
    match a.answer
    case None => {RequestFailed}
    case Some(r) => Faults(lib, a.expect_, r, true)
  }

  predicate Panics(lib: Library, docs: map<string, Json>, a: Attempt) {
    UrlPanics(a.url, docs) || (a.answer.Some? && ValuesPanic(lib, a.expect_, a.answer.value))
  }

  function Saved(lib: Library, docs: map<string, Json>, a: Attempt): map<string, Json> {
    if Saving(lib, a) then docs[a.expect_.id := SavedDoc(lib, a)] else docs
  }

  /** After a test that has failed for good. */
  function GaveUp(u: Setup, i: nat, docs: map<string, Json>): Joint {
    if u.c.failfast then Over(docs) else AtCheck(i, docs)
  }

  function Step(u: Setup, t: int, s: Joint): Joint {
    match s
    case AtAttempt(i, k, docs) =>
      if i >= |u.plans| then Over(docs)
      else
        var a := Tried(u, t, i);
        if Panics(u.lib, docs, a) then Crashed(docs)
        else if LoggedBy(u.lib, a) == {} then AtCheck(i, Saved(u.lib, docs, a))
        else if k >= u.c.retryCount then GaveUp(u, i, Saved(u.lib, docs, a))
        else AtWait(i, k, Saved(u.lib, docs, a))
    case AtWait(i, k, docs) =>
      if u.net.cancelled(t) && u.net.picksDone(t) then GaveUp(u, i, docs) else AtAttempt(i, k + 1, docs)
    case AtCheck(i, docs) =>
      if u.net.cancelled(t) || i + 1 >= |u.plans| then Over(docs) else AtAttempt(i + 1, 1, docs)
    case _ => s
  }

  /** Where the run is at observation t: it starts with the first test and no documents. */
  function JointAt(u: Setup, t: nat): Joint {
    if t == 0 then (if u.plans == [] then Over(map[]) else AtAttempt(0, 1, map[]))
    else Step(u, t - 1, JointAt(u, t - 1))
  }

  predicate Attempting(u: Setup, t: nat) {
    JointAt(u, t).AtAttempt? && JointAt(u, t).i < |u.plans|
  }

  /** What the attempt at observation t logs. */
  function OutcomeAt(u: Setup, t: int): seq<string> {
    if t >= 0 && Attempting(u, t) then u.word(LoggedBy(u.lib, Tried(u, t, JointAt(u, t).i))) else []
  }

  /** The world that the runner sees: outcomes are what the tests log. */
  function Induced(u: Setup): World {
    World(t => OutcomeAt(u, t), u.net.took, u.net.waited, u.net.cancelled, u.net.picksDone)
  }

  /** Logging something is what makes a report not empty. */
  ghost predicate Worded(u: Setup) {
    forall s :: u.word(s) == [] <==> s == {}
  }

  /** ... and no attempt panics. */
  ghost predicate WellBehaved(u: Setup) {
    Worded(u) && forall t: nat :: !JointAt(u, t).Crashed?
  }

  // ------------------------------------------------- runner and tests agree

  predicate AttemptOf(u: Setup, t: int, i: nat, k: nat) {
    t >= 0 && Attempting(u, t) && JointAt(u, t).i == i && JointAt(u, t).k == k
  }

  /** A failed attempt that is followed by another one. */
  lemma NextAttempt(u: Setup, t: int, i: nat, k: nat)
    requires WellBehaved(u) && AttemptOf(u, t, i, k) && k < u.c.retryCount
    requires Induced(u).outcome(t) != [] && !GivesUp(Induced(u), t + 1)
    ensures AttemptOf(u, t + 2, i, k + 1)
  {
    assert !JointAt(u, t + 1).Crashed?;
    assert JointAt(u, t + 1) == Step(u, t, JointAt(u, t));
    assert JointAt(u, t + 2) == Step(u, t + 1, JointAt(u, t + 1));
  }

  predicate CheckOf(u: Setup, t: int, i: nat) {
    t >= 0 && JointAt(u, t).AtCheck? && JointAt(u, t).i == i
  }

  /** The last attempt of a test leads to the look at the context, unless fail-fast ends the run. */
  lemma LastAttempt(u: Setup, t: int, i: nat, k: nat)
    requires WellBehaved(u) && AttemptOf(u, t, i, k)
    ensures Induced(u).outcome(t) == [] ==> CheckOf(u, t + 1, i)
    ensures Induced(u).outcome(t) != [] && !u.c.failfast && k >= u.c.retryCount ==> CheckOf(u, t + 1, i)
    ensures Induced(u).outcome(t) != [] && !u.c.failfast && k < u.c.retryCount && GivesUp(Induced(u), t + 1) ==>
              CheckOf(u, t + 2, i)
  {
    assert !JointAt(u, t + 1).Crashed?;
    assert JointAt(u, t + 1) == Step(u, t, JointAt(u, t));
    assert JointAt(u, t + 2) == Step(u, t + 1, JointAt(u, t + 1));
  }

  lemma CheckGoesOn(u: Setup, t: int, i: nat)
    requires CheckOf(u, t, i) && !Induced(u).cancelled(t) && i + 1 < |u.plans|
    ensures AttemptOf(u, t + 1, i + 1, 1)
  {
    assert JointAt(u, t + 1) == Step(u, t, JointAt(u, t));
  }

  lemma FirstAttempt(u: Setup)
    requires u.plans != []
    ensures AttemptOf(u, 0, 0, 1)
  {
  }

  lemma {:induction false} AttemptsOfTest(u: Setup, i: nat, r: Rec, a: nat)
    requires WellBehaved(u) && Retried(Induced(u), u.c.retryCount, r)
    requires AttemptOf(u, r.start, i, 1) && a < r.attempts
    ensures AttemptOf(u, r.AttemptAt(a), i, a + 1)
  {
    hide JointAt, Step, WellBehaved, AttemptOf, Induced, GivesUp;
    if a > 0 {
      AttemptsOfTest(u, i, r, a - 1);
      assert Induced(u).outcome(r.AttemptAt(a - 1)) != [] && !GivesUp(Induced(u), r.WaitAt(a - 1));
      NextAttempt(u, r.AttemptAt(a - 1), i, a);
    }
  }

  /** The test is over when the runner looks at the context. */
  lemma CheckAfterTest(u: Setup, i: nat, r: Rec)
    requires WellBehaved(u) && Retried(Induced(u), u.c.retryCount, r) && AttemptOf(u, r.start, i, 1)
    requires !(u.c.failfast && r.Failed())
    ensures CheckOf(u, r.CheckAt(u.c.retryCount), i)
  {
    hide JointAt, Step, WellBehaved, AttemptOf, Induced, GivesUp, CheckOf;
    AttemptsOfTest(u, i, r, r.attempts - 1);
    LastAttempt(u, r.AttemptAt(r.attempts - 1), i, r.attempts);
  }

  lemma NextTest(u: Setup, i: nat, a: Rec, b: Rec)
    requires WellBehaved(u) && Retried(Induced(u), u.c.retryCount, a) && AttemptOf(u, a.start, i, 1)
    requires Follows(Induced(u), u.c, a, b) && i + 1 < |u.plans|
    ensures AttemptOf(u, b.start, i + 1, 1)
  {
    hide JointAt, Step, WellBehaved, AttemptOf, Induced, CheckOf, Retried;
    CheckAfterTest(u, i, a);
    CheckGoesOn(u, a.CheckAt(u.c.retryCount), i);
  }

  lemma {:induction false} TestsInOrder(u: Setup, recs: seq<Rec>, i: nat)
    requires WellBehaved(u) && Prefix(Induced(u), u.c, 0, recs) && |recs| <= |u.plans| && i < |recs|
    ensures AttemptOf(u, recs[i].start, i, 1)
  {
    hide JointAt, Step, WellBehaved, AttemptOf, Induced, Retried, Follows;
    if i > 0 {
      TestsInOrder(u, recs, i - 1);
      assert Follows(Induced(u), u.c, recs[i - 1], recs[i]);
      NextTest(u, i - 1, recs[i - 1], recs[i]);
    } else {
      FirstAttempt(u);
    }
  }

  lemma OutcomeIsLog(u: Setup, t: int, i: nat, k: nat)
    requires AttemptOf(u, t, i, k)
    ensures Induced(u).outcome(t) == u.word(LoggedBy(u.lib, Tried(u, t, i)))
  {
  }

  /**
   The runner and the tests are one machine: every attempt that the runner
   records is the attempt that the machine makes at that observation, and the
   report of a test holds what its last attempt logged.
   */
  lemma RunnerAgrees(u: Setup, recs: seq<Rec>, i: nat, a: nat)
    requires WellBehaved(u) && Complete(Induced(u), u.c, 0, |u.plans|, recs)
    requires i < |recs| && a < recs[i].attempts
    ensures AttemptOf(u, recs[i].AttemptAt(a), i, a + 1)
    ensures a == recs[i].attempts - 1 ==>
              recs[i].errs == u.word(LoggedBy(u.lib, Tried(u, recs[i].AttemptAt(a), i)))
  {
    hide JointAt, Step, WellBehaved, AttemptOf, Induced, LoggedBy, Tried;
    TestsInOrder(u, recs, i);
    AttemptsOfTest(u, i, recs[i], a);
    OutcomeIsLog(u, recs[i].AttemptAt(a), i, a + 1);
  }

  /** The response to the last attempt of test i was the expected one. */
  predicate Met(u: Setup, recs: seq<Rec>, i: nat)
    requires i < |recs| && i < |u.plans| && recs[i].attempts > 0
  {
    var answer := u.net.answer(recs[i].AttemptAt(recs[i].attempts - 1));
    answer.Some? && Meets(u.lib, u.plans[i].expect_, answer.value, true)
  }

  /** A report is empty exactly when the response to the test's last attempt met every expectation. */
  lemma PassedIffMet(u: Setup, recs: seq<Rec>, i: nat)
    requires WellBehaved(u) && Complete(Induced(u), u.c, 0, |u.plans|, recs) && i < |recs|
    ensures recs[i].attempts > 0 && (recs[i].errs == [] <==> Met(u, recs, i))
  {
    hide JointAt, Step, AttemptOf, Induced, Faults, Meets;
    var a := recs[i].attempts - 1;
    RunnerAgrees(u, recs, i, a);
    var answer := u.net.answer(recs[i].AttemptAt(a));
    if answer.Some? { NoFaultsIffMeets(u.lib, u.plans[i].expect_, answer.value, true); }
  }

  /**
   From responses to the verdict: under a context that is never done, a suite
   reports no failure exactly when every test was run and the response to its
   last attempt met every expectation.
   */
  lemma SuiteVerdict(u: Setup, recs: seq<Rec>)
    requires WellBehaved(u) && Complete(Induced(u), u.c, 0, |u.plans|, recs) && NeverCancelled(Induced(u))
    ensures CountFailed(recs) == 0 <==>
              |recs| == |u.plans| && forall i | 0 <= i < |recs| :: recs[i].attempts > 0 && Met(u, recs, i)
  {
    hide Induced, Met, WellBehaved;
    UncancelledRun(Induced(u), u.c, 0, |u.plans|, recs);
    forall i | 0 <= i < |recs| ensures recs[i].attempts > 0 && (recs[i].errs == [] <==> Met(u, recs, i)) {
      PassedIffMet(u, recs, i);
    }
  }

  // --------------------------------------------------- requests and documents

  /** The attempts made before observation t. */
  function AttemptsBefore(u: Setup, t: nat): seq<Attempt> {
    if t == 0 then []
    else AttemptsBefore(u, t - 1)
         + (if Attempting(u, t - 1) then [Tried(u, t - 1, JointAt(u, t - 1).i)] else [])
  }

  /** The URLs requested before observation t. */
  function RequestsBefore(u: Setup, t: nat): seq<UrlValue> {
    if t == 0 then []
    else RequestsBefore(u, t - 1)
         + (if Attempting(u, t - 1)
            then [Issue(u.plans[JointAt(u, t - 1).i].url, JointAt(u, t - 1).docs, u.print_)]
            else [])
  }

  /** Only attempts change the documents. */
  lemma StepSaves(u: Setup, t: nat, s: Joint)
    requires !Step(u, t, s).Crashed? && (s.AtAttempt? ==> s.i < |u.plans|)
    ensures Step(u, t, s).docs == if s.AtAttempt? then Saved(u.lib, s.docs, Tried(u, t, s.i)) else s.docs
  {
  }

  lemma OneMoreSaved(lib: Library, attempts: seq<Attempt>, a: Attempt)
    ensures DocsAfter(lib, attempts + [a]) == Saved(lib, DocsAfter(lib, attempts), a)
  {
    assert (attempts + [a])[..|attempts|] == attempts;
  }

  /**
   At every observation the metadata is what the attempts before it saved, and
   each of them requested its URL rendered with what the attempts before it saved.
   */
  lemma {:induction false} MetadataOfRun(u: Setup, t: nat)
    requires !JointAt(u, t).Crashed?
    ensures JointAt(u, t).docs == DocsAfter(u.lib, AttemptsBefore(u, t))
    ensures IssuedInOrder(u.lib, u.print_, AttemptsBefore(u, t), RequestsBefore(u, t))
  {
    hide IssuedInOrder, Issue, DocsAfter, Panics, LoggedBy, Saved;
    if t == 0 {
      NothingIssued(u.lib, u.print_);
    } else {
      assert JointAt(u, t) == Step(u, t - 1, JointAt(u, t - 1));
      MetadataOfRun(u, t - 1);
      var s, before, issued := JointAt(u, t - 1), AttemptsBefore(u, t - 1), RequestsBefore(u, t - 1);
      if s.AtAttempt? ==> s.i < |u.plans| { StepSaves(u, t - 1, s); }
      if Attempting(u, t - 1) {
        var a := Tried(u, t - 1, s.i);
        OneMoreSaved(u.lib, before, a);
        OneMoreIssued(u.lib, u.print_, before, issued, a, Issue(a.url, s.docs, u.print_));
      } else {
        assert before + [] == before && issued + [] == issued;
      }
    }
  }

  /** Every attempt that the runner records requests its URL rendered with what the attempts before it saved. */
  lemma RequestOfAttempt(u: Setup, recs: seq<Rec>, i: nat, a: nat)
    requires WellBehaved(u) && Complete(Induced(u), u.c, 0, |u.plans|, recs)
    requires i < |recs| && a < recs[i].attempts
    ensures var t := recs[i].AttemptAt(a);
            && AttemptOf(u, t, i, a + 1)
            && RequestsBefore(u, t + 1) ==
                 RequestsBefore(u, t) + [Issue(u.plans[i].url, DocsAfter(u.lib, AttemptsBefore(u, t)), u.print_)]
  {
    hide Complete, Prefix, JointAt, Induced, WellBehaved, Issue, LoggedBy;
    RunnerAgrees(u, recs, i, a);
    MetadataOfRun(u, recs[i].AttemptAt(a));
  }

  // --------------------------------------------------------- the attempt itself

  /**
   Run, called at an attempt of the machine, takes its step: it logs the outcome,
   issues the request and saves the documents.
   */
  method RunAt(u: Setup, t: nat, test: Test, log: Log, md: Metadata) returns (issued: UrlValue, panicked: bool)
    requires Attempting(u, t) && u.plans[JointAt(u, t).i] == Plan(test.req.url.View(), test.expect_)
    requires test.Prepared() && log.entries == [] && md.docs == JointAt(u, t).docs
    modifies log, md
    ensures panicked == JointAt(u, t + 1).Crashed? && md.docs == JointAt(u, t + 1).docs
    ensures !panicked ==> Logged([], log.entries, LoggedBy(u.lib, Tried(u, t, JointAt(u, t).i)))
    ensures !panicked ==> RequestsBefore(u, t + 1) == RequestsBefore(u, t) + [issued]
  {
    hide Faults, Issue, UrlPanics, ValuesPanic, Rendered, NegativeName, Lookup;
    issued, panicked := test.Run(u.lib, u.print_, log, md, u.net.answer(t));
    assert JointAt(u, t + 1) == Step(u, t, JointAt(u, t));
    if !panicked && u.net.answer(t).None? {
      assert log.entries == [RequestFailed] && log.entries[0..] == log.entries;
    }
  }
}
