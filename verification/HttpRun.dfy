/**
 The runner's loops over real HTTP tests: the program whose steps the joint
 machine of HttpSuite takes.
 */
module HttpRun {
  import opened Options
  import opened Json
  import opened Response
  import opened HttpTest
  import opened RunSpec
  import opened HttpSuite
  import opened MetadataFlow

  /** The tests are the prepared ones of the setup. */
  predicate TestsOf(u: Setup, tests: seq<Test>)
    reads tests, set t | t in tests :: t.req, set t | t in tests :: t.req.url
  {
    && |tests| == |u.plans|
    && forall i | 0 <= i < |tests| ::
         tests[i].Prepared() && u.plans[i] == Plan(tests[i].req.url.View(), tests[i].expect_)
  }

  /** What the last attempt of a recorded test logged. */
  function LastLog(u: Setup, i: nat, r: Rec): set<Entry>
    requires i < |u.plans|
  {
    LoggedBy(u.lib, Tried(u, r.AttemptAt(r.attempts - 1), i))
  }

  lemma EmptyLog(u: Setup, entries: seq<Entry>, faults: set<Entry>)
    requires Worded(u) && Logged([], entries, faults)
    ensures entries == [] <==> faults == {}
    ensures u.word(faults) == [] <==> faults == {}
  {
    assert entries[0..] == entries;
    assert |multiset(entries)| == |entries| && |multiset(faults)| == |faults|;
  }

  predicate Ended(s: Joint) { s.Over? || s.Crashed? }

  /** The run ends at this observation. */
  predicate EndsAt(u: Setup, t: nat) {
    Ended(JointAt(u, t)) && (t > 0 ==> !Ended(JointAt(u, t - 1)))
  }

  lemma {:induction false} EndedStays(u: Setup, t: nat, later: nat)
    requires t <= later && Ended(JointAt(u, t))
    ensures JointAt(u, later) == JointAt(u, t)
    decreases later
  {
    hide JointAt, Ended;
    if t < later {
      EndedStays(u, t, later - 1);
      EndedOnce(u, later - 1);
    }
  }

  lemma EndedOnce(u: Setup, t: nat)
    requires Ended(JointAt(u, t))
    ensures JointAt(u, t + 1) == JointAt(u, t)
  {
    assert JointAt(u, t + 1) == Step(u, t, JointAt(u, t));
  }

  /** A run ends once. */
  lemma EndIsUnique(u: Setup, t: nat, t': nat)
    requires EndsAt(u, t) && EndsAt(u, t')
    ensures t == t'
  {
    hide JointAt, Ended;
    if t < t' {
      EndedStays(u, t, t' - 1);
    } else if t' < t {
      EndedStays(u, t', t - 1);
    }
  }

  /** The steps of the machine at an attempt that has not panicked. */
  lemma AttemptStep(u: Setup, t: nat, i: nat, k: nat)
    requires AttemptOf(u, t, i, k) && !JointAt(u, t + 1).Crashed?
    ensures var failed, docs := LoggedBy(u.lib, Tried(u, t, i)) != {}, JointAt(u, t + 1).docs;
            JointAt(u, t + 1) == if !failed then AtCheck(i, docs)
                                 else if k >= u.c.retryCount then GaveUp(u, i, docs)
                                 else AtWait(i, k, docs)
    ensures Ended(JointAt(u, t + 1)) ==> EndsAt(u, t + 1)
    ensures Induced(u).outcome(t) == u.word(LoggedBy(u.lib, Tried(u, t, i)))
  {
    assert JointAt(u, t + 1) == Step(u, t, JointAt(u, t));
  }

  lemma WaitStep(u: Setup, t: nat, i: nat, k: nat)
    requires JointAt(u, t).AtWait? && JointAt(u, t).i == i && JointAt(u, t).k == k && i < |u.plans|
    ensures GivesUp(Induced(u), t) ==> JointAt(u, t + 1) == GaveUp(u, i, JointAt(u, t).docs)
    ensures !GivesUp(Induced(u), t) ==> AttemptOf(u, t + 1, i, k + 1) && JointAt(u, t + 1).docs == JointAt(u, t).docs
    ensures Ended(JointAt(u, t + 1)) ==> EndsAt(u, t + 1)
    ensures RequestsBefore(u, t + 1) == RequestsBefore(u, t)
  {
    assert JointAt(u, t + 1) == Step(u, t, JointAt(u, t));
    assert RequestsBefore(u, t) + [] == RequestsBefore(u, t);
  }

  lemma CheckStep(u: Setup, t: nat, i: nat)
    requires JointAt(u, t).AtCheck? && JointAt(u, t).i == i
    ensures JointAt(u, t + 1).docs == JointAt(u, t).docs
    ensures !u.net.cancelled(t) && i + 1 < |u.plans| ==> AttemptOf(u, t + 1, i + 1, 1)
    ensures u.net.cancelled(t) || i + 1 >= |u.plans| ==> JointAt(u, t + 1).Over? && EndsAt(u, t + 1)
    ensures RequestsBefore(u, t + 1) == RequestsBefore(u, t)
  {
    assert JointAt(u, t + 1) == Step(u, t, JointAt(u, t));
    assert RequestsBefore(u, t) + [] == RequestsBefore(u, t);
  }

  /** Where the machine is when a test is over. */
  predicate TestOver(u: Setup, t: nat, i: nat, failed: bool) {
    if failed && u.c.failfast then JointAt(u, t).Over? && EndsAt(u, t)
    else JointAt(u, t).AtCheck? && JointAt(u, t).i == i
  }

  /** The retry loop over one test. */
  method RunTestWithRetry(u: Setup, test: Test, md: Metadata, t: nat, i: nat, issued: seq<UrlValue>)
    returns (ok: bool, entries: seq<Entry>, issued': seq<UrlValue>, t': nat, panicked: bool, ghost rec: Rec)
    requires Worded(u) && AttemptOf(u, t, i, 1) && md.docs == JointAt(u, t).docs && issued == RequestsBefore(u, t)
    requires test.Prepared() && u.plans[i] == Plan(test.req.url.View(), test.expect_)
    modifies md
    ensures md.docs == JointAt(u, t').docs
    ensures panicked ==> t' > 0 && JointAt(u, t').Crashed? && EndsAt(u, t') && issued' == RequestsBefore(u, t' - 1)
    ensures !panicked ==>
              && rec.start == t && Retried(Induced(u), u.c.retryCount, rec) && t' == rec.CheckAt(u.c.retryCount)
              && TestOver(u, t', i, rec.Failed()) && ok == !rec.Failed()
              && Logged([], entries, LastLog(u, i, rec)) && issued' == RequestsBefore(u, t')
  {
    hide JointAt, RequestsBefore, AttemptOf, Attempting, Induced, Logged, Worded;
    hide FailedSoFar, Retried, LoggedBy, Tried, GivesUp;
    ghost var w := Induced(u);
    var log := new Log();
    var attempt := 1;
    t', issued' := t, issued;
    FailedOnce(w, t, 0);
    while true
      invariant attempt >= 1 && (attempt == 1 || attempt <= u.c.retryCount) && t' == t + 2 * (attempt - 1)
      invariant AttemptOf(u, t', i, attempt) && md.docs == JointAt(u, t').docs && issued' == RequestsBefore(u, t')
      invariant fresh(log) && log.entries == [] && FailedSoFar(w, t, attempt - 1)
      decreases u.c.retryCount - attempt
    {
      AttemptIsOne(u, t', i, attempt);
      CrashEnds(u, t');
      var url;
      url, panicked := RunAt(u, t', test, log, md);
      if panicked {
        t' := t' + 1;
        return false, [], issued', t', true, Rec(t, attempt, []);
      }
      AttemptStep(u, t', i, attempt);
      FailedOnce(w, t, attempt - 1);
      EmptyLog(u, log.entries, LoggedBy(u.lib, Tried(u, t', i)));
      rec := Rec(t, attempt, w.outcome(t'));
      entries, issued', t' := log.entries, issued' + [url], t' + 1;
      ok := |log.entries| == 0;
      if ok || attempt >= u.c.retryCount {
        StopsRetrying(w, u.c.retryCount, rec);
        return;
      }
      WaitStep(u, t', i, attempt);
      var gaveUp := GivesUpNow(u, t');
      t' := t' + 1;
      if gaveUp {
        StopsRetrying(w, u.c.retryCount, rec);
        return;
      }
      log.Reset();
      attempt := attempt + 1;
    }
  }

  lemma CrashEnds(u: Setup, t: nat)
    requires Attempting(u, t)
    ensures JointAt(u, t + 1).Crashed? ==> EndsAt(u, t + 1)
  {
  }

  lemma AttemptIsOne(u: Setup, t: nat, i: nat, k: nat)
    requires AttemptOf(u, t, i, k)
    ensures Attempting(u, t) && JointAt(u, t).i == i
  {
  }

  function GivesUpNow(u: Setup, t: nat): (r: bool)
    ensures r == GivesUp(Induced(u), t)
  {
    u.net.cancelled(t) && u.net.picksDone(t)
  }

  lemma StartOf(u: Setup)
    ensures JointAt(u, 0).docs == map[] && RequestsBefore(u, 0) == []
    ensures if u.plans == [] then JointAt(u, 0).Over? && EndsAt(u, 0) else AttemptOf(u, 0, 0, 1)
  {
  }

  /** The reports so far hold what their tests' last attempts logged. */
  ghost predicate LogsKept(u: Setup, reports: seq<seq<Entry>>, recs: seq<Rec>) {
    |recs| == |reports| <= |u.plans|
    && forall i | 0 <= i < |recs| :: Logged([], reports[i], LastLog(u, i, recs[i]))
  }

  /** The tests reported so far, when another one is next. */
  ghost predicate Progress(u: Setup, reports: seq<seq<Entry>>, recs: seq<Rec>, t: int) {
    && LogsKept(u, reports, recs) && t == NextStart(u.c, 0, recs) && Prefix(Induced(u), u.c, 0, recs)
    && (recs != [] ==> GoesOn(Induced(u), u.c, recs[|recs| - 1]))
  }

  /** The reports of a whole run. */
  ghost predicate Reported(u: Setup, reports: seq<seq<Entry>>, recs: seq<Rec>) {
    LogsKept(u, reports, recs) && Complete(Induced(u), u.c, 0, |u.plans|, recs)
  }

  lemma NoProgress(u: Setup)
    ensures Progress(u, [], [], 0)
  {
    RunSpec.NothingYet(Induced(u), u.c, 0);
  }

  lemma MoreProgress(u: Setup, reports: seq<seq<Entry>>, recs: seq<Rec>, entries: seq<Entry>, rec: Rec)
    requires Progress(u, reports, recs, rec.start) && Retried(Induced(u), u.c.retryCount, rec) && |recs| < |u.plans|
    requires Logged([], entries, LastLog(u, |recs|, rec))
    ensures if GoesOn(Induced(u), u.c, rec)
            then Progress(u, reports + [entries], recs + [rec], rec.CheckAt(u.c.retryCount) + 1)
            else Reported(u, reports + [entries], recs + [rec])
  {
    hide GoesOn, Prefix, Retried, Induced, Logged, LastLog;
    OneMoreTest(Induced(u), u.c, 0, recs, rec);
  }

  lemma AllReported(u: Setup, reports: seq<seq<Entry>>, recs: seq<Rec>, t: int)
    requires Progress(u, reports, recs, t) && |recs| == |u.plans|
    ensures Reported(u, reports, recs)
  {
  }

  /**
   Each request was rendered with what the attempts before it had saved, and the
   documents are what they all saved.
   */
  ghost predicate Metadated(u: Setup, t: nat, issued: seq<UrlValue>, docs: map<string, Json>) {
    && issued == RequestsBefore(u, t) && docs == DocsAfter(u.lib, AttemptsBefore(u, t))
    && IssuedInOrder(u.lib, u.print_, AttemptsBefore(u, t), issued)
  }

  lemma RunMetadated(u: Setup, t: nat)
    requires JointAt(u, t).Over?
    ensures Metadated(u, t, RequestsBefore(u, t), JointAt(u, t).docs)
  {
    hide JointAt, AttemptsBefore, RequestsBefore, IssuedInOrder, DocsAfter;
    MetadataOfRun(u, t);
  }

  lemma PanicMetadated(u: Setup, n: nat)
    requires JointAt(u, n + 1).Crashed? && !Ended(JointAt(u, n))
    ensures Metadated(u, n, RequestsBefore(u, n), JointAt(u, n + 1).docs)
  {
    hide JointAt, Step, AttemptsBefore, RequestsBefore, IssuedInOrder, DocsAfter;
    JointStep(u, n);
    CrashKeepsDocs(u, n, JointAt(u, n));
    MetadataOfRun(u, n);
  }

  lemma EndsAfter(u: Setup, end: nat)
    requires EndsAt(u, end) && end > 0
    ensures !Ended(JointAt(u, end - 1))
  {
  }

  lemma JointStep(u: Setup, t: nat)
    ensures JointAt(u, t + 1) == Step(u, t, JointAt(u, t))
  {
  }

  lemma CrashKeepsDocs(u: Setup, t: nat, s: Joint)
    requires Step(u, t, s).Crashed? && !Ended(s)
    ensures Step(u, t, s).docs == s.docs
  {
  }

  /**
   The loop over the tests, and all that it leads to: reports, requests and
   saved documents are those of the joint machine, and so is a panic.
   */
  method RunTests(u: Setup, tests: seq<Test>)
    returns (reports: seq<seq<Entry>>, issued: seq<UrlValue>, docs: map<string, Json>, panicked: bool,
             ghost recs: seq<Rec>, ghost end: nat)
    requires Worded(u) && TestsOf(u, tests)
    ensures EndsAt(u, end) && docs == JointAt(u, end).docs && panicked == JointAt(u, end).Crashed?
    ensures panicked ==> end > 0 && issued == RequestsBefore(u, end - 1)
    ensures !panicked ==> issued == RequestsBefore(u, end) && Reported(u, reports, recs)
    ensures Metadated(u, if panicked then end - 1 else end, issued, docs)
  {
    hide JointAt, RequestsBefore, AttemptOf, Induced, Logged, Worded, Retried, GoesOn, LastLog;
    hide EndsAt, TestOver, TestsOf, Progress, Reported, Metadated;
    var md := new Metadata();
    var t: nat := 0;
    reports, issued, recs := [], [], [];
    StartOf(u);
    SamePlans(u, tests);
    NoProgress(u);
    var i := 0;
    while i < |tests|
      invariant 0 <= i <= |tests| && |recs| == i && fresh(md) && TestsOf(u, tests)
      invariant Progress(u, reports, recs, t) && md.docs == JointAt(u, t).docs && issued == RequestsBefore(u, t)
      invariant if i < |tests| then AttemptOf(u, t, i, 1) else EndsAt(u, t) && JointAt(u, t).Over?
    {
      TestIs(u, tests, i);
      var ok, entries;
      ghost var rec;
      ok, entries, issued, t, panicked, rec := RunTestWithRetry(u, tests[i], md, t, i, issued);
      end := t;
      if panicked {
        EndsAfter(u, end);
        PanicMetadated(u, end - 1);
        return reports, issued, md.docs, true, recs, end;
      }
      MoreProgress(u, reports, recs, entries, rec);
      var goesOn := AfterTest(u, t, i, ok, rec);
      reports, recs, i := reports + [entries], recs + [rec], i + 1;
      if !ok && u.c.failfast {
        RunMetadated(u, end);
        return reports, issued, md.docs, false, recs, end;
      }
      t := t + 1;
      end := t;
      if !goesOn {
        RunMetadated(u, end);
        return reports, issued, md.docs, false, recs, end;
      }
    }
    AllReported(u, reports, recs, t);
    RunMetadated(u, t);
    return reports, issued, md.docs, false, recs, t;
  }

  /** The look at the context after a test, unless fail-fast has ended the run. */
  method AfterTest(u: Setup, t: nat, i: nat, ok: bool, ghost rec: Rec) returns (goesOn: bool)
    requires TestOver(u, t, i, rec.Failed()) && ok == !rec.Failed() && t == rec.CheckAt(u.c.retryCount)
    ensures !ok && u.c.failfast ==> JointAt(u, t).Over? && EndsAt(u, t) && !GoesOn(Induced(u), u.c, rec)
    ensures ok || !u.c.failfast ==>
              && goesOn == GoesOn(Induced(u), u.c, rec)
              && JointAt(u, t + 1).docs == JointAt(u, t).docs && RequestsBefore(u, t + 1) == RequestsBefore(u, t)
              && (if goesOn && i + 1 < |u.plans| then AttemptOf(u, t + 1, i + 1, 1)
                  else JointAt(u, t + 1).Over? && EndsAt(u, t + 1))
  {
    hide JointAt, RequestsBefore, AttemptOf, EndsAt;
    goesOn := !u.net.cancelled(t);
    if ok || !u.c.failfast { CheckStep(u, t, i); }
  }

  /**
   A rerun of the same prepared tests, with the same responses: the same
   reports up to the order of their entries, the same requests, the same
   documents and the same panic.
   */
  method RunTwice(u: Setup, tests: seq<Test>)
    returns (reports: seq<seq<Entry>>, reports': seq<seq<Entry>>, issued: seq<UrlValue>, issued': seq<UrlValue>,
             docs: map<string, Json>, docs': map<string, Json>, panicked: bool, panicked': bool)
    requires Worded(u) && TestsOf(u, tests)
    ensures issued == issued' && docs == docs' && panicked == panicked'
    ensures !panicked ==>
              |reports| == |reports'|
              && forall i | 0 <= i < |reports| :: multiset(reports[i]) == multiset(reports'[i])
  {
    hide JointAt, RequestsBefore, Induced, EndsAt, Complete, LastLog, TestsOf, Logged;
    SamePlans(u, tests);
    ghost var recs, recs', end, end';
    reports, issued, docs, panicked, recs, end := RunTests(u, tests);
    reports', issued', docs', panicked', recs', end' := RunTests(u, tests);
    EndIsUnique(u, end, end');
    if !panicked {
      RunUnique(Induced(u), u.c, 0, |tests|, recs, recs');
      forall i | 0 <= i < |reports| ensures multiset(reports[i]) == multiset(reports'[i]) {
        SameEntries(reports[i], reports'[i], LastLog(u, i, recs[i]));
      }
    }
  }

  lemma TestIs(u: Setup, tests: seq<Test>, i: nat)
    requires TestsOf(u, tests) && i < |tests|
    ensures tests[i].Prepared() && i < |u.plans| && u.plans[i] == Plan(tests[i].req.url.View(), tests[i].expect_)
  {
  }

  lemma SamePlans(u: Setup, tests: seq<Test>)
    requires TestsOf(u, tests)
    ensures |tests| == |u.plans|
  {
  }

  lemma SameEntries(a: seq<Entry>, b: seq<Entry>, faults: set<Entry>)
    requires Logged([], a, faults) && Logged([], b, faults)
    ensures multiset(a) == multiset(b)
  {
    assert a[0..] == a && b[0..] == b;
  }
}
