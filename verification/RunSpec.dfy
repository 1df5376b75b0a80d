/**
 What a run of a suite must report, for every outcome of every attempt and every
 moment of cancellation.

 Moments are counted in observations: running a test, waiting in the retry
 select and looking at ctx.Err() each take one.
 */
module RunSpec {

  /** Everything a run cannot know beforehand. */
  datatype World = World(
    outcome: int -> seq<string>,  // the errors logged by the attempt at that observation
    took: int -> nat,             // how long that attempt took
    waited: int -> nat,           // how long that wait took
    cancelled: int -> bool,       // whether the context is done by then
    picksDone: int -> bool        // which ready case the select takes
  )

  /** The retry select at this observation returns through ctx.Done(). */
  predicate GivesUp(w: World, at: int) {
    w.cancelled(at) && w.picksDone(at)
  }

  function Max1(n: int): nat {
    if n < 1 then 1 else n
  }

  /** One reported test: the observation it started at, its number of attempts, and what the last one logged. */
  datatype Rec = Rec(start: int, attempts: nat, errs: seq<string>) {
    function AttemptAt(i: int): int { start + 2 * i }

    function WaitAt(i: int): int { start + 2 * i + 1 }

    predicate Failed() { errs != [] }

    /** How often it waited for a next attempt. */
    function Waits(retryCount: int): int {
      if Failed() && attempts < retryCount then attempts else attempts - 1
    }

    /** The observation at which ctx.Err() is looked at after the test. */
    function CheckAt(retryCount: int): int {
      start + attempts + Waits(retryCount)
    }
  }

  /**
   The attempts of one test: it stops at the first success, after
   max(1, retryCount) attempts, or when the wait for the next one is given up.
   */
  ghost predicate Retried(w: World, retryCount: int, r: Rec) {
    && 1 <= r.attempts <= Max1(retryCount)
    && r.errs == w.outcome(r.AttemptAt(r.attempts - 1))
    && (forall i | 0 <= i < r.attempts - 1 :: w.outcome(r.AttemptAt(i)) != [] && !GivesUp(w, r.WaitAt(i)))
    && (r.Failed() && r.attempts < retryCount ==> GivesUp(w, r.WaitAt(r.attempts - 1)))
  }

  /** The first k attempts from `start` on failed, and were each followed by another. */
  ghost predicate FailedSoFar(w: World, start: int, k: int) {
    forall i | 0 <= i < k :: w.outcome(start + 2 * i) != [] && !GivesUp(w, start + 2 * i + 1)
  }

  lemma StopsRetrying(w: World, retryCount: int, r: Rec)
    requires 1 <= r.attempts <= Max1(retryCount) && r.errs == w.outcome(r.start + 2 * (r.attempts - 1))
    requires FailedSoFar(w, r.start, r.attempts - 1)
    requires r.Failed() && r.attempts < retryCount ==> GivesUp(w, r.start + 2 * r.attempts - 1)
    ensures Retried(w, retryCount, r)
  {
  }

  lemma FailedOnce(w: World, start: int, k: nat)
    ensures FailedSoFar(w, start, 0)
    ensures FailedSoFar(w, start, k) && w.outcome(start + 2 * k) != [] && !GivesUp(w, start + 2 * k + 1) ==>
              FailedSoFar(w, start, k + 1)
  {
  }

  lemma TotalStep(f: int -> nat, from: int, k: nat)
    ensures Total(f, from, 0) == 0 && Total(f, from, k + 1) == Total(f, from, k) + f(from + 2 * k)
  {
  }

  /** How a run is configured. */
  datatype Settings = Settings(retryCount: int, failfast: bool)

  /** The run goes on to the next test after this one. */
  predicate GoesOn(w: World, c: Settings, r: Rec) {
    !(c.failfast && r.Failed()) && !w.cancelled(r.CheckAt(c.retryCount))
  }

  predicate Follows(w: World, c: Settings, a: Rec, b: Rec) {
    GoesOn(w, c, a) && b.start == a.CheckAt(c.retryCount) + 1
  }

  /** The tests of a run that have been reported so far, each but the last one followed by another. */
  ghost predicate Prefix(w: World, c: Settings, start: int, recs: seq<Rec>) {
    && (forall i | 0 <= i < |recs| :: Retried(w, c.retryCount, recs[i]))
    && (recs != [] ==> recs[0].start == start)
    && (forall i, j | 0 <= i < |recs| && 0 <= j < |recs| && j == i + 1 :: Follows(w, c, recs[i], recs[j]))
  }

  /** The reported tests of a whole run over n tests. */
  ghost predicate Complete(w: World, c: Settings, start: int, n: nat, recs: seq<Rec>) {
    && Prefix(w, c, start, recs) && |recs| <= n
    && (|recs| < n ==> recs != [] && !GoesOn(w, c, recs[|recs| - 1]))
  }

  function CountFailed(recs: seq<Rec>): nat {
    if recs == [] then 0 else CountFailed(recs[..|recs| - 1]) + (if recs[|recs| - 1].Failed() then 1 else 0)
  }

  /** The observation at which the next test would start. */
  function NextStart(c: Settings, start: int, recs: seq<Rec>): int {
    if recs == [] then start else recs[|recs| - 1].CheckAt(c.retryCount) + 1
  }

  lemma NothingYet(w: World, c: Settings, start: int)
    ensures Prefix(w, c, start, []) && CountFailed([]) == 0 && Elapsed(w, c, []) == 0
  {
  }

  lemma OneMoreTest(w: World, c: Settings, start: int, recs: seq<Rec>, r: Rec)
    requires Prefix(w, c, start, recs) && Retried(w, c.retryCount, r) && r.start == NextStart(c, start, recs)
    requires recs != [] ==> GoesOn(w, c, recs[|recs| - 1])
    ensures Prefix(w, c, start, recs + [r])
    ensures CountFailed(recs + [r]) == CountFailed(recs) + (if r.Failed() then 1 else 0)
    ensures Elapsed(w, c, recs + [r]) == Elapsed(w, c, recs) + Spent(w, c, r)
  {
    hide Retried, GoesOn, Spent;
    var all := recs + [r];
    assert all[..|recs|] == recs;
    forall i, j | 0 <= i < |all| && 0 <= j < |all| && j == i + 1 ensures Follows(w, c, all[i], all[j]) {
      assert all[i] == recs[i];
      assert j < |recs| ==> Follows(w, c, recs[i], recs[j]);
    }
  }

  // ------------------------------------------------------------- spelled out

  /**
   The attempts of one test: at least one, more than one only up to the retry count; each
   attempt but the last failed and its wait was not given up; a failed last attempt is the
   retry count's last or its wait was given up.  The report holds what the last one logged.
   */
  lemma RetriedMeans(w: World, retryCount: int, r: Rec)
    ensures Retried(w, retryCount, r) <==>
              && 1 <= r.attempts && (r.attempts == 1 || r.attempts <= retryCount)
              && r.errs == w.outcome(r.start + 2 * (r.attempts - 1))
              && (forall i | 0 <= i < r.attempts - 1 ::
                    && w.outcome(r.start + 2 * i) != []
                    && !(w.cancelled(r.start + 2 * i + 1) && w.picksDone(r.start + 2 * i + 1)))
              && (r.errs != [] && r.attempts < retryCount ==>
                    w.cancelled(r.start + 2 * r.attempts - 1) && w.picksDone(r.start + 2 * r.attempts - 1))
  {
    if Retried(w, retryCount, r) {
      forall i | 0 <= i < r.attempts - 1
        ensures w.outcome(r.start + 2 * i) != []
        ensures !(w.cancelled(r.start + 2 * i + 1) && w.picksDone(r.start + 2 * i + 1))
      {
        assert w.outcome(r.AttemptAt(i)) != [] && !GivesUp(w, r.WaitAt(i));
      }
    }
    assert r.WaitAt(r.attempts - 1) == r.start + 2 * r.attempts - 1;
  }

  /** The observation after a test: its attempts and its waits, one more wait if it ended in one. */
  lemma CheckFollows(retryCount: int, r: Rec)
    ensures r.CheckAt(retryCount) ==
              r.start + 2 * r.attempts - (if r.errs != [] && r.attempts < retryCount then 0 else 1)
  {
  }

  /**
   The tests of a run: every test but the last was not a failure under fail-fast, nor was
   the context done after it, and the next began right then; a run that leaves tests out
   ended in such a failure or with the context done.
   */
  lemma CompleteMeans(w: World, c: Settings, start: int, n: nat, recs: seq<Rec>)
    requires Complete(w, c, start, n, recs)
    ensures |recs| <= n && (recs != [] ==> recs[0].start == start)
    ensures forall i | 0 <= i < |recs| :: Retried(w, c.retryCount, recs[i])
    ensures forall i | 0 <= i < |recs| - 1 ::
              && !(c.failfast && recs[i].errs != [])
              && !w.cancelled(recs[i].CheckAt(c.retryCount))
              && recs[i + 1].start == recs[i].CheckAt(c.retryCount) + 1
    ensures |recs| < n ==>
              && recs != []
              && ((c.failfast && recs[|recs| - 1].errs != []) || w.cancelled(recs[|recs| - 1].CheckAt(c.retryCount)))
  {
    hide Retried;
    forall i | 0 <= i < |recs| - 1
      ensures !(c.failfast && recs[i].errs != []) && !w.cancelled(recs[i].CheckAt(c.retryCount))
      ensures recs[i + 1].start == recs[i].CheckAt(c.retryCount) + 1
    {
      var j := i + 1;
      assert Follows(w, c, recs[i], recs[j]);
    }
  }

  /** The positions of the reports that hold an error. */
  function WithErrors(recs: seq<Rec>): set<int> {
    set i | 0 <= i < |recs| && recs[i].errs != []
  }

  lemma WithErrorsOneMore(recs: seq<Rec>, r: Rec)
    ensures WithErrors(recs + [r]) == WithErrors(recs) + (if r.errs != [] then {|recs|} else {})
    ensures |recs| !in WithErrors(recs)
  {
    var all := recs + [r];
    assert all[|recs|] == r && forall i | 0 <= i < |recs| :: all[i] == recs[i];
  }

  /** The failure count is the number of reports that hold an error. */
  lemma {:induction false} CountFailedCounts(recs: seq<Rec>)
    ensures CountFailed(recs) == |WithErrors(recs)|
  {
    if recs != [] {
      var front, r := recs[..|recs| - 1], recs[|recs| - 1];
      CountFailedCounts(front);
      assert recs == front + [r];
      WithErrorsOneMore(front, r);
      hide WithErrors;
    }
  }

  // ---------------------------------------------------------------- exactness

  lemma RetriedUnique(w: World, retryCount: int, a: Rec, b: Rec)
    requires Retried(w, retryCount, a) && Retried(w, retryCount, b) && a.start == b.start
    ensures a == b
  {
    assert forall i :: a.AttemptAt(i) == b.AttemptAt(i) && a.WaitAt(i) == b.WaitAt(i);
    assert a.attempts >= b.attempts;
    assert a.attempts <= b.attempts;
  }

  lemma {:induction false} PrefixAgrees(w: World, c: Settings, start: int, a: seq<Rec>, b: seq<Rec>, i: nat)
    requires Prefix(w, c, start, a) && Prefix(w, c, start, b) && i < |a| && i < |b|
    ensures a[i] == b[i]
  {
    if i > 0 {
      PrefixAgrees(w, c, start, a, b, i - 1);
      assert Follows(w, c, a[i - 1], a[i]) && Follows(w, c, b[i - 1], b[i]);
    }
    RetriedUnique(w, c.retryCount, a[i], b[i]);
  }

  /** The outcome oracle and the moment of cancellation determine the whole run. */
  lemma RunUnique(w: World, c: Settings, start: int, n: nat, a: seq<Rec>, b: seq<Rec>)
    requires Complete(w, c, start, n, a) && Complete(w, c, start, n, b)
    ensures a == b
  {
    forall i | 0 <= i < |a| && i < |b| ensures a[i] == b[i] {
      PrefixAgrees(w, c, start, a, b, i);
    }
    assert 0 < |a| < |b| ==> Follows(w, c, b[|a| - 1], b[|a|]);
    assert 0 < |b| < |a| ==> Follows(w, c, a[|b| - 1], a[|b|]);
  }

  lemma {:induction false} NoneFailed(recs: seq<Rec>)
    ensures CountFailed(recs) == 0 <==> forall i | 0 <= i < |recs| :: !recs[i].Failed()
  {
    if recs != [] {
      var front := recs[..|recs| - 1];
      NoneFailed(front);
      assert forall i | 0 <= i < |front| :: front[i] == recs[i];
    }
  }

  /** Under fail-fast at most the last reported test has failed. */
  lemma FailFastOnlyLast(w: World, c: Settings, start: int, recs: seq<Rec>)
    requires c.failfast && Prefix(w, c, start, recs)
    ensures forall i | 0 <= i < |recs| - 1 :: !recs[i].Failed()
    ensures CountFailed(recs) <= 1
  {
    forall i | 0 <= i < |recs| - 1 ensures !recs[i].Failed() {
      assert Follows(w, c, recs[i], recs[i + 1]);
    }
    if recs != [] { NoneFailed(recs[..|recs| - 1]); }
  }

  /** A context that is never done. */
  ghost predicate NeverCancelled(w: World) {
    forall i: int :: !w.cancelled(i)
  }

  /**
   Without cancellation a run reports every test unless fail-fast stops it at a
   failure, a failed test has used all of its attempts, and nothing has failed
   exactly when every test was run and its last attempt logged no error.
   */
  lemma UncancelledRun(w: World, c: Settings, start: int, n: nat, recs: seq<Rec>)
    requires NeverCancelled(w) && Complete(w, c, start, n, recs)
    ensures |recs| < n ==> c.failfast && recs[|recs| - 1].Failed()
    ensures forall i | 0 <= i < |recs| && recs[i].Failed() :: recs[i].attempts == Max1(c.retryCount)
    ensures CountFailed(recs) == 0 <==> |recs| == n && forall i | 0 <= i < |recs| :: recs[i].errs == []
  {
    NoneFailed(recs);
  }

  // --------------------------------------------------------------- time bound

  /** The total of k durations, every other observation from `from` on. */
  function Total(f: int -> nat, from: int, k: int): nat
    decreases k
  {
    if k <= 0 then 0 else Total(f, from, k - 1) + f(from + 2 * (k - 1))
  }

  /** How long one reported test took, waits included. */
  function Spent(w: World, c: Settings, r: Rec): nat {
    Total(w.took, r.start, r.attempts) + Total(w.waited, r.start + 1, r.Waits(c.retryCount))
  }

  function Elapsed(w: World, c: Settings, recs: seq<Rec>): nat {
    if recs == [] then 0 else Elapsed(w, c, recs[..|recs| - 1]) + Spent(w, c, recs[|recs| - 1])
  }

  lemma {:induction false} TotalBound(f: int -> nat, from: int, k: nat, most: nat)
    requires forall i | 0 <= i < k :: f(from + 2 * i) <= most
    ensures Total(f, from, k) <= k * most
  {
    if k > 0 {
      TotalBound(f, from, k - 1, most);
      assert f(from + 2 * (k - 1)) <= most;
      assert k * most == (k - 1) * most + most;
    }
  }

  lemma Scale(a: int, b: int, most: nat)
    requires a <= b
    ensures a * most <= b * most
  {
  }

  /** The longest a test may take: every attempt its timeout, and between attempts the retry wait. */
  function PerTest(c: Settings, timeout: nat, wait: nat): nat {
    Max1(c.retryCount) * timeout + (Max1(c.retryCount) - 1) * wait
  }

  lemma OneMore(n: int, each: int)
    ensures n * each == (n - 1) * each + each
  {
  }

  /** Every attempt of the test respected the timeout, and every wait the retry wait. */
  ghost predicate InTime(w: World, c: Settings, r: Rec, timeout: nat, wait: nat) {
    && (forall i | 0 <= i < r.attempts :: w.took(r.AttemptAt(i)) <= timeout)
    && (forall i | 0 <= i < r.Waits(c.retryCount) :: w.waited(r.WaitAt(i)) <= wait)
  }

  lemma SpentIs(w: World, c: Settings, r: Rec, timeout: nat, wait: nat)
    ensures Spent(w, c, r) == Total(w.took, r.start, r.attempts) + Total(w.waited, r.start + 1, r.Waits(c.retryCount))
    ensures PerTest(c, timeout, wait) == Max1(c.retryCount) * timeout + (Max1(c.retryCount) - 1) * wait
  {
  }

  lemma SpentBound(w: World, c: Settings, r: Rec, timeout: nat, wait: nat)
    requires Retried(w, c.retryCount, r) && InTime(w, c, r, timeout, wait)
    ensures Spent(w, c, r) <= PerTest(c, timeout, wait)
  {
    var waits := r.Waits(c.retryCount);
    forall i | 0 <= i < r.attempts ensures w.took(r.start + 2 * i) <= timeout {
      assert w.took(r.AttemptAt(i)) <= timeout;
    }
    forall i | 0 <= i < waits ensures w.waited(r.start + 1 + 2 * i) <= wait {
      assert w.waited(r.WaitAt(i)) <= wait;
    }
    assert r.attempts <= Max1(c.retryCount) && waits <= Max1(c.retryCount) - 1;
    hide *;
    TotalBound(w.took, r.start, r.attempts, timeout);
    TotalBound(w.waited, r.start + 1, waits, wait);
    Scale(r.attempts, Max1(c.retryCount), timeout);
    Scale(waits, Max1(c.retryCount) - 1, wait);
    SpentIs(w, c, r, timeout, wait);
  }

  /**
   If every attempt of the run respects the timeout and every wait of it the
   retry wait, the run takes at most so long per reported test.
   */
  lemma {:induction false} ElapsedBound(w: World, c: Settings, start: int, recs: seq<Rec>, timeout: nat, wait: nat)
    requires Prefix(w, c, start, recs) && forall r | r in recs :: InTime(w, c, r, timeout, wait)
    ensures Elapsed(w, c, recs) <= |recs| * PerTest(c, timeout, wait)
  {
    hide PerTest, Spent, InTime, Retried;
    if recs != [] {
      ElapsedBound(w, c, start, recs[..|recs| - 1], timeout, wait);
      SpentBound(w, c, recs[|recs| - 1], timeout, wait);
      OneMore(|recs|, PerTest(c, timeout, wait));
    }
  }
}
