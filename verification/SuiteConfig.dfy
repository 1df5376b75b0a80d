/** The layering of suite configurations: scalar settings and test filters. */
module SuiteConfig {
  import opened Options
  import opened Notifier

  datatype Config = Config(
    name: string, runEvery: int, runCron: string,
    retryCount: int, retryWait: int, timeout: int, failFast: bool, filter: string)

  /** The scalar fields of a suite. */
  datatype Knobs = Knobs(
    name: string, runEvery: int, runCron: string,
    retryCount: int, retryWait: int, timeout: int, failfast: bool)

  /** regexp.Compile, with MatchString for what it accepts. */
  type Compiler = string -> Option<string -> bool>

  function OrPositive(x: int, default: int): int { if x > 0 then x else default }

  function OrNonEmpty(s: string, default: string): string { if s != "" then s else default }

  /** The scalar part of applyConfig. */
  function Layer(k: Knobs, c: Config): Knobs {
    Knobs(OrNonEmpty(c.name, k.name), OrPositive(c.runEvery, k.runEvery), OrNonEmpty(c.runCron, k.runCron),
          OrPositive(c.retryCount, k.retryCount), OrPositive(c.retryWait, k.retryWait),
          OrPositive(c.timeout, k.timeout), k.failfast || c.failFast)
  }

  function Filter(ts: seq<TestCase>, keep: TestCase -> bool): seq<TestCase> {
    if ts == [] then []
    else Filter(ts[..|ts| - 1], keep) + (if keep(ts[|ts| - 1]) then [ts[|ts| - 1]] else [])
  }

  predicate Compiles(compile: Compiler, c: Config) {
    c.filter == "" || compile(c.filter).Some?
  }

  /** The tests a configuration keeps. */
  function Keeps(compile: Compiler, c: Config): TestCase -> bool
    requires Compiles(compile, c)
  {
    (t: TestCase) => c.filter == "" || compile(c.filter).value(t.name)
  }

  // ------------------------------------------------------- many configurations

  function LayerAll(k: Knobs, cs: seq<Config>): Knobs {
    if cs == [] then k else Layer(LayerAll(k, cs[..|cs| - 1]), cs[|cs| - 1])
  }

  function FilterAll(compile: Compiler, ts: seq<TestCase>, cs: seq<Config>): seq<TestCase>
    requires forall c | c in cs :: Compiles(compile, c)
  {
    if cs == [] then ts else Filter(FilterAll(compile, ts, cs[..|cs| - 1]), Keeps(compile, cs[|cs| - 1]))
  }

  lemma NoConfigs(compile: Compiler, k: Knobs, ts: seq<TestCase>)
    ensures LayerAll(k, []) == k && FilterAll(compile, ts, []) == ts
  {
  }

  lemma OneMoreConfig(compile: Compiler, k: Knobs, ts: seq<TestCase>, cs: seq<Config>, i: nat)
    requires i < |cs| && forall c | c in cs :: Compiles(compile, c)
    ensures LayerAll(k, cs[..i + 1]) == Layer(LayerAll(k, cs[..i]), cs[i])
    ensures cs[i] in cs
    ensures FilterAll(compile, ts, cs[..i + 1]) == Filter(FilterAll(compile, ts, cs[..i]), Keeps(compile, cs[i]))
  {
    assert cs[..i + 1][..i] == cs[..i];
  }

  /** Entry i of the list is the last that is set. */
  predicate LastSet<T>(xs: seq<T>, isSet: T -> bool, i: nat) {
    i < |xs| && isSet(xs[i]) && forall j | i < j < |xs| :: !isSet(xs[j])
  }

  /** x is the last set entry of the list, or the default when none is set. */
  ghost predicate IsLastSet<T(!new)>(xs: seq<T>, isSet: T -> bool, default: T, x: T) {
    || (exists i: nat :: LastSet(xs, isSet, i) && x == xs[i])
    || (x == default && forall i | 0 <= i < |xs| :: !isSet(xs[i]))
  }

  lemma LastSetStep<T(!new)>(xs: seq<T>, isSet: T -> bool, default: T, x: T, y: T)
    requires IsLastSet(xs, isSet, default, x)
    ensures IsLastSet(xs + [y], isSet, default, if isSet(y) then y else x)
  {
    var all := xs + [y];
    if isSet(y) {
      assert LastSet(all, isSet, |xs|);
    } else if i: nat :| LastSet(xs, isSet, i) && x == xs[i] {
      assert LastSet(all, isSet, i) && x == all[i];
    }
  }

  function Positive(): int -> bool { x => x > 0 }

  function NonEmpty(): string -> bool { s => s != "" }

  function Column<T>(cs: seq<Config>, field: Config -> T): seq<T> {
    seq(|cs|, i requires 0 <= i < |cs| => field(cs[i]))
  }

  /**
   Over any sequence of configurations each duration or count is the last positive one,
   each name the last nonempty one, and failFast sticks.
   */
  lemma {:induction false} LayeringTakesLast(k: Knobs, cs: seq<Config>)
    ensures var r := LayerAll(k, cs);
            && IsLastSet(Column(cs, (c: Config) => c.runEvery), Positive(), k.runEvery, r.runEvery)
            && IsLastSet(Column(cs, (c: Config) => c.retryCount), Positive(), k.retryCount, r.retryCount)
            && IsLastSet(Column(cs, (c: Config) => c.retryWait), Positive(), k.retryWait, r.retryWait)
            && IsLastSet(Column(cs, (c: Config) => c.timeout), Positive(), k.timeout, r.timeout)
    ensures var r := LayerAll(k, cs);
            && IsLastSet(Column(cs, (c: Config) => c.name), NonEmpty(), k.name, r.name)
            && IsLastSet(Column(cs, (c: Config) => c.runCron), NonEmpty(), k.runCron, r.runCron)
    ensures LayerAll(k, cs).failfast <==> k.failfast || exists c | c in cs :: c.failFast
  {
    if cs != [] {
      var front, c := cs[..|cs| - 1], cs[|cs| - 1];
      var r := LayerAll(k, front);
      LayeringTakesLast(k, front);
      hide IsLastSet;
      ColumnStep(cs, (c: Config) => c.runEvery, Positive(), k.runEvery, r.runEvery);
      ColumnStep(cs, (c: Config) => c.retryCount, Positive(), k.retryCount, r.retryCount);
      ColumnStep(cs, (c: Config) => c.retryWait, Positive(), k.retryWait, r.retryWait);
      ColumnStep(cs, (c: Config) => c.timeout, Positive(), k.timeout, r.timeout);
      ColumnStep(cs, (c: Config) => c.name, NonEmpty(), k.name, r.name);
      ColumnStep(cs, (c: Config) => c.runCron, NonEmpty(), k.runCron, r.runCron);
      assert cs == front + [c];
    }
  }

  lemma ColumnStep<T(!new)>(cs: seq<Config>, field: Config -> T, isSet: T -> bool, default: T, x: T)
    requires cs != [] && IsLastSet(Column(cs[..|cs| - 1], field), isSet, default, x)
    ensures IsLastSet(Column(cs, field), isSet, default, if isSet(field(cs[|cs| - 1])) then field(cs[|cs| - 1]) else x)
  {
    hide IsLastSet;
    var front, y := cs[..|cs| - 1], field(cs[|cs| - 1]);
    assert Column(cs, field) == Column(front, field) + [y];
    LastSetStep(Column(front, field), isSet, default, x, y);
  }

  /** A test passes every filter. */
  predicate PassesAll(compile: Compiler, cs: seq<Config>, t: TestCase)
    requires forall c | c in cs :: Compiles(compile, c)
  {
    forall c | c in cs :: Keeps(compile, c)(t)
  }

  lemma PassesEveryFilter(compile: Compiler, cs: seq<Config>, t: TestCase)
    ensures (forall c | c in cs :: Compiles(compile, c)) <==>
              forall c | c in cs :: c.filter != "" ==> compile(c.filter).Some?
    ensures (forall c | c in cs :: Compiles(compile, c)) ==>
              (PassesAll(compile, cs, t) <==>
                 forall c | c in cs :: c.filter != "" ==> compile(c.filter).value(t.name))
  {
  }

  lemma {:induction false} FilterTwice(ts: seq<TestCase>, p: TestCase -> bool, q: TestCase -> bool,
                                       both: TestCase -> bool)
    requires forall t :: both(t) <==> p(t) && q(t)
    ensures Filter(Filter(ts, p), q) == Filter(ts, both)
  {
    if ts != [] {
      var front, t := ts[..|ts| - 1], ts[|ts| - 1];
      FilterTwice(front, p, q, both);
      var kept := Filter(front, p);
      assert (kept + [t])[..|kept|] == kept;
      assert kept + [] == kept;
      assert Filter(kept, q) + [] == Filter(kept, q);
    }
  }

  lemma {:induction false} FilterNothing(ts: seq<TestCase>, p: TestCase -> bool)
    requires forall t :: p(t)
    ensures Filter(ts, p) == ts
  {
    if ts != [] { FilterNothing(ts[..|ts| - 1], p); }
  }

  /** Applying the filters one after the other keeps, in order, the tests that pass all of them. */
  lemma {:induction false} FiltersConjoin(compile: Compiler, ts: seq<TestCase>, cs: seq<Config>)
    requires forall c | c in cs :: Compiles(compile, c)
    ensures FilterAll(compile, ts, cs) == Filter(ts, t => PassesAll(compile, cs, t))
  {
    var all := t => PassesAll(compile, cs, t);
    if cs == [] {
      FilterNothing(ts, all);
    } else {
      var front, c := cs[..|cs| - 1], cs[|cs| - 1];
      assert cs == front + [c];
      FiltersConjoin(compile, ts, front);
      FilterTwice(ts, t => PassesAll(compile, front, t), Keeps(compile, c), all);
    }
  }

  /** at lists, in increasing order, all the positions of ts that p accepts, and kept holds the tests there. */
  ghost predicate Positions(ts: seq<TestCase>, p: TestCase -> bool, kept: seq<TestCase>, at: seq<nat>) {
    && |at| == |kept|
    && (forall i | 0 <= i < |at| :: at[i] < |ts| && ts[at[i]] == kept[i] && p(kept[i]))
    && (forall i, j | 0 <= i < j < |at| :: at[i] < at[j])
    && (forall k | 0 <= k < |ts| && p(ts[k]) :: k in at)
  }

  lemma PositionsStep(ts: seq<TestCase>, p: TestCase -> bool, kept: seq<TestCase>, at: seq<nat>, t: TestCase)
    requires Positions(ts, p, kept, at)
    ensures if p(t) then Positions(ts + [t], p, kept + [t], at + [|ts|]) else Positions(ts + [t], p, kept, at)
  {
    var all, at' := ts + [t], at + [|ts|];
    assert forall k | 0 <= k < |ts| :: all[k] == ts[k];
    assert forall k | k in at :: k in at';
    assert at'[|at|] == |ts| && |ts| in at';
  }

  /** A filter keeps exactly the tests it accepts, in their order. */
  lemma {:induction false} FilterKeepsOrder(ts: seq<TestCase>, p: TestCase -> bool) returns (at: seq<nat>)
    ensures Positions(ts, p, Filter(ts, p), at)
  {
    if ts == [] {
      at := [];
    } else {
      hide Positions;
      var n := |ts| - 1;
      var kept := Filter(ts[..n], p);
      at := FilterKeepsOrder(ts[..n], p);
      PositionsStep(ts[..n], p, kept, at, ts[n]);
      assert ts == ts[..n] + [ts[n]];
      if p(ts[n]) {
        at := at + [n];
      } else {
        assert kept + [] == kept;
      }
    }
  }

  // ---------------------------------------------------------- command options

  datatype SuiteOption = Timeout(d: int) | FailFast(ff: bool) | FilterBy(pattern: string)

  function ApplyOptions(c: Config, options: seq<SuiteOption>): Config {
    if options == [] then c
    else
      var before := ApplyOptions(c, options[..|options| - 1]);
      match options[|options| - 1]
      case Timeout(d) => before.(timeout := d)
      case FailFast(ff) => before.(failFast := ff)
      case FilterBy(pattern) => before.(filter := pattern)
  }

  const BLANK := Knobs("", 0, "", 0, 0, 0, false)

  /** A suite named on the command line: the options change its own configuration. */
  function FromArgs(file: Config, options: seq<SuiteOption>): Knobs {
    Layer(BLANK, ApplyOptions(file, options))
  }

  /** A suite named in a configuration file: the options change the entry layered over its own configuration. */
  function FromConfig(file: Config, entry: Config, options: seq<SuiteOption>): Knobs {
    Layer(Layer(BLANK, file), ApplyOptions(entry, options))
  }

  /** The options of `exec`. */
  function ExecOptions(failfast: bool, filter: string, timeout: int): seq<SuiteOption> {
    [FailFast(failfast), FilterBy(filter)] + (if timeout > 0 then [Timeout(timeout)] else [])
  }

  lemma ExecOptionsApplied(c: Config, failfast: bool, filter: string, timeout: int)
    ensures ApplyOptions(c, ExecOptions(failfast, filter, timeout)) ==
              c.(failFast := failfast, filter := filter, timeout := if timeout > 0 then timeout else c.timeout)
  {
    var base: seq<SuiteOption> := [FailFast(failfast), FilterBy(filter)];
    assert base[..1] == [FailFast(failfast)] && base[..1][..0] == [];
    assert ApplyOptions(c, base[..1]) == c.(failFast := failfast);
    assert ApplyOptions(c, base) == c.(failFast := failfast, filter := filter);
    if timeout > 0 {
      assert (base + [Timeout(timeout)])[..2] == base;
    } else {
      assert base + [] == base;
    }
  }

  /**
   The failFast of a suite file survives `exec` without -failfast when the suite
   comes from a configuration file, and is lost when it comes from the arguments.
   */
  lemma ExecFailFast(file: Config, entry: Config, failfast: bool, filter: string, timeout: int)
    ensures FromArgs(file, ExecOptions(failfast, filter, timeout)).failfast == failfast
    ensures FromConfig(file, entry, ExecOptions(failfast, filter, timeout)).failfast == (file.failFast || failfast)
  {
    ExecOptionsApplied(file, failfast, filter, timeout);
    ExecOptionsApplied(entry, failfast, filter, timeout);
  }

  /**
   Which setting wins for a suite from a configuration file: a positive -timeout of `exec`,
   then what the entry sets, then what the suite file sets.
   */
  lemma EntryOverFile(file: Config, entry: Config, failfast: bool, filter: string, timeout: int)
    ensures var k := FromConfig(file, entry, ExecOptions(failfast, filter, timeout));
            && k.timeout == (if timeout > 0 then timeout
                             else if entry.timeout > 0 then entry.timeout
                             else if file.timeout > 0 then file.timeout else 0)
            && k.runEvery == (if entry.runEvery > 0 then entry.runEvery
                              else if file.runEvery > 0 then file.runEvery else 0)
            && k.retryCount == (if entry.retryCount > 0 then entry.retryCount
                                else if file.retryCount > 0 then file.retryCount else 0)
            && k.retryWait == (if entry.retryWait > 0 then entry.retryWait
                               else if file.retryWait > 0 then file.retryWait else 0)
            && k.name == (if entry.name != "" then entry.name else file.name)
            && k.runCron == (if entry.runCron != "" then entry.runCron else file.runCron)
  {
    ExecOptionsApplied(entry, failfast, filter, timeout);
  }

  /** Which setting wins for a suite from the arguments: a positive -timeout, then the suite file. */
  lemma OptionsOverFile(file: Config, failfast: bool, filter: string, timeout: int)
    ensures var k := FromArgs(file, ExecOptions(failfast, filter, timeout));
            && k.timeout == (if timeout > 0 then timeout else if file.timeout > 0 then file.timeout else 0)
            && k.runEvery == (if file.runEvery > 0 then file.runEvery else 0)
            && k.retryCount == (if file.retryCount > 0 then file.retryCount else 0)
            && k.retryWait == (if file.retryWait > 0 then file.retryWait else 0)
            && k.name == file.name && k.runCron == file.runCron
  {
    ExecOptionsApplied(file, failfast, filter, timeout);
  }

  /** The filter of `exec` is the one that is applied last, and an empty one keeps the tests. */
  lemma ExecFilter(compile: Compiler, c: Config, failfast: bool, filter: string, timeout: int, t: TestCase)
    ensures var applied := ApplyOptions(c, ExecOptions(failfast, filter, timeout));
            && (Compiles(compile, applied) <==> filter == "" || compile(filter).Some?)
            && (filter == "" || compile(filter).Some? ==>
                  (Keeps(compile, applied)(t) <==> filter == "" || compile(filter).value(t.name)))
  {
    ExecOptionsApplied(c, failfast, filter, timeout);
  }
}
