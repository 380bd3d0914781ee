/**
  `main`: walk the current directory two levels deep, build the entity tree,
  then visit every suite and test case in registration order, substituting
  variables into and running each test case that has a config file.
*/
module Driver {
  import opened Results
  import opened PyJson
  import opened Paths
  import opened Entities
  import opened Variables
  import opened Walk
  import opened Builder
  import opened Executor
  import opened Discovery

  /** What `main` did with one test case: the skip notice, or a call of `run`. */
  datatype CaseEvent = Skipped(path: Path) | Ran(path: Path, execution: Execution)

  /** The test cases visited, in order, and how the run stopped early, if it did. */
  datatype Outcome = Outcome(events: seq<CaseEvent>, halt: Option<Halt>)

  /** What `main` does with one test case that has a config file: substitute, then run. */
  function ExecuteCase(vars: map<string, Json>, tc: TestCase, env: CaseEnv): (r: Result<Execution, Fault>)
    ensures tc.configData.JNull? ==> r == Failure(TypeError)
    ensures ConformingTestConfig(tc.configData) ==> r.Success?
    ensures tc.configData.JObject? && "tests" !in tc.configData.fields ==> r == Success(Run(tc, env))
  {
    var cfg :- Substitute(vars, tc.configData);
    Success(Run(tc.(configData := cfg), env))
  }

  function EventPath(e: CaseEvent): Path {
    match e
    case Skipped(p) => p
    case Ran(p, _) => p
  }

  /** The inner loop of `main` over one suite's test cases. A test case without a config file
      is skipped; an exception from substitution or from `run` ends the whole run. */
  function ExecuteCases(vars: map<string, Json>, cases: seq<TestCase>, env: Path -> CaseEnv): (o: Outcome)
    ensures |o.events| <= |cases|
    ensures o.halt.None? ==> |o.events| == |cases|
    ensures o.halt.Some? ==> o.halt.value.Crash?
    decreases |cases|
  {
    if cases == [] then Outcome([], None)
    else
      var tc := cases[0];
      if tc.configFile.None? then
        var rest := ExecuteCases(vars, cases[1..], env);
        Outcome([Skipped(tc.path)] + rest.events, rest.halt)
      else
        var r := ExecuteCase(vars, tc, env(tc.path));
        if r.Failure? then Outcome([], Some(Crash(r.error)))
        else if r.value.status.Crashed? then Outcome([Ran(tc.path, r.value)], Some(Crash(r.value.status.fault)))
        else
          var rest := ExecuteCases(vars, cases[1..], env);
          Outcome([Ran(tc.path, r.value)] + rest.events, rest.halt)
  }

  /** What one test case contributes to the run: its event, and the halt it causes, if any. */
  function CaseOutcome(vars: map<string, Json>, tc: TestCase, env: CaseEnv): Outcome {
    if tc.configFile.None? then Outcome([Skipped(tc.path)], None)
    else
      var r := ExecuteCase(vars, tc, env);
      if r.Failure? then Outcome([], Some(Crash(r.error)))
      else if r.value.status.Crashed? then Outcome([Ran(tc.path, r.value)], Some(Crash(r.value.status.fault)))
      else Outcome([Ran(tc.path, r.value)], None)
  }

  /** Running `first`, then `next` unless `first` halted. */
  function Then(first: Outcome, next: Outcome): Outcome {
    if first.halt.Some? then first else Outcome(first.events + next.events, next.halt)
  }

  lemma ThenAssoc(a: Outcome, b: Outcome, c: Outcome)
    ensures Then(Then(a, b), c) == Then(a, Then(b, c))
  {
    if a.halt.None? && b.halt.None? {
      assert (a.events + b.events) + c.events == a.events + (b.events + c.events);
    }
  }

  /** One step of the loop: the outcome of a list is its first test case's, then the rest's. */
  lemma ExecuteCasesCons(vars: map<string, Json>, tc: TestCase, rest: seq<TestCase>, env: Path -> CaseEnv)
    ensures ExecuteCases(vars, [tc] + rest, env) == Then(CaseOutcome(vars, tc, env(tc.path)), ExecuteCases(vars, rest, env))
  {
    assert ([tc] + rest)[1..] == rest;
  }

  /** The `i`-th event is about the `i`-th test case: skipped exactly when it has no config
      file, and otherwise the execution `run` returned for its substituted config. */
  predicate Reports(vars: map<string, Json>, cases: seq<TestCase>, env: Path -> CaseEnv, events: seq<CaseEvent>) {
    && |events| <= |cases|
    && forall i :: 0 <= i < |events| ==>
      && EventPath(events[i]) == cases[i].path
      && (events[i].Skipped? <==> cases[i].configFile.None?)
      && (events[i].Ran? ==> ExecuteCase(vars, cases[i], env(cases[i].path)) == Success(events[i].execution))
  }

  /** The loop reports on the test cases in order, one event per test case reached. */
  lemma {:induction false} ExecuteCasesEvents(vars: map<string, Json>, cases: seq<TestCase>, env: Path -> CaseEnv)
    ensures Reports(vars, cases, env, ExecuteCases(vars, cases, env).events)
    decreases |cases|
  {
    if cases != [] {
      var tc := cases[0];
      var rest := cases[1..];
      assert cases == [tc] + rest;
      ExecuteCasesCons(vars, tc, rest, env);
      ExecuteCasesEvents(vars, rest, env);
      CaseOutcomeReports(vars, tc, env);
      ReportsThen(vars, tc, rest, env, CaseOutcome(vars, tc, env(tc.path)), ExecuteCases(vars, rest, env));
    }
  }

  /** A single test case reports on itself, and only a halt can leave it without an event. */
  lemma CaseOutcomeReports(vars: map<string, Json>, tc: TestCase, env: Path -> CaseEnv)
    ensures var o := CaseOutcome(vars, tc, env(tc.path));
      && Reports(vars, [tc], env, o.events)
      && (o.halt.None? ==> |o.events| == 1)
  {
  }

  /** Reports on a first test case and on the rest combine into a report on the whole list. */
  lemma ReportsThen(vars: map<string, Json>, tc: TestCase, rest: seq<TestCase>, env: Path -> CaseEnv, head: Outcome, tail: Outcome)
    requires Reports(vars, [tc], env, head.events) && (head.halt.None? ==> |head.events| == 1)
    requires Reports(vars, rest, env, tail.events)
    ensures Reports(vars, [tc] + rest, env, Then(head, tail).events)
  {
    var cases := [tc] + rest;
    var events := Then(head, tail).events;
    forall i | 0 <= i < |events|
      ensures EventPath(events[i]) == cases[i].path
      ensures events[i].Skipped? <==> cases[i].configFile.None?
      ensures events[i].Ran? ==> ExecuteCase(vars, cases[i], env(cases[i].path)) == Success(events[i].execution)
    {
      if i > 0 {
        assert head.halt.None? && events[i] == tail.events[i - 1] && cases[i] == rest[i - 1];
      }
    }
  }

  /** Running `a` then `b` as one list is running `a`, then `b` unless `a` halted. */
  lemma {:induction false} ExecuteCasesAppend(vars: map<string, Json>, a: seq<TestCase>, b: seq<TestCase>, env: Path -> CaseEnv)
    ensures ExecuteCases(vars, a + b, env) == Then(ExecuteCases(vars, a, env), ExecuteCases(vars, b, env))
    decreases |a|
  {
    if a == [] {
      assert a + b == b;
      assert [] + ExecuteCases(vars, b, env).events == ExecuteCases(vars, b, env).events;
    } else {
      var tc := a[0];
      assert a == [tc] + a[1..];
      assert a + b == [tc] + (a[1..] + b);
      ExecuteCasesCons(vars, tc, a[1..], env);
      ExecuteCasesCons(vars, tc, a[1..] + b, env);
      ExecuteCasesAppend(vars, a[1..], b, env);
      ThenAssoc(CaseOutcome(vars, tc, env(tc.path)), ExecuteCases(vars, a[1..], env), ExecuteCases(vars, b, env));
    }
  }

  /** Every test case of every suite, suites in registration order. */
  function AllCases(suites: seq<Suite>): seq<TestCase>
  {
    if suites == [] then [] else GetTestCases(suites[0]) + AllCases(suites[1..])
  }

  /** The outer loop of `main` over the suites; a halt inside one suite ends the run. */
  function ExecuteSuites(vars: map<string, Json>, suites: seq<Suite>, env: Path -> CaseEnv): (o: Outcome)
    ensures o.halt.Some? ==> o.halt.value.Crash?
    decreases |suites|
  {
    if suites == [] then Outcome([], None)
    else
      var first := ExecuteCases(vars, GetTestCases(suites[0]), env);
      if first.halt.Some? then first
      else
        var rest := ExecuteSuites(vars, suites[1..], env);
        Outcome(first.events + rest.events, rest.halt)
  }

  /** The nested loops visit exactly the flattened list of test cases. */
  lemma {:induction false} ExecuteSuitesIsFlat(vars: map<string, Json>, suites: seq<Suite>, env: Path -> CaseEnv)
    ensures ExecuteSuites(vars, suites, env) == ExecuteCases(vars, AllCases(suites), env)
    decreases |suites|
  {
    if suites != [] {
      ExecuteSuitesIsFlat(vars, suites[1..], env);
      ExecuteCasesAppend(vars, GetTestCases(suites[0]), AllCases(suites[1..]), env);
    }
  }

  /** `main` run in the directory `cwd`, whose tree is `tree`: walk two levels, build the
      entity tree, then execute every test case. */
  function Main(cwd: Path, tree: Dir, stamp: string, env: Path -> CaseEnv): (o: Outcome)
    ensures RStrip(cwd) == [] ==> o == Outcome([], Some(Crash(AssertionError)))
    ensures RStrip(cwd) != [] && !tree.listable ==> o == Outcome([], Some(Crash(AttributeError)))
  {
    match WalkDepth(cwd, tree, 2)
    case Failure(f) => Outcome([], Some(Crash(f)))
    case Success(records) =>
      match BuildTree(records, None, stamp)
      case Failure(h) => Outcome([], Some(h))
      case Success(None) => Outcome([], Some(Crash(AttributeError)))
      case Success(Some(fw)) => ExecuteSuites(fw.vars, GetSuites(fw), env)
  }

  /** For a well-formed tree in a directory that is not made of separators only, `main` runs
      the discovered test cases: suites in listing order, each suite's test cases in listing
      order, with the variables resolved from the framework config. */
  lemma MainRunsDiscovered(cwd: Path, tree: Dir, stamp: string, env: Path -> CaseEnv)
    requires RStrip(cwd) != [] && WellFormed(tree)
    ensures var fw := Discover(RStrip(cwd), tree, stamp);
      Main(cwd, tree, stamp, env) == ExecuteCases(fw.vars, AllCases(fw.suites.list), env)
  {
    var root := RStrip(cwd);
    var fw := Discover(root, tree, stamp);
    DiscoverTree(root, tree, stamp);
    ExecuteSuitesIsFlat(fw.vars, fw.suites.list, env);
  }
}
