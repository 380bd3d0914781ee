/**
  `TestCase.run`: the executor of one test case, as a function of what the
  operating system answers. The working-directory change, the creation of the
  output directory and the opening of the two capture files are oracle
  booleans; `spawn(n)` is what the n-th process started for this test case
  ends with.
*/
module Executor {
  import opened Results
  import opened PyJson
  import opened Entities

  /** Why `subprocess.call` raised and `run` caught it: OSError (for instance no such
      executable) or ValueError (for instance a NUL character in an argument). `call` is given
      no timeout, so the TimeoutExpired clause never fires and has no counterpart here. */
  datatype SpawnFault = NotExecutable | InvalidArguments

  datatype SpawnResult = Exited(code: int) | SpawnFailed(fault: SpawnFault)

  /** The operating system's answers for one test case. */
  datatype CaseEnv = CaseEnv(
    chdirOk: bool,
    mkdirOk: bool,
    stdoutOk: bool,
    stderrOk: bool,
    spawn: nat -> SpawnResult)

  /** One process started: its argument vector and how it ended. */
  datatype Spawn = Spawn(argv: seq<Json>, result: SpawnResult)

  /** Where `run` stopped. `Crashed` is an exception `run` does not catch; it ends the whole run. */
  datatype Status =
    | ChdirFailed
    | MkdirFailed
    | OpenFailed
    | NoTests
    | Executed
    | Crashed(fault: Fault)

  datatype Execution = Execution(status: Status, spawns: seq<Spawn>)

  /** The processes started by a loop, and the exception that ended it early, if any. */
  datatype Progress = Progress(spawns: seq<Spawn>, fault: Option<Fault>)

  /** The argument vector an element of `tests` is meant to launch: `[program] + args` for a
      dict holding both keys with a list under `args`. */
  function ArgvOf(entry: Json): Option<seq<Json>> {
    if entry.JObject? && "program" in entry.fields && "args" in entry.fields && entry.fields["args"].JArray?
    then Some([entry.fields["program"]] + entry.fields["args"].items)
    else None
  }

  /** The argument vectors of a `tests` list, in order, skipping elements that launch nothing. */
  function Argvs(entries: seq<Json>): seq<seq<Json>> {
    if entries == [] then []
    else (match ArgvOf(entries[0]) case Some(a) => [a] case None => []) + Argvs(entries[1..])
  }

  /** A `tests` element the entry test and `[program] + args` read without raising: a dict
      whose `args`, when present, is a list. */
  predicate WellShaped(entry: Json) {
    entry.JObject? && ("args" in entry.fields ==> entry.fields["args"].JArray?)
  }

  /** An argument vector `subprocess.call` accepts: every element is a str. Any other
      element (a number, a bool, null, a list or a dict) makes it raise TypeError, which
      `run` does not catch. */
  predicate StrArgv(argv: seq<Json>) {
    forall i :: 0 <= i < |argv| ==> argv[i].JString?
  }

  /** A `tests` element that `run` gets past without an uncaught exception: well shaped,
      and, when it launches, with only str in its argument vector. */
  predicate Launchable(entry: Json) {
    WellShaped(entry) && (ArgvOf(entry).Some? ==> StrArgv(ArgvOf(entry).value))
  }

  /** The `if "program" in test and "args" in test` test and the argument vector built from
      it; None is the "Skipping test" warning. */
  function LaunchArgv(entry: Json): (r: Result<Option<seq<Json>>, Fault>)
    ensures r.Success? ==> r.value == ArgvOf(entry)
    ensures WellShaped(entry) ==> r.Success?
  {
    match In("program", entry)
    case Failure(f) => Failure(f)
    case Success(false) => Success(None)
    case Success(true) =>
      match In("args", entry)
      case Failure(f) => Failure(f)
      case Success(false) => Success(None)
      case Success(true) =>
        match GetItem(entry, "program")
        case Failure(f) => Failure(f)
        case Success(program) =>
          match GetItem(entry, "args")
          case Failure(f) => Failure(f)
          case Success(args) =>
            match Prepend(program, args)
            case Failure(f) => Failure(f)
            case Success(argv) => Success(Some(argv))
  }

  /** An element that launches nothing adds no argument vector. */
  lemma ArgvsSkip(entries: seq<Json>)
    requires entries != [] && ArgvOf(entries[0]).None?
    ensures Argvs(entries) == Argvs(entries[1..])
  {
  }

  /** An element that launches puts its vector first. */
  lemma ArgvsTake(entries: seq<Json>, argv: seq<Json>)
    requires entries != [] && ArgvOf(entries[0]) == Some(argv)
    ensures Argvs(entries) == [argv] + Argvs(entries[1..])
  {
  }

  /** A list of non-dicts launches nothing. */
  lemma {:induction false} ArgvsOfNonDicts(entries: seq<Json>)
    requires forall i :: 0 <= i < |entries| ==> !entries[i].JObject?
    ensures Argvs(entries) == []
    decreases |entries|
  {
    if entries != [] {
      assert forall i :: 0 <= i < |entries[1..]| ==> entries[1..][i] == entries[i + 1];
      ArgvsOfNonDicts(entries[1..]);
    }
  }

  /** The processes of a loop are the spawn oracle's answers to the argument vectors, in order. */
  predicate Matches(spawns: seq<Spawn>, argvs: seq<seq<Json>>, spawn: nat -> SpawnResult, n: nat) {
    && |spawns| <= |argvs|
    && forall i :: 0 <= i < |spawns| ==> spawns[i] == Spawn(argvs[i], spawn(n + i))
  }

  lemma MatchesCons(spawns: seq<Spawn>, argvs: seq<seq<Json>>, argv: seq<Json>, spawn: nat -> SpawnResult, n: nat)
    requires Matches(spawns, argvs, spawn, n + 1)
    ensures Matches([Spawn(argv, spawn(n))] + spawns, [argv] + argvs, spawn, n)
  {
    var s' := [Spawn(argv, spawn(n))] + spawns;
    var a' := [argv] + argvs;
    forall i | 0 < i < |s'|
      ensures s'[i] == Spawn(a'[i], spawn(n + i))
    {
      assert s'[i] == spawns[i - 1] && a'[i] == argvs[i - 1];
    }
  }

  /** The `for test in tests` loop from the `n`-th spawn on: a spawn that fails is caught and
      the loop goes on; an uncaught exception ends it with the processes started so far. An
      argument vector holding anything but str is refused by `subprocess.call` with TypeError
      before a process starts. */
  function RunEntries(entries: seq<Json>, spawn: nat -> SpawnResult, n: nat): (p: Progress)
    ensures Matches(p.spawns, Argvs(entries), spawn, n)
    ensures p.fault.None? ==> |p.spawns| == |Argvs(entries)|
    ensures (forall i :: 0 <= i < |entries| ==> Launchable(entries[i])) ==> p.fault.None?
    decreases |entries|
  {
    if entries == [] then Progress([], None)
    else
      var rest := entries[1..];
      assert forall i :: 0 <= i < |rest| ==> rest[i] == entries[i + 1];
      match LaunchArgv(entries[0])
      case Failure(f) => Progress([], Some(f))
      case Success(None) =>
        ArgvsSkip(entries);
        RunEntries(rest, spawn, n)
      case Success(Some(argv)) =>
        if !StrArgv(argv) then Progress([], Some(TypeError))
        else
        ArgvsTake(entries, argv);
        var p := RunEntries(rest, spawn, n + 1);
        MatchesCons(p.spawns, Argvs(rest), argv, spawn, n);
        Progress([Spawn(argv, spawn(n))] + p.spawns, p.fault)
  }

  /** The loop over whatever `config_dict["tests"]` holds: a list element by element, a str
      character by character (none of which launches), a dict key by key (a key containing
      both `program` and `args` is subscripted as a str and raises); anything else is not
      iterable. */
  function RunTests(tests: Json, spawn: nat -> SpawnResult): (p: Progress)
    ensures tests.JArray? ==> p == RunEntries(tests.items, spawn, 0)
    ensures !tests.JArray? ==> p.spawns == []
  {
    match tests
    case JArray(xs) => RunEntries(xs, spawn, 0)
    case JString(s) =>
      ArgvsOfNonDicts(Chars(s));
      RunEntries(Chars(s), spawn, 0)
    case JObject(m) =>
      if exists k :: k in m && Contains(k, "program") && Contains(k, "args") then Progress([], Some(TypeError))
      else Progress([], None)
    case _ => Progress([], Some(TypeError))
  }

  /** `TestCase.run`: the working directory, the output directory and the two capture files
      come first, each failure returning at once; only then is the config consulted. */
  function Run(tc: TestCase, env: CaseEnv): (r: Execution)
    ensures !env.chdirOk ==> r == Execution(ChdirFailed, [])
    ensures env.chdirOk && !env.mkdirOk ==> r == Execution(MkdirFailed, [])
    ensures env.chdirOk && env.mkdirOk && !(env.stdoutOk && env.stderrOk) ==> r == Execution(OpenFailed, [])
    ensures tc.configData.JNull? && env.chdirOk && env.mkdirOk && env.stdoutOk && env.stderrOk ==> r == Execution(NoTests, [])
    ensures r.spawns != [] ==>
      env.chdirOk && env.mkdirOk && env.stdoutOk && env.stderrOk && tc.configData.JObject? && "tests" in tc.configData.fields
    ensures tc.configData.JObject? && "tests" !in tc.configData.fields ==> r.spawns == []
    ensures
      (r.status == Executed && tc.configData.JObject? && "tests" in tc.configData.fields && tc.configData.fields["tests"].JArray?)
      ==> |r.spawns| == |Argvs(tc.configData.fields["tests"].items)|
  {
    if !env.chdirOk then Execution(ChdirFailed, [])
    else if !env.mkdirOk then Execution(MkdirFailed, [])
    else if !env.stdoutOk || !env.stderrOk then Execution(OpenFailed, [])
    else if tc.configData.JNull? then Execution(NoTests, [])
    else
      match In("tests", tc.configData)
      case Failure(f) => Execution(Crashed(f), [])
      case Success(false) => Execution(NoTests, [])
      case Success(true) =>
        match GetItem(tc.configData, "tests")
        case Failure(f) => Execution(Crashed(f), [])
        case Success(tests) =>
          var p := RunTests(tests, env.spawn);
          Execution(if p.fault.Some? then Crashed(p.fault.value) else Executed, p.spawns)
  }

  /** The argument vectors of a list of processes. */
  function ArgvsOfSpawns(spawns: seq<Spawn>): (r: seq<seq<Json>>)
    ensures |r| == |spawns| && forall i :: 0 <= i < |spawns| ==> r[i] == spawns[i].argv
  {
    if spawns == [] then [] else [spawns[0].argv] + ArgvsOfSpawns(spawns[1..])
  }

  /** Which processes the loop starts, and whether it ends early, does not depend on how the
      processes end: a failed spawn never stops the entries after it. */
  lemma {:induction false} RunEntriesIgnoresOutcomes(entries: seq<Json>, s1: nat -> SpawnResult, s2: nat -> SpawnResult, n: nat)
    ensures ArgvsOfSpawns(RunEntries(entries, s1, n).spawns) == ArgvsOfSpawns(RunEntries(entries, s2, n).spawns)
    ensures RunEntries(entries, s1, n).fault == RunEntries(entries, s2, n).fault
    decreases |entries|
  {
    if entries != [] {
      match LaunchArgv(entries[0])
      case Failure(_) =>
      case Success(None) =>
        RunEntriesIgnoresOutcomes(entries[1..], s1, s2, n);
      case Success(Some(argv)) =>
        RunEntriesIgnoresOutcomes(entries[1..], s1, s2, n + 1);
        var p1 := RunEntries(entries[1..], s1, n + 1);
        var p2 := RunEntries(entries[1..], s2, n + 1);
        assert ArgvsOfSpawns([Spawn(argv, s1(n))] + p1.spawns) == [argv] + ArgvsOfSpawns(p1.spawns);
        assert ArgvsOfSpawns([Spawn(argv, s2(n))] + p2.spawns) == [argv] + ArgvsOfSpawns(p2.spawns);
    }
  }

  /** `run` starts the same processes and stops at the same point whatever the spawned
      processes do: only the operating-system steps and the config decide. */
  lemma RunIgnoresSpawnOutcomes(tc: TestCase, env1: CaseEnv, env2: CaseEnv)
    requires env1.chdirOk == env2.chdirOk && env1.mkdirOk == env2.mkdirOk
    requires env1.stdoutOk == env2.stdoutOk && env1.stderrOk == env2.stderrOk
    ensures Run(tc, env1).status == Run(tc, env2).status
    ensures ArgvsOfSpawns(Run(tc, env1).spawns) == ArgvsOfSpawns(Run(tc, env2).spawns)
  {
    if env1.chdirOk && env1.mkdirOk && env1.stdoutOk && env1.stderrOk && tc.configData.JObject?
      && "tests" in tc.configData.fields
    {
      var tests := tc.configData.fields["tests"];
      match tests
      case JArray(xs) => RunEntriesIgnoresOutcomes(xs, env1.spawn, env2.spawn, 0);
      case JString(str) => RunEntriesIgnoresOutcomes(Chars(str), env1.spawn, env2.spawn, 0);
      case _ =>
    }
  }

  /** With every operating-system step succeeding and a `tests` list of launchable elements, `run`
      starts exactly `[program] + args` for each element holding both keys, in order, the i-th
      getting the oracle's i-th answer. */
  lemma RunLaunchesEveryEntry(tc: TestCase, env: CaseEnv)
    requires env.chdirOk && env.mkdirOk && env.stdoutOk && env.stderrOk
    requires tc.configData.JObject? && "tests" in tc.configData.fields && tc.configData.fields["tests"].JArray?
    requires forall i :: 0 <= i < |tc.configData.fields["tests"].items| ==> Launchable(tc.configData.fields["tests"].items[i])
    ensures Run(tc, env).status == Executed
    ensures ArgvsOfSpawns(Run(tc, env).spawns) == Argvs(tc.configData.fields["tests"].items)
    ensures forall i :: 0 <= i < |Run(tc, env).spawns| ==> Run(tc, env).spawns[i].result == env.spawn(i)
  {
    var xs := tc.configData.fields["tests"].items;
    var p := RunEntries(xs, env.spawn, 0);
    assert Run(tc, env).spawns == p.spawns;
    assert ArgvsOfSpawns(p.spawns) == Argvs(xs);
  }

  /** The first element whose argument vector holds a non-str raises TypeError out of the loop:
      neither its process nor any later one is started. */
  lemma NonStrArgvRaises(entries: seq<Json>, spawn: nat -> SpawnResult, n: nat)
    requires entries != [] && ArgvOf(entries[0]).Some? && !StrArgv(ArgvOf(entries[0]).value)
    ensures RunEntries(entries, spawn, n) == Progress([], Some(TypeError))
  {
    assert WellShaped(entries[0]);
  }

  /** `{"program": "echo", "args": [true]}`: the bool argument makes `run` raise TypeError
      before any process is started. */
  lemma RunRejectsBoolArgument(tc: TestCase, env: CaseEnv)
    requires env.chdirOk && env.mkdirOk && env.stdoutOk && env.stderrOk
    requires tc.configData == JObject(map["tests" := JArray([JObject(map["program" := JString("echo"), "args" := JArray([JBool(true)])])])])
    ensures Run(tc, env) == Execution(Crashed(TypeError), [])
  {
    var entry := JObject(map["program" := JString("echo"), "args" := JArray([JBool(true)])]);
    assert "program" in entry.fields && "args" in entry.fields;
    assert entry.fields["program"] == JString("echo") && entry.fields["args"] == JArray([JBool(true)]);
    assert [JString("echo")] + [JBool(true)] == [JString("echo"), JBool(true)];
    assert ArgvOf(entry) == Some([JString("echo"), JBool(true)]);
    assert !StrArgv(ArgvOf(entry).value) by {
      assert !ArgvOf(entry).value[1].JString?;
    }
    NonStrArgvRaises([entry], env.spawn, 0);
  }
}
