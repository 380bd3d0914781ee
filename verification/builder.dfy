/**
  The tree builder: the three depth-specific visits (`add_test_suites`,
  `add_test_cases_to_suite`, `add_details_to_test_case`) and the depth dispatch
  of `main` that feeds them the records of the walk.
*/
module Builder {
  import opened Results
  import opened PyJson
  import opened Paths
  import opened Registries
  import opened Entities
  import opened Variables
  import opened Walk
  import opened ConfigFiles

  /** The config document of one level, if its file is listed: `(file name, document)`. */
  function LoadConfig(depth: int, rec: Record): (r: Result<Option<(string, Json)>, Halt>)
    requires 0 <= depth < |ConfigNames|
    ensures r.Failure? ==> r.error == Exit(1) && ConfigNames[depth] in FileNames(rec.files)
    ensures r.Success? && r.value.None? <==> ConfigNames[depth] !in FileNames(rec.files)
    ensures r.Success? && r.value.Some? ==>
      && r.value.value.0 == ConfigNames[depth]
      && FindFile(rec.files, ConfigNames[depth]) == Some(Parsed(r.value.value.1))
  {
    match GetConfigFile(depth, FileNames(rec.files))
    case None => Success(None)
    case Some(name) =>
      var doc :- ReadConfigFile(rec.files, name);
      Success(Some((name, doc)))
  }

  /** Appending one element and then a sequence is appending both at once. */
  lemma Regroup<T>(a: seq<T>, x: T, b: seq<T>)
    ensures (a + [x]) + b == a + ([x] + b)
  {
  }

  /** Moving the head of `b` onto the end of `a` keeps `a + b`. */
  lemma AppendHead<T>(a: seq<T>, b: seq<T>)
    requires b != []
    ensures (a + [b[0]]) + b[1..] == a + b
  {
    assert b == [b[0]] + b[1..];
    Regroup(a, b[0], b[1..]);
  }

  /** One fresh suite per subdirectory, in listing order. */
  function NewSuites(path: Path, dirs: seq<string>): (ss: seq<Suite>)
    ensures |ss| == |dirs| && forall i :: 0 <= i < |dirs| ==> ss[i] == NewSuite(path, dirs[i])
  {
    if dirs == [] then [] else [NewSuite(path, dirs[0])] + NewSuites(path, dirs[1..])
  }

  /** One fresh test case per subdirectory, in listing order. */
  function NewTestCases(path: Path, dirs: seq<string>, stamp: string): (ts: seq<TestCase>)
    ensures |ts| == |dirs| && forall i :: 0 <= i < |dirs| ==> ts[i] == NewTestCase(path, dirs[i], stamp)
  {
    if dirs == [] then [] else [NewTestCase(path, dirs[0], stamp)] + NewTestCases(path, dirs[1..], stamp)
  }

  /** The `for subdir in dirs: framework.add_suite(TestSuite(path, subdir))` loop. */
  function AddSuites(fw: Framework, path: Path, dirs: seq<string>): (fw': Framework)
    requires ValidFramework(fw)
    ensures ValidFramework(fw')
    ensures GetSuites(fw') == GetSuites(fw) + NewSuites(path, dirs)
    ensures fw'.path == fw.path && fw'.configFile == fw.configFile && fw'.configData == fw.configData
    ensures fw'.vars == fw.vars && fw'.outputSubdir == fw.outputSubdir
    decreases |dirs|
  {
    if dirs == [] then fw
    else
      var s := NewSuite(path, dirs[0]);
      var next := AddSuite(fw, s);
      var r := AddSuites(next, path, dirs[1..]);
      Regroup(GetSuites(fw), s, NewSuites(path, dirs[1..]));
      r
  }

  /** Registering suites under other names leaves a lookup as it was. */
  lemma {:induction false} AddSuitesKeeps(fw: Framework, path: Path, dirs: seq<string>, name: string)
    requires ValidFramework(fw) && name !in dirs
    ensures GetSuite(AddSuites(fw, path, dirs), name) == GetSuite(fw, name)
    decreases |dirs|
  {
    if dirs != [] {
      AddSuitesKeeps(AddSuite(fw, NewSuite(path, dirs[0])), path, dirs[1..], name);
    }
  }

  /** Registers the given test cases one after the other. */
  function AddTestCases(s: Suite, ts: seq<TestCase>): (s': Suite)
    requires Valid(s.cases)
    ensures Valid(s'.cases)
    ensures GetTestCases(s') == GetTestCases(s) + ts
    ensures s'.path == s.path && s'.name == s.name && s'.configFile == s.configFile && s'.configData == s.configData
    decreases |ts|
  {
    if ts == [] then s
    else
      var next := AddTestCase(s, ts[0]);
      var r := AddTestCases(next, ts[1..]);
      AppendHead(GetTestCases(s), ts);
      r
  }

  /** The `for subdir in dirs: suite.add_test_case(TestCase(path, subdir, stamp))` loop. */
  function AddCases(s: Suite, path: Path, dirs: seq<string>, stamp: string): (s': Suite)
    requires Valid(s.cases)
    ensures Valid(s'.cases)
    ensures GetTestCases(s') == GetTestCases(s) + NewTestCases(path, dirs, stamp)
    ensures s'.path == s.path && s'.name == s.name && s'.configFile == s.configFile && s'.configData == s.configData
  {
    AddTestCases(s, NewTestCases(path, dirs, stamp))
  }

  /** Replaces the suite registered under `name`, keeping the registries valid. */
  function PutSuite(fw: Framework, name: string, s: Suite): (fw': Framework)
    requires ValidFramework(fw) && name in fw.suites.index && Valid(s.cases)
    ensures ValidFramework(fw')
    ensures GetSuite(fw', name) == Some(s)
    ensures forall n :: n != name ==> GetSuite(fw', n) == GetSuite(fw, n)
    ensures |GetSuites(fw')| == |GetSuites(fw)|
    ensures fw'.path == fw.path && fw'.configFile == fw.configFile && fw'.configData == fw.configData
    ensures fw'.vars == fw.vars && fw'.outputSubdir == fw.outputSubdir
  {
    fw.(suites := Update(fw.suites, name, s))
  }

  /** `add_test_suites` on the depth-0 record: attach the framework config (resolving the
      variables from it), then register one suite per subdirectory. */
  function AddTestSuites(fw: Framework, rec: Record): (r: Result<Framework, Halt>)
    requires ValidFramework(fw) && fw.suites.list == [] && fw.vars == map[] && fw.configFile.None? && fw.configData.JNull?
    ensures r.Success? ==> ValidFramework(r.value)
    ensures r.Success? ==> GetSuites(r.value) == NewSuites(rec.path, rec.dirs)
    ensures r.Success? && ConfigNames[0] !in FileNames(rec.files) ==>
      r.value.vars == map[] && r.value.configFile.None? && r.value.configData.JNull?
    ensures r.Success? && ConfigNames[0] in FileNames(rec.files) ==>
      && r.value.configFile == Some(ConfigNames[0])
      && FindFile(rec.files, ConfigNames[0]) == Some(Parsed(r.value.configData))
      && r.value.vars == Expected(r.value.configData)
    ensures r.Success? ==> r.value.path == fw.path && r.value.outputSubdir == fw.outputSubdir
  {
    var found :- LoadConfig(0, rec);
    var configured :-
      match found
      case None => Success(fw)
      case Some((name, doc)) =>
        var vars :- SetConfigData(doc).MapFailure((f: Fault) => Crash(f));
        Success(fw.(configFile := Some(name), configData := doc, vars := vars));
    Success(AddSuites(configured, rec.path, rec.dirs))
  }

  /** `add_test_cases_to_suite` on a depth-1 record: the suite is found by the path's last
      segment, whose unpacking raises ValueError before the framework is touched; its config is
      attached and one test case registered per subdirectory. A missing suite is only touched
      (and so only raises) when there is something to attach. */
  function AddTestCasesToSuite(state: Option<Framework>, rec: Record): (r: Result<Framework, Halt>)
    requires state.Some? ==> ValidFramework(state.value)
    ensures SplitLast(rec.path).None? ==> r == Failure(Crash(ValueError))
    ensures SplitLast(rec.path).Some? && state.None? ==> r == Failure(Crash(AttributeError))
    ensures r.Success? ==> state.Some? && ValidFramework(r.value) && |GetSuites(r.value)| == |GetSuites(state.value)|
  {
    match SplitLast(rec.path)
    case None => Failure(Crash(ValueError))
    case Some((_, suiteName)) =>
      if state.None? then Failure(Crash(AttributeError))
      else
        var fw := state.value;
        var suite := GetSuite(fw, suiteName);
        var found :- LoadConfig(1, rec);
        if suite.None? then
          if found.Some? || rec.dirs != [] then Failure(Crash(AttributeError)) else Success(fw)
        else
          var configured :=
            match found
            case None => suite.value
            case Some((name, doc)) => suite.value.(configFile := Some(name), configData := doc);
          Success(PutSuite(fw, suiteName, AddCases(configured, rec.path, rec.dirs, fw.outputSubdir)))
  }

  /** `add_details_to_test_case` on a depth-2 record: suite and test case are found by the
      path's last two segments, whose unpacking raises ValueError before the framework is
      touched, and the test case's config is attached. */
  function AddDetailsToTestCase(state: Option<Framework>, rec: Record): (r: Result<Framework, Halt>)
    requires state.Some? ==> ValidFramework(state.value)
    ensures SplitLast(rec.path).None? || SplitLast(SplitLast(rec.path).value.0).None? ==> r == Failure(Crash(ValueError))
    ensures SplitLast(rec.path).Some? && SplitLast(SplitLast(rec.path).value.0).Some? && state.None? ==>
      r == Failure(Crash(AttributeError))
    ensures r.Success? ==> state.Some? && ValidFramework(r.value) && |GetSuites(r.value)| == |GetSuites(state.value)|
  {
    match SplitLast(rec.path)
    case None => Failure(Crash(ValueError))
    case Some((parent, testName)) =>
      match SplitLast(parent)
      case None => Failure(Crash(ValueError))
      case Some((_, suiteName)) =>
        if state.None? then Failure(Crash(AttributeError))
        else
          var fw := state.value;
          match GetSuite(fw, suiteName)
          case None => Failure(Crash(AttributeError))
          case Some(suite) =>
            var testCase := GetTestCase(suite, testName);
            var found :- LoadConfig(2, rec);
            match found
            case None => Success(fw)
            case Some((name, doc)) =>
              if testCase.None? then Failure(Crash(AttributeError))
              else
                var updated := testCase.value.(configFile := Some(name), configData := doc);
                var suite' := suite.(cases := Update(suite.cases, testName, updated));
                Success(PutSuite(fw, suiteName, suite'))
  }

  /** What the depth-1 visit does to the suite its path names. An unregistered suite survives
      only a record with nothing to attach; a registered one gets the level's config, if
      listed, and one fresh test case per subdirectory, and no other suite changes. */
  lemma SuiteRecordEffect(fw: Framework, rec: Record)
    requires ValidFramework(fw) && SplitLast(rec.path).Some?
    ensures var name := SplitLast(rec.path).value.1;
      var r := AddTestCasesToSuite(Some(fw), rec);
      && (LoadConfig(1, rec).Failure? ==> r == Failure(Exit(1)))
      && (name !in fw.suites.index ==>
            (r.Success? <==> ConfigNames[1] !in FileNames(rec.files) && rec.dirs == []) && (r.Success? ==> r.value == fw))
      && (name in fw.suites.index ==> (r.Success? <==> LoadConfig(1, rec).Success?))
  {
  }

  lemma SuiteRecordUpdates(fw: Framework, rec: Record)
    requires ValidFramework(fw) && SplitLast(rec.path).Some? && SplitLast(rec.path).value.1 in fw.suites.index
    requires AddTestCasesToSuite(Some(fw), rec).Success?
    ensures var name := SplitLast(rec.path).value.1;
      var fw' := AddTestCasesToSuite(Some(fw), rec).value;
      var before := GetSuite(fw, name).value;
      && (forall n :: n != name ==> GetSuite(fw', n) == GetSuite(fw, n))
      && GetSuite(fw', name).Some?
      && var after := GetSuite(fw', name).value;
      && GetTestCases(after) == GetTestCases(before) + NewTestCases(rec.path, rec.dirs, fw.outputSubdir)
      && after.name == before.name && after.path == before.path
      && (ConfigNames[1] !in FileNames(rec.files) ==> after.configFile == before.configFile && after.configData == before.configData)
      && (ConfigNames[1] in FileNames(rec.files) ==>
            after.configFile == Some(ConfigNames[1]) && FindFile(rec.files, ConfigNames[1]) == Some(Parsed(after.configData)))
  {
  }

  /** What the depth-2 visit does. An unregistered suite raises before the config is looked
      at; a config for an unregistered test case raises after it is read; otherwise the
      test case gets the level's config, if listed, and nothing else changes. */
  lemma DetailsRecordEffect(fw: Framework, rec: Record)
    requires ValidFramework(fw) && SplitLast(rec.path).Some? && SplitLast(SplitLast(rec.path).value.0).Some?
    ensures var testName := SplitLast(rec.path).value.1;
      var suiteName := SplitLast(SplitLast(rec.path).value.0).value.1;
      var r := AddDetailsToTestCase(Some(fw), rec);
      && (suiteName !in fw.suites.index ==> r == Failure(Crash(AttributeError)))
      && (suiteName in fw.suites.index && LoadConfig(2, rec).Failure? ==> r == Failure(Exit(1)))
      && (suiteName in fw.suites.index && ConfigNames[2] !in FileNames(rec.files) ==> r == Success(fw))
      && (suiteName in fw.suites.index && ConfigNames[2] in FileNames(rec.files) && LoadConfig(2, rec).Success? ==>
            (r.Success? <==> testName in GetSuite(fw, suiteName).value.cases.index))
  {
  }

  lemma DetailsRecordUpdates(fw: Framework, rec: Record)
    requires ValidFramework(fw) && SplitLast(rec.path).Some? && SplitLast(SplitLast(rec.path).value.0).Some?
    requires SplitLast(SplitLast(rec.path).value.0).value.1 in fw.suites.index
    requires AddDetailsToTestCase(Some(fw), rec).Success?
    ensures var testName := SplitLast(rec.path).value.1;
      var suiteName := SplitLast(SplitLast(rec.path).value.0).value.1;
      var fw' := AddDetailsToTestCase(Some(fw), rec).value;
      var before := GetSuite(fw, suiteName).value;
      && (forall n :: n != suiteName ==> GetSuite(fw', n) == GetSuite(fw, n))
      && GetSuite(fw', suiteName).Some?
      && var after := GetSuite(fw', suiteName).value;
      && after.name == before.name && after.configFile == before.configFile && after.configData == before.configData
      && Valid(after.cases) && Valid(before.cases)
      && (forall n :: n != testName ==> GetTestCase(after, n) == GetTestCase(before, n))
      && (ConfigNames[2] in FileNames(rec.files) ==>
            && GetTestCase(after, testName).Some? && GetTestCase(before, testName).Some?
            && GetTestCase(after, testName).value.configFile == Some(ConfigNames[2])
            && FindFile(rec.files, ConfigNames[2]) == Some(Parsed(GetTestCase(after, testName).value.configData))
            && GetTestCase(after, testName).value.path == GetTestCase(before, testName).value.path
            && GetTestCase(after, testName).value.outputSubdir == GetTestCase(before, testName).value.outputSubdir)
  {
  }

  /** The loop body of `main`'s walk: dispatch on depth; any other depth exits with status 1. */
  function ProcessRecord(state: Option<Framework>, rec: Record, stamp: string): (r: Result<Option<Framework>, Halt>)
    requires state.Some? ==> ValidFramework(state.value)
    ensures r.Success? ==> r.value.Some? && ValidFramework(r.value.value)
    ensures !(0 <= rec.depth <= 2) ==> r == Failure(Exit(1))
  {
    if rec.depth == 0 then
      var fw :- AddTestSuites(NewFramework(rec.path, stamp), rec);
      Success(Some(fw))
    else if rec.depth == 1 then
      var fw :- AddTestCasesToSuite(state, rec);
      Success(Some(fw))
    else if rec.depth == 2 then
      var fw :- AddDetailsToTestCase(state, rec);
      Success(Some(fw))
    else Failure(Exit(1))
  }

  /** `main`'s loop over the walk, stopping at the first halt. */
  function BuildTree(records: seq<Record>, state: Option<Framework>, stamp: string): (r: Result<Option<Framework>, Halt>)
    requires state.Some? ==> ValidFramework(state.value)
    ensures r.Success? ==> (r.value.Some? ==> ValidFramework(r.value.value))
    ensures r.Success? && r.value.None? ==> records == [] && state.None?
    decreases |records|
  {
    if records == [] then Success(state)
    else
      var next :- ProcessRecord(state, records[0], stamp);
      BuildTree(records[1..], next, stamp)
  }
}
