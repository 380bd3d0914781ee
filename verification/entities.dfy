/**
  The three node kinds of the entity tree: the framework (run root), its
  suites and their test cases. Each node owns its path, the name of the config
  file found for it and the parsed document; containers own a registry of
  children. `Option` stands for a file name the source leaves at None; a
  document left at None is `JNull`, the same value a file holding `null` parses to.
*/
module Entities {
  import opened Results
  import opened PyJson
  import opened Paths
  import opened Registries

  datatype TestCase = TestCase(
    path: Path,
    name: string,
    outputSubdir: Path,
    configFile: Option<string>,
    configData: Json)

  datatype Suite = Suite(
    path: Path,
    name: string,
    configFile: Option<string>,
    configData: Json,
    cases: Registry<TestCase>)

  datatype Framework = Framework(
    path: Path,
    configFile: Option<string>,
    configData: Json,
    suites: Registry<Suite>,
    vars: map<string, Json>,
    outputSubdir: string)

  /** Registries of a framework and of each of its suites are valid. */
  predicate ValidFramework(fw: Framework) {
    Valid(fw.suites) && forall i :: 0 <= i < |fw.suites.list| ==> Valid(fw.suites.list[i].cases)
  }

  /** `TestFramework(path)`; `stamp` is the run-wide output directory name the
      source formats from the UTC clock at this moment. */
  function NewFramework(path: Path, stamp: string): (fw: Framework)
    ensures ValidFramework(fw)
    ensures fw.suites.list == [] && fw.vars == map[] && fw.configFile.None? && fw.configData.JNull?
    ensures fw.path == path && fw.outputSubdir == stamp
  {
    Framework(path, None, JNull, Empty(), map[], stamp)
  }

  /** `TestSuite(path, subdir)`: a node named after its directory. */
  function NewSuite(parent: Path, subdir: string): (s: Suite)
    ensures s.name == subdir && s.cases.list == [] && Valid(s.cases) && s.configFile.None? && s.configData.JNull?
    ensures IsStripped(parent) && IsName(subdir) ==> SplitLast(s.path) == Some((parent, s.name))
  {
    var s := Suite(Join(parent, subdir), subdir, None, JNull, Empty());
    if IsStripped(parent) && IsName(subdir) then JoinSplit(parent, subdir); s else s
  }

  /** `TestCase(path, subdir, output_subdir)`: the capture directory lives inside
      the test case's own directory, under the run-wide name. */
  function NewTestCase(parent: Path, subdir: string, stamp: string): (t: TestCase)
    ensures t.name == subdir && t.configFile.None? && t.configData.JNull?
    ensures IsStripped(parent) && IsName(subdir) ==> SplitLast(t.path) == Some((parent, t.name))
    ensures IsStripped(parent) && IsName(subdir) && IsName(stamp) ==>
      t.outputSubdir == parent + [Sep] + subdir + [Sep] + stamp && SplitLast(t.outputSubdir) == Some((t.path, stamp))
  {
    var path := Join(parent, subdir);
    var t := TestCase(path, subdir, Join(path, stamp), None, JNull);
    if IsStripped(parent) && IsName(subdir) then
      JoinSplit(parent, subdir);
      if IsName(stamp) then JoinSplit(path, stamp); t else t
    else t
  }

  /** `TestFramework.add_suite`. */
  function AddSuite(fw: Framework, s: Suite): (fw': Framework)
    requires Valid(fw.suites)
    ensures Valid(fw'.suites)
    ensures ValidFramework(fw) && Valid(s.cases) ==> ValidFramework(fw')
    ensures GetSuites(fw') == GetSuites(fw) + [s]
    ensures GetSuite(fw', s.name) == Some(s)
    ensures forall n :: n != s.name ==> GetSuite(fw', n) == GetSuite(fw, n)
    ensures fw'.vars == fw.vars && fw'.configData == fw.configData && fw'.path == fw.path
    ensures fw'.configFile == fw.configFile && fw'.outputSubdir == fw.outputSubdir
  {
    fw.(suites := Add(fw.suites, s.name, s))
  }

  /** `TestFramework.get_suite`: None for a name never added. */
  function GetSuite(fw: Framework, name: string): (r: Option<Suite>)
    requires Valid(fw.suites)
    ensures r.Some? <==> name in fw.suites.index
  {
    Get(fw.suites, name)
  }

  /** `TestFramework.get_suites`: registration order. */
  function GetSuites(fw: Framework): seq<Suite> {
    fw.suites.list
  }

  /** `TestSuite.add_test_case`. */
  function AddTestCase(s: Suite, t: TestCase): (s': Suite)
    requires Valid(s.cases)
    ensures Valid(s'.cases)
    ensures GetTestCases(s') == GetTestCases(s) + [t]
    ensures GetTestCase(s', t.name) == Some(t)
    ensures forall n :: n != t.name ==> GetTestCase(s', n) == GetTestCase(s, n)
    ensures s'.name == s.name && s'.path == s.path && s'.configFile == s.configFile && s'.configData == s.configData
  {
    s.(cases := Add(s.cases, t.name, t))
  }

  /** `TestSuite.get_test_case`: None for a name never added. */
  function GetTestCase(s: Suite, name: string): (r: Option<TestCase>)
    requires Valid(s.cases)
    ensures r.Some? <==> name in s.cases.index
  {
    Get(s.cases, name)
  }

  /** `TestSuite.get_test_cases`: registration order. */
  function GetTestCases(s: Suite): seq<TestCase> {
    s.cases.list
  }
}
