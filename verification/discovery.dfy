/**
  What the tree builder discovers, stated without the walk: a reference
  entity tree computed directly from the directory tree, and the theorem that
  `main`'s walk plus depth dispatch builds exactly that tree whenever the
  directory tree is well formed (distinct sibling names, readable config files,
  a framework config of the shape `set_config_data` reads: a dict whose
  `credentials`, when present, is a dict).
*/
module Discovery {
  import opened Results
  import opened PyJson
  import opened Paths
  import opened Registries
  import opened Entities
  import opened Variables
  import opened Walk
  import opened ConfigFiles
  import opened Builder

  /** The config a directory at `depth` contributes: the level's file name and its document,
      or nothing when the file is absent (or, outside well-formed trees, unreadable). */
  function ConfigOf(files: seq<File>, depth: int): (Option<string>, Json)
    requires 0 <= depth < |ConfigNames|
  {
    var found := FindFile(files, ConfigNames[depth]);
    if found.Some? && found.value.Parsed? then (Some(ConfigNames[depth]), found.value.doc)
    else (None, JNull)
  }

  /** The level's config file, when listed, opens and parses. */
  predicate Readable(files: seq<File>, depth: int)
    requires 0 <= depth < |ConfigNames|
  {
    ConfigNames[depth] in FileNames(files) ==>
      FindFile(files, ConfigNames[depth]).Some? && FindFile(files, ConfigNames[depth]).value.Parsed?
  }

  /** A test case directory whose config, if it has one, can be read. */
  predicate WellFormedCase(c: Dir) {
    c.listable ==> Readable(c.files, 2)
  }

  /** A suite directory with readable configs and distinctly named test cases. */
  predicate WellFormedSuite(s: Dir) {
    s.listable ==>
      && Readable(s.files, 1)
      && Distinct(DirNames(s.subdirs))
      && forall j :: 0 <= j < |s.subdirs| ==> WellFormedCase(s.subdirs[j])
  }

  /** The root of a run: listable, properly named entries, distinctly named suites, readable
      configs, and a framework config of the shape `set_config_data` reads
      (`ConformingFrameworkConfig`). */
  predicate WellFormed(tree: Dir) {
    && tree.listable
    && Named(tree)
    && Readable(tree.files, 0)
    && (ConfigOf(tree.files, 0).0.Some? ==> ConformingFrameworkConfig(ConfigOf(tree.files, 0).1))
    && Distinct(DirNames(tree.subdirs))
    && forall i :: 0 <= i < |tree.subdirs| ==> WellFormedSuite(tree.subdirs[i])
  }

  /** The test case for directory `c` of the suite at `parent`, its config attached. */
  function DiscoverCase(parent: Path, c: Dir, stamp: string): TestCase {
    var t := NewTestCase(parent, c.name, stamp);
    if !c.listable then t
    else t.(configFile := ConfigOf(c.files, 2).0, configData := ConfigOf(c.files, 2).1)
  }

  function DiscoverCases(parent: Path, cs: seq<Dir>, stamp: string): (ts: seq<TestCase>)
    ensures |ts| == |cs| && forall j :: 0 <= j < |cs| ==> ts[j] == DiscoverCase(parent, cs[j], stamp)
  {
    if cs == [] then [] else [DiscoverCase(parent, cs[0], stamp)] + DiscoverCases(parent, cs[1..], stamp)
  }

  /** The suite for directory `s` under `root`: its config and one test case per
      subdirectory, registered under the subdirectory's name. An unlistable suite directory
      stays an empty suite. */
  function DiscoverSuite(root: Path, s: Dir, stamp: string): Suite {
    var base := NewSuite(root, s.name);
    if !s.listable then base
    else
      var path := Join(root, s.name);
      base.(
        configFile := ConfigOf(s.files, 1).0,
        configData := ConfigOf(s.files, 1).1,
        cases := Registry(DiscoverCases(path, s.subdirs, stamp), Positions(DirNames(s.subdirs))))
  }

  function DiscoverSuites(root: Path, ss: seq<Dir>, stamp: string): (r: seq<Suite>)
    ensures |r| == |ss| && forall i :: 0 <= i < |ss| ==> r[i] == DiscoverSuite(root, ss[i], stamp)
  {
    if ss == [] then [] else [DiscoverSuite(root, ss[0], stamp)] + DiscoverSuites(root, ss[1..], stamp)
  }

  /** The framework for the tree at `root`: its config, the variables resolved from it, and
      one suite per subdirectory. */
  function Discover(root: Path, tree: Dir, stamp: string): Framework {
    var (file, doc) := ConfigOf(tree.files, 0);
    Framework(
      root, file, doc,
      Registry(DiscoverSuites(root, tree.subdirs, stamp), Positions(DirNames(tree.subdirs))),
      if file.Some? then Expected(doc) else map[],
      stamp)
  }

  /** Loading a readable level's config yields exactly what `ConfigOf` reports. */
  lemma LoadConfigOf(depth: int, rec: Record)
    requires 0 <= depth < |ConfigNames| && Readable(rec.files, depth)
    ensures LoadConfig(depth, rec) ==
      if ConfigOf(rec.files, depth).0.Some? then Success(Some((ConfigNames[depth], ConfigOf(rec.files, depth).1)))
      else Success(None)
  {
    var name := ConfigNames[depth];
    if name !in FileNames(rec.files) {
      assert forall i :: 0 <= i < |rec.files| ==> rec.files[i].name != name by {
        forall i | 0 <= i < |rec.files| ensures rec.files[i].name != name {
          assert FileNames(rec.files)[i] == rec.files[i].name;
        }
      }
    }
  }

  /** Registering fresh suites extends the dict in step with the list. */
  lemma {:induction false} AddSuitesIndex(fw: Framework, path: Path, keys: seq<string>, dirs: seq<string>)
    requires ValidFramework(fw) && fw.suites.index == Positions(keys) && |fw.suites.list| == |keys|
    ensures AddSuites(fw, path, dirs).suites.index == Positions(keys + dirs)
    decreases |dirs|
  {
    if dirs == [] {
      assert keys + dirs == keys;
    } else {
      var next := AddSuite(fw, NewSuite(path, dirs[0]));
      var keys' := keys + [dirs[0]];
      AddSuitesCons(fw, path, dirs);
      AddSuiteIndex(fw, path, keys, dirs[0]);
      AddSuitesIndex(next, path, keys', dirs[1..]);
      AppendHead(keys, dirs);
    }
  }

  /** Registering one fresh suite extends the dict by its name. */
  lemma AddSuiteIndex(fw: Framework, path: Path, keys: seq<string>, name: string)
    requires ValidFramework(fw) && fw.suites.index == Positions(keys) && |fw.suites.list| == |keys|
    ensures var next := AddSuite(fw, NewSuite(path, name));
      next.suites.index == Positions(keys + [name]) && |next.suites.list| == |keys| + 1
  {
    AddPositions(fw.suites.list, keys, name, NewSuite(path, name));
  }

  /** One step of the suite loop: register the first suite, then the rest. */
  lemma AddSuitesCons(fw: Framework, path: Path, dirs: seq<string>)
    requires ValidFramework(fw) && dirs != []
    ensures ValidFramework(AddSuite(fw, NewSuite(path, dirs[0])))
    ensures AddSuites(fw, path, dirs) == AddSuites(AddSuite(fw, NewSuite(path, dirs[0])), path, dirs[1..])
  {
  }

  function TestCaseNames(ts: seq<TestCase>): seq<string>
  {
    if ts == [] then [] else [ts[0].name] + TestCaseNames(ts[1..])
  }

  /** Fresh test cases carry their directories' names. */
  lemma {:induction false} NewTestCaseNames(path: Path, dirs: seq<string>, stamp: string)
    ensures TestCaseNames(NewTestCases(path, dirs, stamp)) == dirs
    decreases |dirs|
  {
    if dirs != [] {
      NewTestCaseNames(path, dirs[1..], stamp);
      assert NewTestCases(path, dirs, stamp) == [NewTestCase(path, dirs[0], stamp)] + NewTestCases(path, dirs[1..], stamp);
      assert NewTestCases(path, dirs, stamp)[1..] == NewTestCases(path, dirs[1..], stamp);
    }
  }

  /** Registering test cases extends the dict in step with the list. */
  lemma {:induction false} AddTestCasesIndex(s: Suite, keys: seq<string>, ts: seq<TestCase>)
    requires s.cases.index == Positions(keys) && |s.cases.list| == |keys|
    ensures Valid(s.cases)
    ensures AddTestCases(s, ts).cases.index == Positions(keys + TestCaseNames(ts))
    decreases |ts|
  {
    PositionsValid(s.cases.list, keys);
    if ts == [] {
      assert keys + TestCaseNames(ts) == keys;
    } else {
      var next := AddTestCase(s, ts[0]);
      var keys' := keys + [ts[0].name];
      assert next.cases.index == Positions(keys') && |next.cases.list| == |keys'| by {
        AddPositions(s.cases.list, keys, ts[0].name, ts[0]);
      }
      AddTestCasesIndex(next, keys', ts[1..]);
      assert AddTestCases(s, ts) == AddTestCases(next, ts[1..]);
      assert TestCaseNames(ts) == [ts[0].name] + TestCaseNames(ts[1..]);
      Regroup(keys, ts[0].name, TestCaseNames(ts[1..]));
    }
  }

  /** `main`'s loop over a concatenation is the loop over the first part, then the second. */
  lemma {:induction false} BuildTreeAppend(a: seq<Record>, b: seq<Record>, state: Option<Framework>, stamp: string)
    requires state.Some? ==> ValidFramework(state.value)
    ensures BuildTree(a + b, state, stamp) ==
      var r := BuildTree(a, state, stamp);
      if r.Failure? then r else BuildTree(b, r.value, stamp)
    decreases |a|
  {
    if a == [] {
      assert a + b == b;
    } else {
      assert (a + b)[0] == a[0];
      assert (a + b)[1..] == a[1..] + b;
      var next := ProcessRecord(state, a[0], stamp);
      if next.Success? {
        BuildTreeAppend(a[1..], b, next.value, stamp);
      }
    }
  }

  /** The walk below a node, split into the node's own visit and its remaining siblings. */
  lemma VisitChildrenSplit(path: Path, ds: seq<Dir>, k: int, level: int, maxDepth: int)
    requires 0 <= k < |ds|
    ensures VisitChildren(path, ds[k..], level, maxDepth) ==
      Visit(Join(path, ds[k].name), ds[k], level, maxDepth) + VisitChildren(path, ds[k + 1..], level, maxDepth)
  {
    assert ds[k..][0] == ds[k];
    assert ds[k..][1..] == ds[k + 1..];
  }

  /** `main`'s loop over a single record. */
  lemma BuildTreeSingle(rec: Record, state: Option<Framework>, stamp: string)
    requires state.Some? ==> ValidFramework(state.value)
    ensures BuildTree([rec], state, stamp) ==
      var n := ProcessRecord(state, rec, stamp);
      if n.Failure? then Failure(n.error) else Success(n.value)
  {
    assert [rec][1..] == [];
  }

  /** A depth-1 record whose suite is registered at position `k`: the suite gets the level's
      config, if any, and one fresh test case per subdirectory. */
  lemma SuiteStep(fw: Framework, rec: Record, stamp: string, parent: Path, suiteName: string, k: int)
    requires ValidFramework(fw) && rec.depth == 1
    requires SplitLast(rec.path) == Some((parent, suiteName))
    requires suiteName in fw.suites.index && fw.suites.index[suiteName] == k
    ensures var suite := fw.suites.list[k];
      var found := LoadConfig(1, rec);
      found.Success? ==>
        ProcessRecord(Some(fw), rec, stamp) == Success(Some(PutSuite(fw, suiteName, AddCases(
          if found.value.None? then suite
          else suite.(configFile := Some(found.value.value.0), configData := found.value.value.1),
          rec.path, rec.dirs, fw.outputSubdir))))
  {
  }

  /** A depth-2 record whose suite and test case are registered at positions `k` and `j`: the
      test case gets the level's config, if any. */
  lemma DetailsStep(fw: Framework, rec: Record, stamp: string, parent: Path, grand: Path, suiteName: string, testName: string, k: int, j: int)
    requires ValidFramework(fw) && rec.depth == 2
    requires SplitLast(rec.path) == Some((parent, testName)) && SplitLast(parent) == Some((grand, suiteName))
    requires suiteName in fw.suites.index && fw.suites.index[suiteName] == k
    requires testName in fw.suites.list[k].cases.index && fw.suites.list[k].cases.index[testName] == j
    ensures var suite := fw.suites.list[k];
      var tc := suite.cases.list[j];
      var found := LoadConfig(2, rec);
      found.Success? ==>
        ProcessRecord(Some(fw), rec, stamp) == Success(Some(
          if found.value.None? then fw
          else PutSuite(fw, suiteName, suite.(cases := Update(suite.cases, testName,
            tc.(configFile := Some(found.value.value.0), configData := found.value.value.1))))))
  {
  }

  /** The framework with the suite at position `k` replaced. */
  function WithSuite(fw: Framework, k: int, s: Suite): Framework
    requires 0 <= k < |fw.suites.list|
  {
    fw.(suites := fw.suites.(list := fw.suites.list[k := s]))
  }

  lemma WithSuiteValid(fw: Framework, k: int, s: Suite)
    requires ValidFramework(fw) && 0 <= k < |fw.suites.list| && Valid(s.cases)
    ensures ValidFramework(WithSuite(fw, k, s))
  {
  }

  /** Replacing a suite twice keeps only the second replacement. */
  lemma WithSuiteTwice(fw: Framework, k: int, a: Suite, b: Suite)
    requires 0 <= k < |fw.suites.list|
    ensures WithSuite(WithSuite(fw, k, a), k, b) == WithSuite(fw, k, b)
  {
    assert fw.suites.list[k := a][k := b] == fw.suites.list[k := b];
  }

  /** The suite directory `s`'s suite with its config attached and no test cases yet. */
  function SuiteBase(root: Path, s: Dir): Suite
    requires s.listable
  {
    NewSuite(root, s.name).(configFile := ConfigOf(s.files, 1).0, configData := ConfigOf(s.files, 1).1)
  }

  /** `base` with the test cases `list` registered under the names of `s`'s subdirectories. */
  function Filled(base: Suite, s: Dir, list: seq<TestCase>): Suite {
    base.(cases := Registry(list, Positions(DirNames(s.subdirs))))
  }

  /** The test cases of suite `s` once those before `j` are visited: discovered before `j`,
      still fresh from `j` on. */
  function CasesAt(root: Path, s: Dir, j: int, stamp: string): (list: seq<TestCase>)
    ensures |list| == |s.subdirs|
  {
    var path := Join(root, s.name);
    seq(|s.subdirs|, i requires 0 <= i < |s.subdirs| =>
      if i < j then DiscoverCase(path, s.subdirs[i], stamp) else NewTestCase(path, s.subdirs[i].name, stamp))
  }

  /** Visiting test case `j` turns its fresh entry into the discovered one. */
  lemma CasesAtStep(root: Path, s: Dir, j: int, stamp: string)
    requires 0 <= j < |s.subdirs|
    ensures var path := Join(root, s.name);
      && CasesAt(root, s, j, stamp)[j] == NewTestCase(path, s.subdirs[j].name, stamp)
      && CasesAt(root, s, j, stamp)[j := DiscoverCase(path, s.subdirs[j], stamp)] == CasesAt(root, s, j + 1, stamp)
  {
  }

  /** Before the loop every test case is fresh; after it every one is discovered. */
  lemma CasesAtEnds(root: Path, s: Dir, stamp: string)
    ensures var path := Join(root, s.name);
      && CasesAt(root, s, 0, stamp) == NewTestCases(path, DirNames(s.subdirs), stamp)
      && CasesAt(root, s, |s.subdirs|, stamp) == DiscoverCases(path, s.subdirs, stamp)
  {
  }

  /** The facts about test case `j` of suite `s` (registered at position `k`) that the
      depth-2 step needs. */
  predicate CaseReady(root: Path, s: Dir, k: int, j: int, fw: Framework, base: Suite, list: seq<TestCase>, stamp: string) {
    && IsStripped(root) && IsName(s.name) && s.listable
    && Distinct(DirNames(s.subdirs)) && 0 <= j < |s.subdirs| && IsName(s.subdirs[j].name) && WellFormedCase(s.subdirs[j])
    && ValidFramework(fw) && s.name in fw.suites.index && fw.suites.index[s.name] == k
    && |list| == |s.subdirs| && list[j] == NewTestCase(Join(root, s.name), s.subdirs[j].name, stamp)
    && fw.suites.list[k] == Filled(base, s, list)
  }

  /** Test case `j` sits at position `j` of its suite, and replacing it there is replacing
      the suite at position `k`. */
  lemma CaseSlot(root: Path, s: Dir, k: int, j: int, fw: Framework, base: Suite, list: seq<TestCase>, stamp: string, x: TestCase)
    requires CaseReady(root, s, k, j, fw, base, list, stamp)
    ensures var suite := fw.suites.list[k];
      var name := s.subdirs[j].name;
      && name in suite.cases.index && suite.cases.index[name] == j && suite.cases.list[j] == list[j]
      && PutSuite(fw, s.name, suite.(cases := Update(suite.cases, name, x))) == WithSuite(fw, k, Filled(base, s, list[j := x]))
      && (x == list[j] ==> fw == WithSuite(fw, k, Filled(base, s, list[j := x])))
  {
    var names := DirNames(s.subdirs);
    UpdatePositions(list, names, j, x);
    assert names[j] == s.subdirs[j].name;
    if x == list[j] {
      assert list[j := x] == list;
      assert fw.suites.list[k := fw.suites.list[k]] == fw.suites.list;
    }
  }

  /** The depth-2 record of a listable test case attaches its config to that test case only. */
  lemma CaseRecord(root: Path, s: Dir, k: int, j: int, fw: Framework, base: Suite, list: seq<TestCase>, stamp: string)
    requires CaseReady(root, s, k, j, fw, base, list, stamp) && s.subdirs[j].listable
    ensures var path := Join(root, s.name);
      var c := s.subdirs[j];
      ProcessRecord(Some(fw), Record(2, Join(path, c.name), DirNames(c.subdirs), c.files), stamp) ==
        Success(Some(WithSuite(fw, k, Filled(base, s, list[j := DiscoverCase(path, c, stamp)]))))
  {
    var path := Join(root, s.name);
    var c := s.subdirs[j];
    var cpath := Join(path, c.name);
    var rec := Record(2, cpath, DirNames(c.subdirs), c.files);
    assert SplitLast(cpath) == Some((path, c.name)) && SplitLast(path) == Some((root, s.name)) by {
      JoinSplit(root, s.name);
      JoinSplit(path, c.name);
    }
    CaseSlot(root, s, k, j, fw, base, list, stamp, DiscoverCase(path, c, stamp));
    DetailsStep(fw, rec, stamp, path, root, s.name, c.name, k, j);
    LoadConfigOf(2, rec);
  }

  /** The walk of test case `j` (one record, or none when unlistable) attaches its config. */
  lemma OneCase(root: Path, s: Dir, k: int, j: int, fw: Framework, base: Suite, list: seq<TestCase>, stamp: string)
    requires CaseReady(root, s, k, j, fw, base, list, stamp)
    ensures var path := Join(root, s.name);
      var c := s.subdirs[j];
      BuildTree(Visit(Join(path, c.name), c, 2, 2), Some(fw), stamp) ==
        Success(Some(WithSuite(fw, k, Filled(base, s, list[j := DiscoverCase(path, c, stamp)]))))
  {
    var path := Join(root, s.name);
    var c := s.subdirs[j];
    var cpath := Join(path, c.name);
    if c.listable {
      var rec := Record(2, cpath, DirNames(c.subdirs), c.files);
      assert Visit(cpath, c, 2, 2) == [rec];
      BuildTreeSingle(rec, Some(fw), stamp);
      CaseRecord(root, s, k, j, fw, base, list, stamp);
    } else {
      assert list[j := DiscoverCase(path, c, stamp)] == list;
      assert fw.suites.list[k := fw.suites.list[k]] == fw.suites.list;
    }
  }

  /** The facts about suite `s` that hold throughout its test case loop. */
  predicate SuiteReady(root: Path, s: Dir, k: int, fw: Framework) {
    && IsStripped(root) && IsName(s.name) && s.listable && Distinct(DirNames(s.subdirs))
    && (forall i :: 0 <= i < |s.subdirs| ==> IsName(s.subdirs[i].name) && WellFormedCase(s.subdirs[i]))
    && ValidFramework(fw) && s.name in fw.suites.index && fw.suites.index[s.name] == k && 0 <= k < |fw.suites.list|
  }

  /** The framework before test case `j` of suite `s` (registered at position `k` of `fw`):
      the suite there is `base` filled with the test cases as far as visited. */
  function StateAt(fw: Framework, k: int, base: Suite, root: Path, s: Dir, j: int, stamp: string): Framework
    requires 0 <= k < |fw.suites.list|
  {
    WithSuite(fw, k, Filled(base, s, CasesAt(root, s, j, stamp)))
  }

  lemma StateValid(fw: Framework, k: int, base: Suite, root: Path, s: Dir, j: int, stamp: string)
    requires SuiteReady(root, s, k, fw)
    ensures ValidFramework(StateAt(fw, k, base, root, s, j, stamp))
  {
    PositionsValid(CasesAt(root, s, j, stamp), DirNames(s.subdirs));
    WithSuiteValid(fw, k, Filled(base, s, CasesAt(root, s, j, stamp)));
  }

  /** Visiting test case `j` moves the loop one test case on. */
  lemma CaseAdvance(root: Path, s: Dir, k: int, j: int, fw: Framework, base: Suite, stamp: string)
    requires SuiteReady(root, s, k, fw) && 0 <= j < |s.subdirs|
    ensures ValidFramework(StateAt(fw, k, base, root, s, j, stamp)) && ValidFramework(StateAt(fw, k, base, root, s, j + 1, stamp))
    ensures var path := Join(root, s.name);
      BuildTree(VisitChildren(path, s.subdirs[j..], 2, 2), Some(StateAt(fw, k, base, root, s, j, stamp)), stamp) ==
        BuildTree(VisitChildren(path, s.subdirs[j + 1..], 2, 2), Some(StateAt(fw, k, base, root, s, j + 1, stamp)), stamp)
  {
    var path := Join(root, s.name);
    var c := s.subdirs[j];
    var list := CasesAt(root, s, j, stamp);
    var fwj := StateAt(fw, k, base, root, s, j, stamp);
    StateValid(fw, k, base, root, s, j, stamp);
    StateValid(fw, k, base, root, s, j + 1, stamp);
    CasesAtStep(root, s, j, stamp);
    assert CaseReady(root, s, k, j, fwj, base, list, stamp);
    OneCase(root, s, k, j, fwj, base, list, stamp);
    WithSuiteTwice(fw, k, Filled(base, s, list), Filled(base, s, CasesAt(root, s, j + 1, stamp)));
    VisitChildrenSplit(path, s.subdirs, j, 2, 2);
    BuildTreeAppend(Visit(Join(path, c.name), c, 2, 2), VisitChildren(path, s.subdirs[j + 1..], 2, 2), Some(fwj), stamp);
  }

  /** The depth-2 records of a suite's test cases from `j` on complete that suite. */
  lemma {:induction false} CasesLoop(root: Path, s: Dir, k: int, j: int, fw: Framework, base: Suite, stamp: string)
    requires SuiteReady(root, s, k, fw) && 0 <= j <= |s.subdirs|
    ensures ValidFramework(StateAt(fw, k, base, root, s, j, stamp))
    ensures BuildTree(VisitChildren(Join(root, s.name), s.subdirs[j..], 2, 2), Some(StateAt(fw, k, base, root, s, j, stamp)), stamp) ==
      Success(Some(StateAt(fw, k, base, root, s, |s.subdirs|, stamp)))
    decreases |s.subdirs| - j
  {
    if j == |s.subdirs| {
      StateValid(fw, k, base, root, s, j, stamp);
      assert s.subdirs[j..] == [];
    } else {
      CaseAdvance(root, s, k, j, fw, base, stamp);
      CasesLoop(root, s, k, j + 1, fw, base, stamp);
    }
  }

  /** Registering a suite directory's fresh test cases fills its suite in name order. */
  lemma FreshCases(root: Path, s: Dir, stamp: string)
    requires s.listable
    ensures var path := Join(root, s.name);
      var list := NewTestCases(path, DirNames(s.subdirs), stamp);
      && AddCases(SuiteBase(root, s), path, DirNames(s.subdirs), stamp) == Filled(SuiteBase(root, s), s, list)
      && Valid(Filled(SuiteBase(root, s), s, list).cases)
  {
    var path := Join(root, s.name);
    var names := DirNames(s.subdirs);
    var list := NewTestCases(path, names, stamp);
    NewTestCaseNames(path, names, stamp);
    AddTestCasesIndex(SuiteBase(root, s), [], list);
    assert [] + names == names;
    assert [] + list == list;
    PositionsValid(list, names);
  }

  /** The depth-1 record of a suite attaches its config and registers its test cases. */
  lemma SuiteHead(root: Path, s: Dir, k: int, fw: Framework, stamp: string)
    requires IsStripped(root) && IsName(s.name) && s.listable && Readable(s.files, 1)
    requires ValidFramework(fw) && fw.outputSubdir == stamp && s.name in fw.suites.index && fw.suites.index[s.name] == k
    requires fw.suites.list[k] == NewSuite(root, s.name)
    ensures var path := Join(root, s.name);
      ProcessRecord(Some(fw), Record(1, path, DirNames(s.subdirs), s.files), stamp) ==
        Success(Some(WithSuite(fw, k, Filled(SuiteBase(root, s), s, NewTestCases(path, DirNames(s.subdirs), stamp)))))
  {
    var path := Join(root, s.name);
    var rec := Record(1, path, DirNames(s.subdirs), s.files);
    JoinSplit(root, s.name);
    SuiteStep(fw, rec, stamp, root, s.name, k);
    LoadConfigOf(1, rec);
    FreshCases(root, s, stamp);
  }

  /** Entering a listable suite directory: its own record, then its test cases' records. */
  lemma SuiteEnter(root: Path, s: Dir, k: int, fw: Framework, stamp: string)
    requires IsStripped(root) && IsName(s.name) && s.listable && Readable(s.files, 1)
    requires ValidFramework(fw) && fw.outputSubdir == stamp && s.name in fw.suites.index && fw.suites.index[s.name] == k
    requires fw.suites.list[k] == NewSuite(root, s.name)
    ensures var path := Join(root, s.name);
      var fw1 := WithSuite(fw, k, Filled(SuiteBase(root, s), s, NewTestCases(path, DirNames(s.subdirs), stamp)));
      && ValidFramework(fw1)
      && BuildTree(Visit(path, s, 1, 2), Some(fw), stamp) == BuildTree(VisitChildren(path, s.subdirs, 2, 2), Some(fw1), stamp)
  {
    var path := Join(root, s.name);
    var rec := Record(1, path, DirNames(s.subdirs), s.files);
    var rest := VisitChildren(path, s.subdirs, 2, 2);
    FreshCases(root, s, stamp);
    WithSuiteValid(fw, k, Filled(SuiteBase(root, s), s, NewTestCases(path, DirNames(s.subdirs), stamp)));
    assert Visit(path, s, 1, 2) == [rec] + rest;
    SuiteHead(root, s, k, fw, stamp);
    BuildTreeSingle(rec, Some(fw), stamp);
    BuildTreeAppend([rec], rest, Some(fw), stamp);
  }

  /** A well-formed suite directory meets the loop's standing facts. */
  lemma SuiteReadyOf(root: Path, s: Dir, k: int, fw: Framework)
    requires IsStripped(root) && IsName(s.name) && Named(s) && WellFormedSuite(s) && s.listable
    requires ValidFramework(fw) && s.name in fw.suites.index && fw.suites.index[s.name] == k
    ensures SuiteReady(root, s, k, fw)
  {
  }

  /** The records of one suite directory turn its fresh suite into the discovered one. */
  lemma OneSuite(root: Path, s: Dir, k: int, fw: Framework, stamp: string)
    requires IsStripped(root) && IsName(s.name) && Named(s) && WellFormedSuite(s)
    requires ValidFramework(fw) && fw.outputSubdir == stamp && s.name in fw.suites.index && fw.suites.index[s.name] == k
    requires fw.suites.list[k] == NewSuite(root, s.name)
    ensures BuildTree(Visit(Join(root, s.name), s, 1, 2), Some(fw), stamp) ==
      Success(Some(WithSuite(fw, k, DiscoverSuite(root, s, stamp))))
  {
    if s.listable {
      var path := Join(root, s.name);
      var list := NewTestCases(path, DirNames(s.subdirs), stamp);
      var base := SuiteBase(root, s);
      SuiteEnter(root, s, k, fw, stamp);
      SuiteReadyOf(root, s, k, fw);
      CasesAtEnds(root, s, stamp);
      assert s.subdirs[0..] == s.subdirs;
      CasesLoop(root, s, k, 0, fw, base, stamp);
    } else {
      assert WithSuite(fw, k, DiscoverSuite(root, s, stamp)) == fw by {
        assert fw.suites.list[k := fw.suites.list[k]] == fw.suites.list;
      }
    }
  }

  /** The context every step of the suite loop shares. */
  predicate Context(root: Path, subs: seq<Dir>) {
    && IsStripped(root)
    && Distinct(DirNames(subs))
    && forall i :: 0 <= i < |subs| ==> IsName(subs[i].name) && Named(subs[i]) && WellFormedSuite(subs[i])
  }

  /** The suites while those from `k` on are still to be visited. */
  predicate SuitesPending(root: Path, subs: seq<Dir>, list: seq<Suite>, k: int, stamp: string) {
    && |list| == |subs| && 0 <= k <= |subs|
    && (forall i :: 0 <= i < k ==> list[i] == DiscoverSuite(root, subs[i], stamp))
    && (forall i :: k <= i < |subs| ==> list[i] == NewSuite(root, subs[i].name))
  }

  /** The framework state while the suites from `k` on are still to be visited. */
  predicate SuitesReady(root: Path, subs: seq<Dir>, k: int, fw: Framework, stamp: string) {
    && Context(root, subs)
    && ValidFramework(fw) && fw.outputSubdir == stamp && fw.suites.index == Positions(DirNames(subs))
    && SuitesPending(root, subs, fw.suites.list, k, stamp)
  }

  /** A discovered suite's test case registry is valid. */
  lemma DiscoverSuiteValid(root: Path, s: Dir, stamp: string)
    ensures Valid(DiscoverSuite(root, s, stamp).cases)
  {
    if s.listable {
      PositionsValid(DiscoverCases(Join(root, s.name), s.subdirs, stamp), DirNames(s.subdirs));
    }
  }

  /** Putting suite `k`'s discovered suite in place moves the pending mark one on. */
  lemma PendingStep(root: Path, subs: seq<Dir>, list: seq<Suite>, k: int, stamp: string)
    requires SuitesPending(root, subs, list, k, stamp) && k < |subs|
    ensures SuitesPending(root, subs, list[k := DiscoverSuite(root, subs[k], stamp)], k + 1, stamp)
  {
  }

  /** Completing suite `k` keeps the loop's state, one suite on. */
  lemma SuitesNext(root: Path, subs: seq<Dir>, k: int, fw: Framework, stamp: string)
    requires SuitesReady(root, subs, k, fw, stamp) && k < |subs|
    ensures subs[k].name in fw.suites.index && fw.suites.index[subs[k].name] == k
    ensures SuitesReady(root, subs, k + 1, WithSuite(fw, k, DiscoverSuite(root, subs[k], stamp)), stamp)
  {
    var d := DiscoverSuite(root, subs[k], stamp);
    PositionsOfDistinct(DirNames(subs), k);
    DiscoverSuiteValid(root, subs[k], stamp);
    WithSuiteValid(fw, k, d);
    PendingStep(root, subs, fw.suites.list, k, stamp);
  }

  /** Visiting suite `k` moves the loop one suite on. */
  lemma SuiteAdvance(root: Path, subs: seq<Dir>, k: int, fw: Framework, stamp: string)
    requires SuitesReady(root, subs, k, fw, stamp) && k < |subs|
    ensures SuitesReady(root, subs, k + 1, WithSuite(fw, k, DiscoverSuite(root, subs[k], stamp)), stamp)
    ensures BuildTree(VisitChildren(root, subs[k..], 1, 2), Some(fw), stamp) ==
      BuildTree(VisitChildren(root, subs[k + 1..], 1, 2), Some(WithSuite(fw, k, DiscoverSuite(root, subs[k], stamp))), stamp)
  {
    var s := subs[k];
    SuitesNext(root, subs, k, fw, stamp);
    OneSuite(root, s, k, fw, stamp);
    VisitChildrenSplit(root, subs, k, 1, 2);
    BuildTreeAppend(Visit(Join(root, s.name), s, 1, 2), VisitChildren(root, subs[k + 1..], 1, 2), Some(fw), stamp);
  }

  /** The records of suites from `k` on complete the framework's suites. */
  lemma {:induction false} SuitesLoop(root: Path, subs: seq<Dir>, k: int, fw: Framework, stamp: string)
    requires SuitesReady(root, subs, k, fw, stamp)
    ensures BuildTree(VisitChildren(root, subs[k..], 1, 2), Some(fw), stamp) ==
      Success(Some(fw.(suites := Registry(DiscoverSuites(root, subs, stamp), Positions(DirNames(subs))))))
    decreases |subs| - k
  {
    if k == |subs| {
      assert subs[k..] == [];
      assert fw.suites.list == DiscoverSuites(root, subs, stamp);
    } else {
      var fw' := WithSuite(fw, k, DiscoverSuite(root, subs[k], stamp));
      SuiteAdvance(root, subs, k, fw, stamp);
      SuitesLoop(root, subs, k + 1, fw', stamp);
    }
  }

  /** The depth-0 record creates the framework with its config, its variables and one fresh
      suite per subdirectory. */
  lemma RootRecord(root: Path, tree: Dir, stamp: string)
    requires WellFormed(tree)
    ensures var fw := Discover(root, tree, stamp);
      var subs := tree.subdirs;
      ProcessRecord(None, Record(0, root, DirNames(subs), tree.files), stamp) ==
        Success(Some(fw.(suites := Registry(NewSuites(root, DirNames(subs)), Positions(DirNames(subs))))))
  {
    var names := DirNames(tree.subdirs);
    var rec := Record(0, root, names, tree.files);
    var (file, doc) := ConfigOf(tree.files, 0);
    LoadConfigOf(0, rec);
    var configured := NewFramework(root, stamp).(configFile := file, configData := doc, vars := if file.Some? then Expected(doc) else map[]);
    assert configured.suites == Registry([], Positions([]));
    AddSuitesIndex(configured, root, [], names);
    assert [] + names == names;
  }

  /** The framework the depth-0 record leaves: the discovered one with fresh suites. */
  function RootState(root: Path, tree: Dir, stamp: string): Framework {
    var names := DirNames(tree.subdirs);
    Discover(root, tree, stamp).(suites := Registry(NewSuites(root, names), Positions(names)))
  }

  /** The walk from a listable root: the root's record, then its suites' walks. */
  lemma WalkStart(root: Path, tree: Dir)
    requires IsStripped(root) && Named(tree) && tree.listable
    ensures WalkFrom(root, tree, CountSep(root), 2) ==
      [Record(0, root, DirNames(tree.subdirs), tree.files)] + VisitChildren(root, tree.subdirs, 1, 2)
  {
    WalkIsVisit(root, tree, CountSep(root), 2);
    VisitListable(root, tree, CountSep(root) - CountSep(root), 2);
  }

  /** The walk starts with the root's record, which leaves the framework with fresh suites. */
  lemma RootEnter(root: Path, tree: Dir, stamp: string)
    requires IsStripped(root) && WellFormed(tree)
    ensures ValidFramework(RootState(root, tree, stamp))
    ensures BuildTree(WalkFrom(root, tree, CountSep(root), 2), None, stamp) ==
      BuildTree(VisitChildren(root, tree.subdirs, 1, 2), Some(RootState(root, tree, stamp)), stamp)
  {
    var names := DirNames(tree.subdirs);
    var rec := Record(0, root, names, tree.files);
    var rest := VisitChildren(root, tree.subdirs, 1, 2);
    PositionsValid(NewSuites(root, names), names);
    WalkStart(root, tree);
    RootRecord(root, tree, stamp);
    BuildTreeSingle(rec, None, stamp);
    BuildTreeAppend([rec], rest, None, stamp);
  }

  /** After the root's record no suite has been visited yet. */
  lemma RootReady(root: Path, tree: Dir, stamp: string)
    requires IsStripped(root) && WellFormed(tree) && ValidFramework(RootState(root, tree, stamp))
    ensures SuitesReady(root, tree.subdirs, 0, RootState(root, tree, stamp), stamp)
  {
  }

  /** For a well-formed tree, `main`'s walk and depth dispatch build exactly the reference
      tree: every suite and test case directory registered under its name, in listing order,
      with its config attached, and the variables resolved from the framework config. */
  lemma DiscoverTree(root: Path, tree: Dir, stamp: string)
    requires IsStripped(root) && WellFormed(tree)
    ensures BuildTree(WalkFrom(root, tree, CountSep(root), 2), None, stamp) == Success(Some(Discover(root, tree, stamp)))
  {
    var subs := tree.subdirs;
    var fw0 := RootState(root, tree, stamp);
    RootEnter(root, tree, stamp);
    RootReady(root, tree, stamp);
    assert subs[0..] == subs;
    SuitesLoop(root, subs, 0, fw0, stamp);
  }
}
