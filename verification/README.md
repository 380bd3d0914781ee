# test-framework-prototype: a Dafny model of `test_framework.py`

This project models the core of the prototype test runner `test_framework.py`. The runner:

- walks the current directory two levels deep;
- builds a three-level entity tree: the framework, one suite per subdirectory, and one test case per sub-subdirectory;
- attaches the optional per-level JSON config (`framework_conf.json`, `suite_conf.json`, `test_conf.json`);
- resolves four variables (`$USERNAME`, `$PASSWORD`, `$TARGET_SYSTEM`, `$HTTPS`) from the framework config;
- for every test case that has a config, replaces whole-argument tokens in its `tests[*].args` lists and runs `[program] + args` for each entry.

Everything is written as pure functions over immutable values:

- Python's mutable objects become datatypes. A container's parallel `list` + `dict` of children becomes a `Registry` that holds a list plus, for each name, the position of the child.
- An exception nobody catches becomes `Halt.Crash(fault)`. `sys.exit(1)` and `exit(1)` become `Halt.Exit(1)`.
- The file system is a `Dir` tree. Each directory has a `listable` flag (`os.walk` silently skips a directory it cannot list). Each file carries what opening and parsing it yields.
- Four things become parameters:
  - the operating system's answers for one test case (`chdir`, `mkdir`, the two `open` calls);
  - how each spawned process ends;
  - the run-wide output directory name, which the source formats from the UTC clock;
  - the current working directory.

Modules, leaves first:

| module | file | models |
|---|---|---|
| `Results` | results.dfy | `Option`, `Result` |
| `PyJson` | pyjson.dfy | parsed JSON values; Python's `in`, `[]`, list `+` and hashability on them |
| `Paths` | paths.dfy | `os.path.join`, `rstrip`, `count`, `rsplit` on POSIX paths |
| `Registries` | registry.dfy | the list + dict pair each container keeps |
| `Entities` | entities.dfy | `TestFramework`, `TestSuite`, `TestCase` and their add/get methods |
| `Executor` | executor.dfy | `TestCase.run` |
| `Walk` | walk.dfy | `walk_depth` over `os.walk`, plus a reference traversal with an explicit level |
| `ConfigFiles` | configs.dfy | `get_config_file`, `read_config_file` |
| `Variables` | variables.dfy | `set_config_data`, `substitute_config_variables` |
| `Builder` | builder.dfy | `add_test_suites`, `add_test_cases_to_suite`, `add_details_to_test_case`, the depth dispatch of `main` |
| `Discovery` | discovery.dfy | a reference entity tree computed directly from the directory tree, and the theorem that the walk plus dispatch builds it |
| `Driver` | driver.dfy | the execution loops of `main` |

The main results:

- **Discovery.** `Discovery.DiscoverTree` and `Driver.MainRunsDiscovered`: for a well-formed directory tree, `main` registers every suite and test case directory under its name, in listing order, with its config attached. It then runs exactly those test cases in that order.
- **Substitution.** `Variables.Substitute` replaces exact whole-argument matches only and keeps every position. With inert values it is idempotent (`Variables.SubstituteIdempotent`).
- **Walk.** `walk_depth` reports the root at depth 0 whether or not the path has trailing separators. Its records form a depth-first enumeration that never goes deeper than `max(0, max_depth)`.
- **Run.** `run`'s early exits come in source order. It starts no process without a `tests` list. It starts `[program] + args` for each launchable entry, in order. A failed spawn never stops the entries after it.

## Model

| member | source | states |
|---|---|---|
| `PyJson.In` | test_framework.py:42 | `key in c` succeeds exactly on dict, list and str. On a dict it is key membership, on a list it is equality with some element, and on a str it is true exactly when `key` occurs at some position. Anything else raises TypeError. |
| `PyJson.GetItem` | test_framework.py:43 | `c[key]` succeeds exactly on a dict holding `key` and returns that field; a dict without it raises KeyError |
| `PyJson.Prepend` | test_framework.py:173 | `[program] + args` succeeds exactly when `args` is a list, and yields `program` followed by the list's items |
| `Paths.RStrip` | test_framework.py:206 | the result is a prefix of the input, does not end in a separator, and only separators were removed |
| `Paths.RStripTrailing` | test_framework.py:206 | appending any number of separators does not change the stripped path |
| `Paths.Join` | test_framework.py:74 | joining a stripped directory and an entry name puts exactly one separator between them and gives a stripped path |
| `Paths.SplitLast` | test_framework.py:263 | `rsplit(sep, 1)` unpacks exactly when the path holds a separator; the parts rejoin to the path and the last part holds no separator |
| `Paths.JoinSplit` | test_framework.py:252 | splitting a joined path at its last separator gives back the parent and the entry name |
| `Paths.JoinCount` | test_framework.py:208-211 | joining a name adds exactly one separator, so separator counting yields the tree level |
| `Registries.Get` | test_framework.py:58-62 | a lookup finds a child exactly for a registered name, and the child is in the list |
| `Registries.Add` | test_framework.py:53-56 | appending registers the child last in the list and under its name, keeps the registry valid and changes no other name's lookup |
| `Registries.Update` | test_framework.py:258-259 | mutating a registered child changes the child seen under that name, at that list position only, and no other lookup |
| `Registries.PositionsSpec` | test_framework.py:53-56 | after a sequence of registrations every name is indexed, at a position holding that name, and no later position holds it (the last registration wins) |
| `Registries.UpdatePositions` | test_framework.py:104-108 | with distinct names, the child registered `j`-th is found at position `j` and replacing it replaces list element `j` |
| `Entities.NewFramework` | test_framework.py:10-17 | a new framework has no suites, no variables, no config, and the given path and output directory name |
| `Entities.NewSuite` | test_framework.py:73-79 | a new suite is named after its directory, is empty, has no config, and its path splits back into parent and name |
| `Entities.NewTestCase` | test_framework.py:116-121 | a new test case is named after its directory, has no config, and its output directory is `parent/name/stamp` |
| `Entities.AddSuite` | test_framework.py:53-56 | `add_suite` appends to `get_suites`, makes `get_suite(name)` return the suite, and leaves other names, the path, the variables, the config file and data and the output directory name alone |
| `Entities.GetSuite` | test_framework.py:58-62 | `get_suite` returns a suite exactly for a registered name, None otherwise |
| `Entities.AddTestCase` | test_framework.py:99-102 | `add_test_case` appends to `get_test_cases`, makes `get_test_case(name)` return it, and leaves the suite's other fields alone |
| `Entities.GetTestCase` | test_framework.py:104-108 | `get_test_case` returns a test case exactly for a registered name, None otherwise |
| `Executor.LaunchArgv` | test_framework.py:172-173 | when the entry test does not raise, it yields `[program] + args` for an entry with both keys and nothing otherwise; a dict entry whose `args` is a list never raises here |
| `Executor.RunEntries` | test_framework.py:171-190 | the processes started are the entries' argument vectors in order, each with the spawn oracle's answer; a finished loop started all of them; entries that are well shaped and launch only str never raise |
| `Executor.NonStrArgvRaises` | test_framework.py:173-185 | an entry whose `[program] + args` holds anything but str raises TypeError out of the loop, uncaught, and starts neither its process nor any later one |
| `Executor.RunRejectsBoolArgument` | test_framework.py:169-185 | `{"program": "echo", "args": [true]}` makes `run` raise TypeError with no process started |
| `Executor.RunTests` | test_framework.py:170-171 | a `tests` list is walked element by element; any other `tests` value starts no process |
| `Executor.Run` | test_framework.py:144-196 | chdir, mkdir and opening the capture files fail in that order and each returns before anything runs. With no config or no `tests`, nothing is spawned. A finished run started one process per entry holding both keys. |
| `Executor.RunEntriesIgnoresOutcomes` | test_framework.py:174-187 | which processes are started, and whether the loop ends early, does not depend on how earlier processes ended: a failed spawn never stops later entries |
| `Executor.RunIgnoresSpawnOutcomes` | test_framework.py:144-196 | `run`'s status and argument vectors depend only on the operating-system steps and the config, never on spawn results |
| `Executor.RunLaunchesEveryEntry` | test_framework.py:169-175 | with every operating-system step succeeding and a `tests` list whose elements are dicts with list `args` and only str in what they launch, `run` finishes and starts exactly `[program] + args` per entry holding both keys, the `i`-th getting the `i`-th oracle answer |
| `Walk.WalkIsVisit` | test_framework.py:208-214 | depth by separator counting equals the tree level: the walk is the preorder traversal with an explicit level counter, pruned at the bound |
| `Walk.VisitShape` | test_framework.py:209-214 | one directory's walk is empty exactly when it cannot be listed, starts with that directory's own record, and is a depth-first enumeration below it |
| `Walk.WalkDepth` | test_framework.py:206-214 | `walk_depth` fails, with AssertionError, exactly on a root made only of separators. Otherwise, for properly named entries, it yields the records of the explicit-level reference traversal from level 0, and they form a depth-first enumeration. |
| `Walk.WalkDepthShape` | test_framework.py:206-214 | `walk_depth` fails exactly on a root made only of separators. Otherwise the root comes first at depth 0, no record is deeper than `max(0, max_depth)`, each record is at most one level below the previous one, and there is no descent right after a record at the bound. |
| `Walk.WalkDepthTrailingSeparators` | test_framework.py:206-208 | trailing separators on the directory change nothing in the walk |
| `ConfigFiles.GetConfigFile` | test_framework.py:244-248 | the level's name is returned exactly when the listing holds it |
| `ConfigFiles.FirstNamedIndex` | test_framework.py:229 | the position found is the first file of that name, and none is found exactly when no file has it |
| `ConfigFiles.FindFile` | test_framework.py:229 | opening a name finds nothing exactly when no file of the directory has that name; otherwise it finds the content of the first file so named |
| `ConfigFiles.ReadConfigFile` | test_framework.py:227-241 | the result is the parsed content of the first file of that name; any failure is `sys.exit(1)`; a parsable file always succeeds |
| `Variables.BindIfPresent` | test_framework.py:32-39 | on a dict it never raises, and it binds the token exactly when the field is present |
| `Variables.SetConfigData` | test_framework.py:28-39 | the variables are exactly the four tokens whose field path resolves, bound to those fields. No other key appears. A conforming document never raises; None, bool and numbers raise. |
| `Variables.ResolvedIsExpected` | test_framework.py:30-39 | the four conditional bindings, in source order, give the expected map |
| `Variables.ExpectedUnique` | test_framework.py:28-39 | a map binding exactly the tokens whose field path resolves, to those values, is the expected variables |
| `Variables.SubstituteArgs` | test_framework.py:46-48 | it raises exactly on an unhashable element; otherwise the length is unchanged, an element equal to a bound token becomes that token's value, and every other element stays |
| `Variables.SubstituteEntry` | test_framework.py:45-48 | only the `args` list of a dict entry is rewritten: same keys, every other field kept, and an entry without `args` returned unchanged |
| `Variables.SubstituteEntries` | test_framework.py:44-48 | the loop succeeds exactly when each element's rewrite does, and rewrites element by element in place |
| `Variables.Substitute` | test_framework.py:41-48 | a document without `tests` is unchanged; only `tests` changes, element by element; None, bool and numbers raise; a conforming document never raises |
| `Variables.NoTokenLeft` | test_framework.py:46-48 | after one pass with inert values no argument equals a bound token |
| `Variables.ArgsIdempotent` | test_framework.py:46-48 | a second pass over an argument list is a no-op when the values are inert |
| `Variables.EntryIdempotent` | test_framework.py:45-48 | a second pass over one `tests` element is a no-op when the values are inert |
| `Variables.SubstituteIdempotent` | test_framework.py:41-48 | re-running substitution on an already substituted document changes nothing and raises nothing when the values are inert |
| `Variables.UsernameScenario` | test_framework.py:28-48 | `{"credentials":{"username":"alice"}}` binds only `$USERNAME`, and `["$USERNAME"]` under `echo` becomes `["alice"]` |
| `Variables.SecondPassCanRaise` | test_framework.py:46-48 | a token bound to a list makes a second pass raise TypeError, so idempotence needs hashable values |
| `Builder.LoadConfig` | test_framework.py:276-278 | no config exactly when the level's file is not listed; otherwise the document parsed from the first file of that name; any failure is exit status 1 |
| `Builder.AddSuites` | test_framework.py:281-283 | the suites list grows by one fresh suite per subdirectory, in order, and nothing else changes |
| `Builder.AddSuitesKeeps` | test_framework.py:281-283 | registering suites under other names leaves a lookup unchanged |
| `Builder.AddCases` | test_framework.py:270-272 | the test case list grows by one fresh test case per subdirectory, in order, and the suite's other fields are kept |
| `Builder.PutSuite` | test_framework.py:268-269 | replacing a registered suite changes its lookup only and keeps the suite count and the framework's other fields |
| `Builder.AddTestSuites` | test_framework.py:275-283 | the suites are one fresh suite per subdirectory. With no listed `framework_conf.json` there is no config and there are no variables. Otherwise the config is the parsed file and the variables are the expected ones. |
| `Builder.AddTestCasesToSuite` | test_framework.py:262-272 | a path without a separator raises ValueError before anything else; otherwise a depth-1 record before any depth-0 record raises AttributeError; success keeps the registries valid and the suite count |
| `Builder.AddDetailsToTestCase` | test_framework.py:251-259 | a path with fewer than two separators raises ValueError before anything else; otherwise a depth-2 record before any depth-0 record raises AttributeError; success keeps the registries valid and the suite count |
| `Builder.SuiteRecordEffect` | test_framework.py:262-272 | an unreadable suite config exits with status 1. An unregistered suite survives, unchanged, exactly a record with no config and no subdirectories. A registered suite's record succeeds exactly when its config loads. |
| `Builder.SuiteRecordUpdates` | test_framework.py:262-272 | the named suite gains one fresh test case per subdirectory, in order. It takes the level's parsed config when that file is listed and keeps its old config otherwise. No other suite changes. |
| `Builder.DetailsRecordEffect` | test_framework.py:251-259 | an unregistered suite raises AttributeError before any config is read, and an unreadable config exits with status 1. A record without a listed `test_conf.json` changes nothing. A readable one succeeds exactly when the test case is registered. |
| `Builder.DetailsRecordUpdates` | test_framework.py:251-259 | the named test case takes the level's parsed config and keeps its path and output directory; no other test case or suite changes, and the suite's own config is kept |
| `Builder.ProcessRecord` | test_framework.py:293-304 | a handled record always leaves a valid framework; a depth outside 0..2 is exit status 1 |
| `Builder.BuildTree` | test_framework.py:292-304 | a loop that finishes without a framework had no records |
| `Discovery.LoadConfigOf` | test_framework.py:255-257 | in a readable directory, loading a level's config yields exactly the reference config of that directory |
| `Discovery.AddSuitesIndex` | test_framework.py:281-283 | the suite dict after the loop is the dict of registering the old names and then the subdirectory names |
| `Discovery.AddTestCasesIndex` | test_framework.py:270-272 | the test case dict after the loop is the dict of registering the old names and then the new ones |
| `Discovery.BuildTreeAppend` | test_framework.py:293-304 | the loop over two record lists in a row is the loop over the first, then over the second unless the first halted |
| `Discovery.RootRecord` | test_framework.py:295-297 | the depth-0 record of a well-formed root builds the reference framework's config and variables with one fresh suite per subdirectory |
| `Discovery.SuiteHead` | test_framework.py:298-299 | the depth-1 record of a listable suite attaches the suite's reference config and registers one fresh test case per subdirectory |
| `Discovery.CaseRecord` | test_framework.py:300-301 | the depth-2 record of a listable test case attaches its reference config to that test case only |
| `Discovery.OneCase` | test_framework.py:300-301 | the walk of one test case directory turns its fresh test case into the discovered one |
| `Discovery.CasesLoop` | test_framework.py:298-301 | the depth-2 records of a suite's test cases turn every fresh test case into its discovered one |
| `Discovery.OneSuite` | test_framework.py:298-301 | the records of one suite directory turn its fresh suite into the discovered suite |
| `Discovery.SuitesLoop` | test_framework.py:298-301 | the records below the root turn every fresh suite into its discovered suite |
| `Discovery.DiscoverTree` | test_framework.py:286-304 | for a well-formed tree the walk plus depth dispatch builds exactly the reference framework: suites and test cases in listing order under their names, configs attached, variables resolved |
| `Driver.ExecuteCases` | test_framework.py:313-323 | one event per test case unless the run halts, never more events than test cases, and a halt is always an uncaught exception |
| `Driver.ExecuteCase` | test_framework.py:318-320 | substituting and running one test case raises TypeError when its config is `null`; it never raises for a dict config whose `tests`, if present, is a list of dicts whose `args`, if present, is a list of str; and a config without `tests` is run unchanged |
| `Driver.ExecuteCasesCons` | test_framework.py:314-323 | a list's outcome is its first test case's outcome, then the rest's unless the first halted |
| `Driver.ThenAssoc` | test_framework.py:310-323 | running three parts in sequence does not depend on grouping |
| `Driver.ExecuteCasesEvents` | test_framework.py:313-323 | the `i`-th event is about the `i`-th test case. It is a skip exactly when the case has no config file; otherwise it is the run of its substituted config. |
| `Driver.CaseOutcomeReports` | test_framework.py:315-323 | one test case produces one event about itself, unless it halts the run |
| `Driver.ExecuteCasesAppend` | test_framework.py:310-323 | running two lists in a row is running the first, then the second unless the first halted |
| `Driver.ExecuteSuites` | test_framework.py:309-323 | a halt in the nested loops is always an uncaught exception |
| `Driver.ExecuteSuitesIsFlat` | test_framework.py:309-323 | the nested suite and test case loops equal one loop over all test cases in registration order |
| `Driver.Main` | test_framework.py:286-323 | a working directory made of separators fails the `isdir` assertion; an unlistable root leaves no framework and raises AttributeError |
| `Driver.MainRunsDiscovered` | test_framework.py:286-323 | for a well-formed tree `main` runs exactly the discovered test cases, in listing order, with the variables resolved from the framework config |

## Left out

- Console output (`print`, `display_entry`) is not modelled. It has no effect on behaviour.
- Process execution is an oracle. Capture-file contents, exit codes as printed, and the closing of the two capture files are not modelled. A capture file left open when `open` of `stderr.log` fails, or when an exception escapes the loop, is not modelled either.
- Apart from the TypeError for a non-str argument, `subprocess.call` raising anything other than OSError or ValueError is not modelled. `call` is given no timeout, so the `except subprocess.TimeoutExpired` clause (test_framework.py:183-185) can never fire, and the spawn oracle has no answer for it.
- Symbolic links, `os.walk` error callbacks, and the file-system order of entries are left out. Entries come in the order the `Dir` value lists them.
- The clock is not modelled: the output directory name is a parameter (`stamp`). Two runs in the same second colliding on `mkdir` is covered only as the `mkdirOk` oracle answer.
- JSON numbers are integers. Floats are only carried, never computed with.
- `Builder.AddTestCasesToSuite`: its own contract states only the unpacking and missing-framework errors and that the registries stay valid. Its effect on the tree is stated by `Builder.SuiteRecordEffect` and `Builder.SuiteRecordUpdates`.
- `Builder.AddDetailsToTestCase`: its own contract states only the unpacking and missing-framework errors and that the registries stay valid. Its effect on the tree is stated by `Builder.DetailsRecordEffect` and `Builder.DetailsRecordUpdates`.
- `Driver.ExecuteCases`: its own contract states only event counts and halt kinds. The per-event content is stated by `Driver.ExecuteCasesEvents`.
- `Driver.ExecuteSuites`: its own contract states only halt kinds. That it runs the flattened list of test cases is `Driver.ExecuteSuitesIsFlat`.
- `Driver.Main`: its own contract states only the two start-up failures. The run on a well-formed tree is `Driver.MainRunsDiscovered`.
- `Walk.WalkDepthShape`: the depth bound is `max(0, max_depth)`, not `max_depth`. For a negative `max_depth` the root is still reported at depth 0.
- `Variables.SubstituteIdempotent`: it is stated only for inert values (hashable, and not themselves a bound token), not for every resolved value. A value that is a list or a dict makes the second pass raise, as `Variables.SecondPassCanRaise` shows.
- `Discovery.DiscoverTree`: it is stated only for well-formed trees: distinct sibling names, readable configs, and a framework config whose `credentials`, when present, is a dict (the shape `set_config_data` reads). Other trees halt or attach configs differently, and `main`'s behaviour there is only modelled, not characterised.

## Source behaviour worth noting

- `add_test_cases_to_suite` looks its suite up by the path's last segment (test_framework.py:263). `add_details_to_test_case` uses the second-to-last segment for the suite and the last for the test case (test_framework.py:252).
- `set_config_data` binds four variables: `$USERNAME` and `$PASSWORD` from `credentials`, and `$TARGET_SYSTEM` and `$HTTPS` from the top level (test_framework.py:30-39).
- `run` changes directory, creates the output directory and opens both capture files before it looks at `tests` (test_framework.py:146-169). A config without `tests` still gets an output directory.
- Both capture files are opened with mode `"w"` (test_framework.py:161, 163).
- A missing `framework_conf.json` prints a notice and the run goes on (test_framework.py:307-308).
- `main` decides whether to run a test case from its config file name, not its document (test_framework.py:315). A `test_conf.json` holding `null` is therefore not skipped, and `substitute_config_variables` then raises TypeError at its `in` test (test_framework.py:42).
- `subprocess.call` raises TypeError for an argument vector holding anything but str, such as a number, a bool or a `$HTTPS` bound to a bool. `run` catches only OSError, ValueError and TimeoutExpired (test_framework.py:175-185), so that TypeError ends `main`.
- The path is unpacked before the framework is used (test_framework.py:252-253, 263-264). A path with too few separators raises ValueError even when there is no framework.
