/**
  Per-level config discovery (`get_config_file`) and loading (`read_config_file`).
*/
module ConfigFiles {
  import opened Results
  import opened PyJson
  import opened Walk

  /** The file each level looks for: depth 0 is the framework, 1 a suite, 2 a test case. */
  const ConfigNames: seq<string> := ["framework_conf.json", "suite_conf.json", "test_conf.json"]

  /** `get_config_file(depth, files)`: the level's file name if the listing holds it. */
  function GetConfigFile(depth: int, files: seq<string>): (r: Option<string>)
    requires 0 <= depth < |ConfigNames|
    ensures r.Some? <==> ConfigNames[depth] in files
    ensures r.Some? ==> r.value == ConfigNames[depth] && r.value in files
  {
    if ConfigNames[depth] in files then Some(ConfigNames[depth]) else None
  }

  /** `files[i]` is the first file called `name`, the one opening `name` finds. */
  predicate FirstNamed(files: seq<File>, name: string, i: int) {
    0 <= i < |files| && files[i].name == name && forall j :: 0 <= j < i ==> files[j].name != name
  }

  /** The position of the first file called `name`, if any. */
  function FirstNamedIndex(files: seq<File>, name: string): (r: Option<nat>)
    ensures r.None? <==> forall i :: 0 <= i < |files| ==> files[i].name != name
    ensures r.Some? ==> FirstNamed(files, name, r.value)
  {
    if files == [] then None
    else if files[0].name == name then Some(0)
    else
      match FirstNamedIndex(files[1..], name)
      case None => None
      case Some(i) => Some(i + 1)
  }

  /** What opening `name` in the directory finds: the first file of that name. */
  function FindFile(files: seq<File>, name: string): (r: Option<Content>)
    ensures r.None? <==> forall i :: 0 <= i < |files| ==> files[i].name != name
    ensures r.Some? ==> exists i :: FirstNamed(files, name, i) && files[i].content == r.value
  {
    match FirstNamedIndex(files, name)
    case None => None
    case Some(i) => Some(files[i].content)
  }

  /** `read_config_file(path, json_file)` against the directory's own file list: the parsed
      document, or `sys.exit(1)` when the file is missing, cannot be opened or does not parse. */
  function ReadConfigFile(files: seq<File>, name: string): (r: Result<Json, Halt>)
    ensures r.Failure? ==> r.error == Exit(1)
    ensures r.Success? ==> exists i :: FirstNamed(files, name, i) && files[i].content == Parsed(r.value)
    ensures (exists i :: FirstNamed(files, name, i) && files[i].content.Parsed?) ==> r.Success?
  {
    match FindFile(files, name)
    case Some(Parsed(doc)) => Success(doc)
    case _ => Failure(Exit(1))
  }
}
