/**
  Variable resolution (`TestFramework.set_config_data`) and whole-argument
  token substitution (`TestFramework.substitute_config_variables`).
*/
module Variables {
  import opened Results
  import opened PyJson

  /** The four recognised tokens, each with the field path it is read from in the
      top-level document. */
  const Sources: map<string, seq<string>> := map[
    "$USERNAME" := ["credentials", "username"],
    "$PASSWORD" := ["credentials", "password"],
    "$TARGET_SYSTEM" := ["target_system"],
    "$HTTPS" := ["https"]]

  /** Follows a field path through nested objects; None as soon as a step is not an
      object holding the next field. */
  function Lookup(doc: Json, path: seq<string>): Option<Json>
    decreases |path|
  {
    if path == [] then Some(doc)
    else if doc.JObject? && path[0] in doc.fields then Lookup(doc.fields[path[0]], path[1..])
    else None
  }

  /** What the variables should be: each token whose field is present, bound to that field. */
  function Expected(doc: Json): map<string, Json> {
    map t | t in Sources && Lookup(doc, Sources[t]).Some? :: Lookup(doc, Sources[t]).value
  }

  /** A top-level document of the shape `set_config_data` reads: a dict whose `credentials`,
      when present, is a dict too, so that neither `in` test raises. */
  predicate ConformingFrameworkConfig(doc: Json) {
    doc.JObject? && ("credentials" in doc.fields ==> doc.fields["credentials"].JObject?)
  }

  /** `vars` with `token` bound to the value found, if one was found. */
  function Bind(vars: map<string, Json>, token: string, found: Option<Json>): map<string, Json> {
    if found.Some? then vars[token := found.value] else vars
  }

  /** `if field in c: vars[token] = c[field]`. */
  function BindIfPresent(c: Json, field: string, token: string, vars: map<string, Json>): (r: Result<map<string, Json>, Fault>)
    ensures c.JObject? ==> r.Success?
    ensures r.Success? ==> r.value == Bind(vars, token, Lookup(c, [field]))
  {
    var present :- In(field, c);
    if present then
      var v :- GetItem(c, field);
      Success(vars[token := v])
    else Success(vars)
  }

  /** The four bindings in the order `set_config_data` makes them. */
  function Resolved(doc: Json): map<string, Json> {
    var v0 := Bind(map[], "$USERNAME", Lookup(doc, ["credentials", "username"]));
    var v1 := Bind(v0, "$PASSWORD", Lookup(doc, ["credentials", "password"]));
    var v2 := Bind(v1, "$TARGET_SYSTEM", Lookup(doc, ["target_system"]));
    Bind(v2, "$HTTPS", Lookup(doc, ["https"]))
  }

  /** Making the four bindings one by one yields the expected variables. */
  lemma ResolvedIsExpected(doc: Json)
    ensures Resolved(doc) == Expected(doc)
  {
    assert Sources["$USERNAME"] == ["credentials", "username"];
    assert Sources["$PASSWORD"] == ["credentials", "password"];
    assert Sources["$TARGET_SYSTEM"] == ["target_system"];
    assert Sources["$HTTPS"] == ["https"];
    ExpectedUnique(doc, Resolved(doc));
  }

  /** A field path of two steps is the second step looked up in the first step's value. */
  lemma LookupTwo(doc: Json, outer: string, inner: string)
    ensures Lookup(doc, [outer, inner]) ==
      if doc.JObject? && outer in doc.fields then Lookup(doc.fields[outer], [inner]) else None
  {
    assert [outer, inner][1..] == [inner];
  }

  /** `TestFramework.set_config_data`: the variables resolved from the top-level document,
      starting from the empty dict the constructor leaves. */
  function SetConfigData(doc: Json): (r: Result<map<string, Json>, Fault>)
    ensures r.Success? ==> r.value == Expected(doc)
    ensures r.Success? ==> r.value.Keys <= Sources.Keys
    ensures ConformingFrameworkConfig(doc) ==> r.Success?
    ensures doc.JNull? || doc.JBool? || doc.JNumber? ==> r.Failure?
  {
    var hasCredentials :- In("credentials", doc);
    var v1 :-
      if hasCredentials then
        var credentials :- GetItem(doc, "credentials");
        var v0 :- BindIfPresent(credentials, "username", "$USERNAME", map[]);
        BindIfPresent(credentials, "password", "$PASSWORD", v0)
      else Success(map[]);
    var v2 :- BindIfPresent(doc, "target_system", "$TARGET_SYSTEM", v1);
    var v3 :- BindIfPresent(doc, "https", "$HTTPS", v2);
    LookupTwo(doc, "credentials", "username");
    LookupTwo(doc, "credentials", "password");
    ResolvedIsExpected(doc);
    Success(v3)
  }

  /** A map binding every token exactly as its field path resolves is the expected one. */
  lemma ExpectedUnique(doc: Json, vars: map<string, Json>)
    requires vars.Keys <= Sources.Keys
    requires forall t :: t in Sources ==> Lookup(doc, Sources[t]) == (if t in vars then Some(vars[t]) else None)
    ensures vars == Expected(doc)
  {
  }

  /** A value the substitution pass replaces: a whole argument equal to a bound token. */
  predicate IsBoundToken(vars: map<string, Json>, arg: Json) {
    arg.JString? && arg.s in vars
  }

  /** The inner loop over one `args` list: an element equal to a token is replaced by the
      token's value, every other element stays, and an unhashable element (a list or a
      dict) makes the dict lookup raise. */
  function SubstituteArgs(vars: map<string, Json>, args: seq<Json>): (r: Result<seq<Json>, Fault>)
    ensures r.Success? <==> forall i :: 0 <= i < |args| ==> Hashable(args[i])
    ensures r.Success? ==> |r.value| == |args|
    ensures r.Success? ==> forall i :: 0 <= i < |args| && IsBoundToken(vars, args[i]) ==> r.value[i] == vars[args[i].s]
    ensures r.Success? ==> forall i :: 0 <= i < |args| && !IsBoundToken(vars, args[i]) ==> r.value[i] == args[i]
  {
    if args == [] then Success([])
    else if !Hashable(args[0]) then Failure(TypeError)
    else
      var rest :- SubstituteArgs(vars, args[1..]);
      var head := if IsBoundToken(vars, args[0]) then vars[args[0].s] else args[0];
      Success([head] + rest)
  }

  /** One element of `tests`: only the list under `args` is rewritten. A str under `args`
      is iterated character by character and raises only if a character is a token (a str
      cannot be assigned into); a dict under `args` raises once a key matches, because
      the assignment grows the dict being iterated. */
  function SubstituteEntry(vars: map<string, Json>, entry: Json): (r: Result<Json, Fault>)
    ensures entry.JObject? && "args" !in entry.fields ==> r == Success(entry)
    ensures r.Success? && !entry.JObject? ==> r.value == entry
    ensures r.Success? && entry.JObject? ==>
      && r.value.JObject?
      && r.value.fields.Keys == entry.fields.Keys
      && (forall k :: k in entry.fields && k != "args" ==> r.value.fields[k] == entry.fields[k])
    ensures r.Success? && entry.JObject? && "args" in entry.fields && entry.fields["args"].JArray? ==>
      && r.value.fields["args"].JArray?
      && SubstituteArgs(vars, entry.fields["args"].items) == Success(r.value.fields["args"].items)
    ensures r.Success? && entry.JObject? && "args" in entry.fields && !entry.fields["args"].JArray? ==> r.value == entry
  {
    var hasArgs :- In("args", entry);
    if !hasArgs then Success(entry)
    else
      var args :- GetItem(entry, "args");
      match args
      case JArray(xs) =>
        var ys :- SubstituteArgs(vars, xs);
        Success(JObject(entry.fields["args" := JArray(ys)]))
      case JString(s) =>
        if exists i :: 0 <= i < |s| && [s[i]] in vars then Failure(TypeError) else Success(entry)
      case JObject(m) =>
        if exists k :: k in m && k in vars then Failure(RuntimeError) else Success(entry)
      case _ => Failure(TypeError)
  }

  /** The loop over a `tests` list: every element rewritten in place, stopping at the first raise. */
  function SubstituteEntries(vars: map<string, Json>, entries: seq<Json>): (r: Result<seq<Json>, Fault>)
    ensures r.Success? <==> forall i :: 0 <= i < |entries| ==> SubstituteEntry(vars, entries[i]).Success?
    ensures r.Success? ==> |r.value| == |entries|
    ensures r.Success? ==> forall i :: 0 <= i < |entries| ==> SubstituteEntry(vars, entries[i]) == Success(r.value[i])
  {
    if entries == [] then Success([])
    else
      var head :- SubstituteEntry(vars, entries[0]);
      var rest :- SubstituteEntries(vars, entries[1..]);
      Success([head] + rest)
  }

  /** `TestFramework.substitute_config_variables` on one test-case document. A `tests`
      value that is a str is iterated as characters, none of which holds `args`; a dict
      is iterated as its keys, and a key containing `args` is subscripted as a str. */
  function Substitute(vars: map<string, Json>, cfg: Json): (r: Result<Json, Fault>)
    ensures cfg.JObject? && "tests" !in cfg.fields ==> r == Success(cfg)
    ensures r.Success? && !cfg.JObject? ==> r.value == cfg
    ensures r.Success? && cfg.JObject? ==>
      && r.value.JObject?
      && r.value.fields.Keys == cfg.fields.Keys
      && (forall k :: k in cfg.fields && k != "tests" ==> r.value.fields[k] == cfg.fields[k])
    ensures r.Success? && cfg.JObject? && "tests" in cfg.fields && cfg.fields["tests"].JArray? ==>
      && r.value.fields["tests"].JArray?
      && SubstituteEntries(vars, cfg.fields["tests"].items) == Success(r.value.fields["tests"].items)
    ensures r.Success? && cfg.JObject? && "tests" in cfg.fields && !cfg.fields["tests"].JArray? ==> r.value == cfg
    ensures cfg.JNull? || cfg.JBool? || cfg.JNumber? ==> r.Failure?
    ensures ConformingTestConfig(cfg) ==> r.Success?
  {
    var hasTests :- In("tests", cfg);
    if !hasTests then Success(cfg)
    else
      var tests :- GetItem(cfg, "tests");
      match tests
      case JArray(xs) =>
        var ys :- SubstituteEntries(vars, xs);
        Success(JObject(cfg.fields["tests" := JArray(ys)]))
      case JString(s) =>
        var _ :- SubstituteEntries(vars, Chars(s));
        Success(cfg)
      case JObject(m) =>
        if exists k :: k in m && Contains(k, "args") then Failure(TypeError) else Success(cfg)
      case _ => Failure(TypeError)
  }

  /** A `tests` element of the shape `substitute_config_variables` reads: a dict whose `args`,
      when present, is a list of str. */
  predicate ConformingEntry(entry: Json) {
    && entry.JObject?
    && ("args" in entry.fields ==>
          && entry.fields["args"].JArray?
          && forall i :: 0 <= i < |entry.fields["args"].items| ==> entry.fields["args"].items[i].JString?)
  }

  /** A test-case document of the shape `substitute_config_variables` reads: a dict whose
      `tests`, when present, is a list of conforming elements. */
  predicate ConformingTestConfig(cfg: Json) {
    && cfg.JObject?
    && ("tests" in cfg.fields ==>
          && cfg.fields["tests"].JArray?
          && forall i :: 0 <= i < |cfg.fields["tests"].items| ==> ConformingEntry(cfg.fields["tests"].items[i]))
  }

  /** Values that substitution can put into an argument list without creating work for a
      second pass: hashable, and not themselves a bound token. */
  predicate InertValues(vars: map<string, Json>) {
    forall t :: t in vars ==> Hashable(vars[t]) && !IsBoundToken(vars, vars[t])
  }

  /** After one pass with inert values, no argument equals a bound token any more. */
  lemma NoTokenLeft(vars: map<string, Json>, args: seq<Json>, once: seq<Json>)
    requires InertValues(vars) && SubstituteArgs(vars, args) == Success(once)
    ensures forall i :: 0 <= i < |once| ==> Hashable(once[i]) && !IsBoundToken(vars, once[i])
  {
    forall i | 0 <= i < |once|
      ensures Hashable(once[i]) && !IsBoundToken(vars, once[i])
    {
      if IsBoundToken(vars, args[i]) {
        assert once[i] == vars[args[i].s];
      }
    }
  }

  /** A second pass over an argument list leaves it as the first pass left it. */
  lemma ArgsIdempotent(vars: map<string, Json>, args: seq<Json>, once: seq<Json>)
    requires InertValues(vars) && SubstituteArgs(vars, args) == Success(once)
    ensures SubstituteArgs(vars, once) == Success(once)
  {
    NoTokenLeft(vars, args, once);
  }

  /** A second pass over one `tests` element leaves it as the first pass left it. */
  lemma EntryIdempotent(vars: map<string, Json>, entry: Json, once: Json)
    requires InertValues(vars) && SubstituteEntry(vars, entry) == Success(once)
    ensures SubstituteEntry(vars, once) == Success(once)
  {
    if entry.JObject? && "args" in entry.fields && entry.fields["args"].JArray? {
      ArgsIdempotent(vars, entry.fields["args"].items, once.fields["args"].items);
      assert once.fields["args" := JArray(once.fields["args"].items)] == once.fields;
    }
  }

  /** `substitute_config_variables` is idempotent when the resolved values are inert: a
      second pass over an already substituted document changes nothing and raises nothing. */
  lemma SubstituteIdempotent(vars: map<string, Json>, cfg: Json, once: Json)
    requires InertValues(vars) && Substitute(vars, cfg) == Success(once)
    ensures Substitute(vars, once) == Success(once)
  {
    if cfg.JObject? && "tests" in cfg.fields && cfg.fields["tests"].JArray? {
      var xs := cfg.fields["tests"].items;
      var ys := once.fields["tests"].items;
      forall i | 0 <= i < |ys|
        ensures SubstituteEntry(vars, ys[i]) == Success(ys[i])
      {
        EntryIdempotent(vars, xs[i], ys[i]);
      }
      var zs := SubstituteEntries(vars, ys);
      assert zs.Success? && zs.value == ys;
      assert once.fields["tests" := JArray(ys)] == once.fields;
    }
  }

  /** A framework config naming a user, and a test case passing `$USERNAME` to `echo`: the
      variable is resolved from the credentials and the argument replaced by the name. */
  lemma UsernameScenario()
    ensures var doc := JObject(map["credentials" := JObject(map["username" := JString("alice")])]);
      var entry := JObject(map["program" := JString("echo"), "args" := JArray([JString("$USERNAME")])]);
      var cfg := JObject(map["tests" := JArray([entry])]);
      var vars := map["$USERNAME" := JString("alice")];
      && SetConfigData(doc) == Success(vars)
      && Substitute(vars, cfg) ==
        Success(JObject(map["tests" := JArray([JObject(map["program" := JString("echo"), "args" := JArray([JString("alice")])])])]))
  {
    var credentials := JObject(map["username" := JString("alice")]);
    var doc := JObject(map["credentials" := credentials]);
    var vars := map["$USERNAME" := JString("alice")];
    assert Lookup(doc, ["credentials", "username"]) == Some(JString("alice")) by {
      LookupTwo(doc, "credentials", "username");
      assert ["username"][1..] == [];
    }
    assert Lookup(doc, ["credentials", "password"]) == None by {
      LookupTwo(doc, "credentials", "password");
    }
    assert Lookup(doc, ["target_system"]) == None;
    assert Lookup(doc, ["https"]) == None;
    ExpectedUnique(doc, vars);
    var entry := JObject(map["program" := JString("echo"), "args" := JArray([JString("$USERNAME")])]);
    var entry' := JObject(map["program" := JString("echo"), "args" := JArray([JString("alice")])]);
    var rest := map["program" := JString("echo")];
    assert entry.fields == rest["args" := JArray([JString("$USERNAME")])];
    assert entry'.fields == rest["args" := JArray([JString("alice")])];
    SubstituteToken(vars, "$USERNAME");
    SubstituteOne(vars, entry, entry', [JString("$USERNAME")], [JString("alice")], rest);
  }

  /** A one-element argument list holding a bound token becomes that token's value. */
  lemma SubstituteToken(vars: map<string, Json>, token: string)
    requires token in vars
    ensures SubstituteArgs(vars, [JString(token)]) == Success([vars[token]])
  {
    var r := SubstituteArgs(vars, [JString(token)]);
    assert Hashable([JString(token)][0]);
    assert IsBoundToken(vars, [JString(token)][0]);
    assert r.Success? && |r.value| == 1 && r.value[0] == vars[token];
    assert r.value == [vars[token]];
  }

  /** Substitution over a `tests` list of one element whose only other field is kept. */
  lemma SubstituteOne(vars: map<string, Json>, entry: Json, entry': Json, args: seq<Json>, args': seq<Json>, rest: map<string, Json>)
    requires "args" !in rest
    requires entry == JObject(rest["args" := JArray(args)]) && entry' == JObject(rest["args" := JArray(args')])
    requires SubstituteArgs(vars, args) == Success(args')
    ensures Substitute(vars, JObject(map["tests" := JArray([entry])])) == Success(JObject(map["tests" := JArray([entry'])]))
  {
    assert "args" in entry.fields && entry.fields["args"] == JArray(args);
    assert In("args", entry) == Success(true);
    assert GetItem(entry, "args") == Success(JArray(args));
    assert entry.fields["args" := JArray(args')] == entry'.fields;
    assert SubstituteEntry(vars, entry) == Success(entry');
    assert SubstituteEntries(vars, [entry]) == Success([entry']) by {
      var r := SubstituteEntries(vars, [entry]);
      assert SubstituteEntry(vars, [entry][0]) == Success(entry');
      assert r.Success? && |r.value| == 1 && SubstituteEntry(vars, [entry][0]) == Success(r.value[0]);
      assert r.value == [entry'];
    }
    assert map["tests" := JArray([entry])]["tests" := JArray([entry'])] == map["tests" := JArray([entry'])];
  }

  /** Without inert values a second pass can raise: a token bound to a list puts that list
      into the arguments, and the next pass cannot look a list up in the variables. */
  lemma SecondPassCanRaise()
    ensures var vars := map["$X" := JArray([])];
      var cfg := JObject(map["tests" := JArray([JObject(map["args" := JArray([JString("$X")])])])]);
      var once := JObject(map["tests" := JArray([JObject(map["args" := JArray([JArray([])])])])]);
      && Substitute(vars, cfg) == Success(once)
      && Substitute(vars, once) == Failure(TypeError)
  {
    var vars := map["$X" := JArray([])];
    var none: map<string, Json> := map[];
    SubstituteToken(vars, "$X");
    assert none["args" := JArray([JString("$X")])] == map["args" := JArray([JString("$X")])];
    assert none["args" := JArray([JArray([])])] == map["args" := JArray([JArray([])])];
    SubstituteOne(vars, JObject(map["args" := JArray([JString("$X")])]), JObject(map["args" := JArray([JArray([])])]),
      [JString("$X")], [JArray([])], none);
    var once := JObject(map["args" := JArray([JArray([])])]);
    assert SubstituteArgs(vars, [JArray([])]) == Failure(TypeError);
    assert SubstituteEntry(vars, once) == Failure(TypeError);
    assert SubstituteEntries(vars, [once]) == Failure(TypeError);
  }
}
