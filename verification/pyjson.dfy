/**
  Parsed JSON documents and the few Python operators the test framework applies
  to them: membership (`key in value`), subscription (`value[key]`), list
  concatenation and hashing. Each operator is total on every JSON value: where
  Python raises, the model answers with the exception's class.
*/
module PyJson {
  import opened Results

  /** A document as `json.load` returns it: None, bool, number, str, list or dict.
      Numbers are only ever carried, never computed with, so integers stand for all of them. */
  datatype Json =
    | JNull
    | JBool(b: bool)
    | JNumber(n: int)
    | JString(s: string)
    | JArray(items: seq<Json>)
    | JObject(fields: map<string, Json>)

  /** The Python exception classes the core can raise without catching them. */
  datatype Fault =
    | TypeError
    | KeyError
    | ValueError
    | AttributeError
    | RuntimeError
    | AssertionError

  /** How a run ends early: `sys.exit(code)`/`exit(code)`, or an exception nobody catches. */
  datatype Halt = Exit(code: int) | Crash(fault: Fault)

  /** `p` is a prefix of `s`. */
  predicate IsPrefix(p: string, s: string) {
    |p| <= |s| && s[..|p|] == p
  }

  /** Python's substring test `sub in s`. */
  predicate Contains(s: string, sub: string)
    decreases |s|
  {
    IsPrefix(sub, s) || (|s| > 0 && Contains(s[1..], sub))
  }

  /** A substring is never longer than the string holding it. */
  lemma {:induction false} ContainsLength(s: string, sub: string)
    requires Contains(s, sub)
    ensures |sub| <= |s|
    decreases |s|
  {
    if !IsPrefix(sub, s) {
      ContainsLength(s[1..], sub);
    }
  }

  /** `sub` occurs in `s` starting at position `i`. */
  predicate OccursAt(s: string, sub: string, i: int) {
    0 <= i && i + |sub| <= |s| && s[i..i + |sub|] == sub
  }

  /** The substring test holds exactly when `sub` occurs at some position of `s`. */
  lemma {:induction false} ContainsAt(s: string, sub: string)
    ensures Contains(s, sub) <==> exists i :: OccursAt(s, sub, i)
    decreases |s|
  {
    if IsPrefix(sub, s) {
      assert OccursAt(s, sub, 0);
    } else if |s| > 0 {
      ContainsAt(s[1..], sub);
      if exists i :: OccursAt(s, sub, i) {
        var i :| OccursAt(s, sub, i);
        assert i != 0;
        assert s[1..][i - 1..i - 1 + |sub|] == s[i..i + |sub|];
        assert OccursAt(s[1..], sub, i - 1);
      }
      if Contains(s[1..], sub) {
        var j :| OccursAt(s[1..], sub, j);
        assert s[j + 1..j + 1 + |sub|] == s[1..][j..j + |sub|];
        assert OccursAt(s, sub, j + 1);
      }
    }
  }

  /** Python's `key in c` for a str `key`: key membership on a dict, element
      equality on a list, substring on a str, and a TypeError on None, bool and numbers. */
  function In(key: string, c: Json): (r: Result<bool, Fault>)
    ensures r.Success? <==> (c.JObject? || c.JArray? || c.JString?)
    ensures r.Failure? ==> r == Failure(TypeError)
    ensures c.JObject? ==> r == Success(key in c.fields)
    ensures c.JArray? ==> r == Success(exists i :: 0 <= i < |c.items| && c.items[i] == JString(key))
    ensures c.JString? ==> r.Success? && (r.value <==> exists i :: OccursAt(c.s, key, i))
    ensures r == Success(true) && c.JString? ==> |key| <= |c.s|
  {
    match c
    case JObject(m) => Success(key in m)
    case JArray(xs) => Success(JString(key) in xs)
    case JString(s) =>
      ContainsAt(s, key);
      if Contains(s, key) then ContainsLength(s, key); Success(true) else Success(false)
    case _ => Failure(TypeError)
  }

  /** Python's `c[key]` for a str `key`: only a dict holding `key` answers. */
  function GetItem(c: Json, key: string): (r: Result<Json, Fault>)
    ensures r.Success? <==> c.JObject? && key in c.fields
    ensures r.Success? ==> r.value == c.fields[key]
    ensures c.JObject? && key !in c.fields ==> r == Failure(KeyError)
  {
    match c
    case JObject(m) => if key in m then Success(m[key]) else Failure(KeyError)
    case _ => Failure(TypeError)
  }

  /** Python's `[head] + tail`: only a list can be appended to a list. */
  function Prepend(head: Json, tail: Json): (r: Result<seq<Json>, Fault>)
    ensures r.Success? <==> tail.JArray?
    ensures r.Success? ==> |r.value| == 1 + |tail.items| && r.value[0] == head && r.value[1..] == tail.items
  {
    match tail
    case JArray(xs) => Success([head] + xs)
    case _ => Failure(TypeError)
  }

  /** Values Python can look up in a dict: lists and dicts are unhashable. */
  predicate Hashable(v: Json) {
    !v.JArray? && !v.JObject?
  }

  /** The one-character strings iterating over a str produces. */
  function Chars(s: string): (r: seq<Json>)
    ensures |r| == |s|
    ensures forall i :: 0 <= i < |s| ==> r[i] == JString([s[i]])
  {
    if s == [] then [] else [JString([s[0]])] + Chars(s[1..])
  }
}
