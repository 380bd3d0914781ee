/**
  The ordered, name-indexed child collection each container keeps: a Python
  list of children plus a dict from name to child. The dict's values are the
  same objects the list holds, so the model stores, for each name, the list
  position of the child registered last under that name.
*/
module Registries {
  import opened Results

  datatype Registry<T> = Registry(list: seq<T>, index: map<string, nat>)

  /** Every indexed name points into the list, and no two names share a child. */
  predicate Valid<T>(r: Registry<T>) {
    && (forall k :: k in r.index ==> r.index[k] < |r.list|)
    && (forall k, k' :: k in r.index && k' in r.index && k != k' ==> r.index[k] != r.index[k'])
  }

  /** A fresh container: empty list, empty dict. */
  function Empty<T>(): (r: Registry<T>)
    ensures Valid(r)
    ensures forall k :: Get(r, k) == None
  {
    Registry([], map[])
  }

  /** `d[name] if name in d else None`. */
  function Get<T>(r: Registry<T>, key: string): (x: Option<T>)
    requires Valid(r)
    ensures x.Some? <==> key in r.index
    ensures x.Some? ==> x.value in r.list
  {
    if key in r.index then Some(r.list[r.index[key]]) else None
  }

  /** `lst.append(x); d[key] = x`. */
  function Add<T>(r: Registry<T>, key: string, x: T): (r': Registry<T>)
    requires Valid(r)
    ensures Valid(r')
    ensures r'.list == r.list + [x]
    ensures r'.index.Keys == r.index.Keys + {key}
    ensures Get(r', key) == Some(x)
    ensures forall k :: k != key ==> Get(r', k) == Get(r, k)
  {
    Registry(r.list + [x], r.index[key := |r.list|])
  }

  /** Mutating the child registered under `key`: the dict and the list see the same object,
      so the change shows through both. */
  function Update<T>(r: Registry<T>, key: string, x: T): (r': Registry<T>)
    requires Valid(r) && key in r.index
    ensures Valid(r') && r'.index == r.index
    ensures |r'.list| == |r.list|
    ensures Get(r', key) == Some(x)
    ensures forall k :: k != key ==> Get(r', k) == Get(r, k)
    ensures forall i :: 0 <= i < |r.list| && i != r.index[key] ==> r'.list[i] == r.list[i]
    ensures r'.list == r.list[r.index[key] := x]
  {
    Registry(r.list[r.index[key] := x], r.index)
  }

  /** The dict that registering `keys` in order leaves: each name at the position of its last
      registration. */
  function Positions(keys: seq<string>): map<string, nat>
  {
    if keys == [] then map[]
    else Positions(keys[..|keys| - 1])[keys[|keys| - 1] := |keys| - 1]
  }

  /** Every registered name is in the dict, at a position holding that name, and no later
      position holds it. */
  lemma {:induction false} PositionsSpec(keys: seq<string>)
    ensures forall i :: 0 <= i < |keys| ==> keys[i] in Positions(keys)
    ensures forall k :: k in Positions(keys) ==> Positions(keys)[k] < |keys| && keys[Positions(keys)[k]] == k
    ensures forall k, i :: k in Positions(keys) && Positions(keys)[k] < i < |keys| ==> keys[i] != k
  {
    if keys != [] {
      var init := keys[..|keys| - 1];
      PositionsSpec(init);
      assert forall i :: 0 <= i < |init| ==> init[i] == keys[i];
    }
  }

  /** A registry whose dict is built by registering its list's names in order is valid. */
  lemma PositionsValid<T>(list: seq<T>, keys: seq<string>)
    requires |list| == |keys|
    ensures Valid(Registry(list, Positions(keys)))
  {
    PositionsSpec(keys);
  }

  /** Names that occur once each. */
  predicate Distinct(keys: seq<string>) {
    forall i, j :: 0 <= i < j < |keys| ==> keys[i] != keys[j]
  }

  /** With distinct names every name is found at the position it was registered at. */
  lemma PositionsOfDistinct(keys: seq<string>, i: int)
    requires Distinct(keys) && 0 <= i < |keys|
    ensures keys[i] in Positions(keys) && Positions(keys)[keys[i]] == i
  {
    PositionsSpec(keys);
  }

  /** Registering one more child extends the list and the dict in step. */
  lemma AddPositions<T>(list: seq<T>, keys: seq<string>, key: string, x: T)
    requires |list| == |keys|
    ensures Valid(Registry(list, Positions(keys)))
    ensures Add(Registry(list, Positions(keys)), key, x) == Registry(list + [x], Positions(keys + [key]))
  {
    PositionsValid(list, keys);
    var ks := keys + [key];
    assert ks[..|ks| - 1] == keys;
  }

  /** Looking up or replacing a distinctly named child goes to its position. */
  lemma UpdatePositions<T>(list: seq<T>, keys: seq<string>, j: int, x: T)
    requires |list| == |keys| && Distinct(keys) && 0 <= j < |keys|
    ensures Valid(Registry(list, Positions(keys))) && keys[j] in Positions(keys) && Positions(keys)[keys[j]] == j
    ensures Get(Registry(list, Positions(keys)), keys[j]) == Some(list[j])
    ensures Update(Registry(list, Positions(keys)), keys[j], x) == Registry(list[j := x], Positions(keys))
  {
    PositionsValid(list, keys);
    PositionsOfDistinct(keys, j);
  }
}
