/**
  Path strings as `os.path` sees them on a POSIX system: one separator
  character, `join` of two components, stripping trailing separators,
  counting separators and `rsplit` at the last separator.
*/
module Paths {
  import opened Results

  type Path = string

  const Sep: char := '/'

  /** A directory entry name: non-empty and free of separators. */
  predicate IsName(n: string) {
    |n| > 0 && Sep !in n
  }

  /** A path with no trailing separator that is not empty, as `rstrip` leaves a directory path. */
  predicate IsStripped(p: Path) {
    |p| > 0 && p[|p| - 1] != Sep
  }

  /** `p.count(os.path.sep)`. */
  function CountSep(p: Path): nat
  {
    if p == [] then 0 else CountSep(p[..|p| - 1]) + (if p[|p| - 1] == Sep then 1 else 0)
  }

  lemma {:induction false} CountSepAppend(a: Path, b: Path)
    ensures CountSep(a + b) == CountSep(a) + CountSep(b)
    decreases |b|
  {
    if b == [] {
      assert a + b == a;
    } else {
      assert (a + b)[..|a + b| - 1] == a + b[..|b| - 1];
      CountSepAppend(a, b[..|b| - 1]);
    }
  }

  /** A name holds no separator. */
  lemma {:induction false} CountSepName(n: string)
    requires Sep !in n
    ensures CountSep(n) == 0
    decreases |n|
  {
    if n != [] {
      CountSepName(n[..|n| - 1]);
    }
  }

  /** `p.rstrip(os.path.sep)`: drop every trailing separator. */
  function RStrip(p: Path): (r: Path)
    ensures |r| <= |p| && r == p[..|r|]
    ensures r == [] || r[|r| - 1] != Sep
    ensures forall i :: |r| <= i < |p| ==> p[i] == Sep
  {
    if p != [] && p[|p| - 1] == Sep then RStrip(p[..|p| - 1]) else p
  }

  /** Stripping ignores any number of trailing separators, and leaves a stripped path alone. */
  lemma {:induction false} RStripTrailing(p: Path, k: nat)
    ensures RStrip(p + seq(k, _ => Sep)) == RStrip(p)
    decreases k
  {
    if k == 0 {
      assert p + seq(k, _ => Sep) == p;
    } else {
      var q := p + seq(k, _ => Sep);
      assert q[|q| - 1] == Sep;
      assert q[..|q| - 1] == p + seq(k - 1, _ => Sep);
      RStripTrailing(p, k - 1);
    }
  }

  /** `os.path.join(a, b)` on POSIX. */
  function Join(a: Path, b: string): (r: Path)
    ensures IsStripped(a) && IsName(b) ==> r == a + [Sep] + b && IsStripped(r)
  {
    if |b| > 0 && b[0] == Sep then b
    else if a == [] || a[|a| - 1] == Sep then a + b
    else a + [Sep] + b
  }

  /** Position of the last separator in `p`, if any. */
  function LastSep(p: Path): (r: Option<nat>)
    ensures r.Some? ==> r.value < |p| && p[r.value] == Sep
    ensures r.Some? ==> forall i :: r.value < i < |p| ==> p[i] != Sep
    ensures r.None? ==> Sep !in p
  {
    if p == [] then None
    else if p[|p| - 1] == Sep then Some(|p| - 1)
    else LastSep(p[..|p| - 1])
  }

  /** `p.rsplit(os.path.sep, 1)` unpacked into two parts; None where Python's
      unpacking would raise because no separator splits the path. */
  function SplitLast(p: Path): (r: Option<(Path, string)>)
    ensures r.None? <==> Sep !in p
    ensures r.Some? ==> p == r.value.0 + [Sep] + r.value.1 && Sep !in r.value.1
  {
    match LastSep(p)
    case None => None
    case Some(i) =>
      assert p == p[..i] + [Sep] + p[i + 1..];
      Some((p[..i], p[i + 1..]))
  }

  /** `rsplit` undoes `join`: splitting a joined path gives back the parent and the name. */
  lemma JoinSplit(a: Path, n: string)
    requires IsStripped(a) && IsName(n)
    ensures SplitLast(Join(a, n)) == Some((a, n))
  {
    var p := Join(a, n);
    assert p[|a|] == Sep;
    var i := LastSep(p).value;
    assert i == |a|;
    assert p[..i] == a && p[i + 1..] == n;
  }

  /** Joining a name adds exactly one separator. */
  lemma JoinCount(a: Path, n: string)
    requires IsStripped(a) && IsName(n)
    ensures CountSep(Join(a, n)) == CountSep(a) + 1
  {
    CountSepAppend(a + [Sep], n);
    CountSepAppend(a, [Sep]);
    CountSepName(n);
  }
}
