/**
  `walk_depth`: `os.walk` over a directory tree, each visited directory
  reported with a depth computed by counting separators, and descent pruned
  once the maximum depth is reached.
*/
module Walk {
  import opened Results
  import opened PyJson
  import opened Paths

  /** What opening and parsing a file yields: a document, an OSError on open, or
      a ValueError from the JSON parser. */
  datatype Content = Parsed(doc: Json) | Unopenable | Unparsable

  datatype File = File(name: string, content: Content)

  /** A directory as `os.walk` sees it. `listable` is false when listing it fails;
      `os.walk` then skips it and everything below it without a word. */
  datatype Dir = Dir(name: string, listable: bool, subdirs: seq<Dir>, files: seq<File>)

  /** One `(depth, path, dirs, files)` tuple, with `dirs` as the consumer sees it when the
      tuple is yielded (before pruning clears it). */
  datatype Record = Record(depth: int, path: Path, dirs: seq<string>, files: seq<File>)

  function DirNames(ds: seq<Dir>): (r: seq<string>)
    ensures |r| == |ds| && forall i {:trigger r[i]} :: 0 <= i < |ds| ==> r[i] == ds[i].name
  {
    if ds == [] then [] else [ds[0].name] + DirNames(ds[1..])
  }

  function FileNames(fs: seq<File>): (r: seq<string>)
    ensures |r| == |fs| && forall i {:trigger r[i]} :: 0 <= i < |fs| ==> r[i] == fs[i].name
  {
    seq(|fs|, i requires 0 <= i < |fs| => fs[i].name)
  }

  /** `os.walk` below `path` (top-down) as `walk_depth` drives it: `base` is the separator
      count of the stripped root. */
  function WalkFrom(path: Path, d: Dir, base: int, maxDepth: int): seq<Record>
    decreases d
  {
    if !d.listable then []
    else
      var depth := CountSep(path) - base;
      [Record(depth, path, DirNames(d.subdirs), d.files)]
        + (if depth >= maxDepth then [] else WalkChildren(path, d.subdirs, base, maxDepth))
  }

  function WalkChildren(path: Path, ds: seq<Dir>, base: int, maxDepth: int): seq<Record>
    decreases ds
  {
    if ds == [] then []
    else WalkFrom(Join(path, ds[0].name), ds[0], base, maxDepth) + WalkChildren(path, ds[1..], base, maxDepth)
  }

  /** `walk_depth(directory, max_depth)` where `root` is the directory `directory` names.
      Stripping a root made only of separators leaves "", which is not a directory, so the
      assertion at the top fails. */
  function WalkDepth(directory: Path, root: Dir, maxDepth: int): (r: Result<seq<Record>, Fault>)
    ensures r.Success? <==> RStrip(directory) != []
    ensures r.Failure? ==> r.error == AssertionError
    ensures r.Success? && Named(root) ==>
      r.value == Visit(RStrip(directory), root, 0, maxDepth) && DepthFirst(r.value, 0, maxDepth)
  {
    var stripped := RStrip(directory);
    if stripped == [] then Failure(AssertionError)
    else
      var rs := WalkFrom(stripped, root, CountSep(stripped), maxDepth);
      if Named(root) then
        WalkIsVisit(stripped, root, CountSep(stripped), maxDepth);
        VisitShape(stripped, root, 0, maxDepth);
        Success(rs)
      else Success(rs)
  }

  /** Every directory below `d` has a proper entry name. */
  predicate Named(d: Dir)
    decreases d
  {
    forall i :: 0 <= i < |d.subdirs| ==> IsName(d.subdirs[i].name) && Named(d.subdirs[i])
  }

  /** Reference traversal with an explicit level counter instead of separator counting:
      preorder over listable directories, no descent below `maxDepth`. */
  function Visit(path: Path, d: Dir, level: int, maxDepth: int): seq<Record>
    decreases d
  {
    if !d.listable then []
    else
      [Record(level, path, DirNames(d.subdirs), d.files)]
        + (if level >= maxDepth then [] else VisitChildren(path, d.subdirs, level + 1, maxDepth))
  }

  function VisitChildren(path: Path, ds: seq<Dir>, level: int, maxDepth: int): seq<Record>
    decreases ds
  {
    if ds == [] then []
    else Visit(Join(path, ds[0].name), ds[0], level, maxDepth) + VisitChildren(path, ds[1..], level, maxDepth)
  }

  /** The visit of a listable directory above the bound: its record, then its children's. */
  lemma VisitListable(path: Path, d: Dir, level: int, maxDepth: int)
    requires d.listable && level < maxDepth
    ensures Visit(path, d, level, maxDepth) ==
      [Record(level, path, DirNames(d.subdirs), d.files)] + VisitChildren(path, d.subdirs, level + 1, maxDepth)
  {
  }

  /** Counting separators gives the tree level: the walk is the reference traversal. */
  lemma {:induction false} WalkIsVisit(path: Path, d: Dir, base: int, maxDepth: int)
    requires IsStripped(path) && Named(d)
    ensures WalkFrom(path, d, base, maxDepth) == Visit(path, d, CountSep(path) - base, maxDepth)
    decreases d, 1
  {
    if d.listable && CountSep(path) - base < maxDepth {
      WalkChildrenIsVisit(path, d.subdirs, base, maxDepth);
    }
  }

  /** A child one separator below a stripped path sits one level lower. */
  lemma {:induction false} WalkChildIsVisit(path: Path, d: Dir, base: int, maxDepth: int)
    requires IsStripped(path) && IsName(d.name) && Named(d)
    ensures WalkFrom(Join(path, d.name), d, base, maxDepth) == Visit(Join(path, d.name), d, CountSep(path) - base + 1, maxDepth)
    decreases d, 2
  {
    JoinCount(path, d.name);
    WalkIsVisit(Join(path, d.name), d, base, maxDepth);
  }

  lemma {:induction false} WalkChildrenIsVisit(path: Path, ds: seq<Dir>, base: int, maxDepth: int)
    requires IsStripped(path)
    requires forall i :: 0 <= i < |ds| ==> IsName(ds[i].name) && Named(ds[i])
    ensures WalkChildren(path, ds, base, maxDepth) == VisitChildren(path, ds, CountSep(path) - base + 1, maxDepth)
    decreases ds, 0
  {
    if ds != [] {
      var rest := ds[1..];
      var level := CountSep(path) - base + 1;
      WalkChildIsVisit(path, ds[0], base, maxDepth);
      assert forall i :: 0 <= i < |rest| ==> rest[i] == ds[i + 1];
      WalkChildrenIsVisit(path, rest, base, maxDepth);
      WalkChildrenCons(path, ds, base, maxDepth);
      VisitChildrenCons(path, ds, level, maxDepth);
    }
  }

  lemma WalkChildrenCons(path: Path, ds: seq<Dir>, base: int, maxDepth: int)
    requires ds != []
    ensures WalkChildren(path, ds, base, maxDepth) ==
      WalkFrom(Join(path, ds[0].name), ds[0], base, maxDepth) + WalkChildren(path, ds[1..], base, maxDepth)
  {
  }

  lemma VisitChildrenCons(path: Path, ds: seq<Dir>, level: int, maxDepth: int)
    requires ds != []
    ensures VisitChildren(path, ds, level, maxDepth) ==
      Visit(Join(path, ds[0].name), ds[0], level, maxDepth) + VisitChildren(path, ds[1..], level, maxDepth)
  {
  }

  function Max(a: int, b: int): int {
    if a < b then b else a
  }

  /** The shape of a depth-first, depth-bounded enumeration starting at level `low`: it starts
      at `low`, stays within `low .. max(low, maxDepth)`, goes down at most one level per
      record, and never goes down right after a record at or beyond `maxDepth`. */
  predicate DepthFirst(rs: seq<Record>, low: int, maxDepth: int) {
    && (|rs| > 0 ==> rs[0].depth == low)
    && (forall i :: 0 <= i < |rs| ==> low <= rs[i].depth <= Max(low, maxDepth))
    && (forall i :: 0 < i < |rs| ==> rs[i].depth <= rs[i - 1].depth + 1)
    && (forall i :: 0 < i < |rs| && rs[i - 1].depth >= maxDepth ==> rs[i].depth <= rs[i - 1].depth)
  }

  lemma DepthFirstAppend(a: seq<Record>, b: seq<Record>, low: int, maxDepth: int)
    requires low <= maxDepth
    requires DepthFirst(a, low, maxDepth) && DepthFirst(b, low, maxDepth)
    ensures DepthFirst(a + b, low, maxDepth)
  {
    var c := a + b;
    if |a| == 0 { assert c == b; }
    else { assert c[0] == a[0]; }
    forall i | 0 <= i < |c|
      ensures low <= c[i].depth <= Max(low, maxDepth)
    {
      if i < |a| { assert c[i] == a[i]; } else { assert c[i] == b[i - |a|]; }
    }
    forall i | 0 < i < |c|
      ensures c[i].depth <= c[i - 1].depth + 1
      ensures c[i - 1].depth >= maxDepth ==> c[i].depth <= c[i - 1].depth
    {
      if i < |a| {
        assert c[i] == a[i] && c[i - 1] == a[i - 1];
      } else if i == |a| {
        assert c[i] == b[0] && c[i - 1] == a[|a| - 1];
      } else {
        assert c[i] == b[i - |a|] && c[i - 1] == b[i - 1 - |a|];
      }
    }
  }

  /** One directory's enumeration: a single tree whose first record is the directory itself. */
  lemma {:induction false} VisitShape(path: Path, d: Dir, level: int, maxDepth: int)
    ensures var rs := Visit(path, d, level, maxDepth);
      && DepthFirst(rs, level, maxDepth)
      && (d.listable <==> |rs| > 0)
      && (d.listable ==> rs[0].path == path && rs[0].dirs == DirNames(d.subdirs) && rs[0].files == d.files)
      && (forall i :: 0 < i < |rs| ==> rs[i].depth > level)
    decreases d, 1
  {
    if d.listable && level < maxDepth {
      var kids := VisitChildren(path, d.subdirs, level + 1, maxDepth);
      VisitChildrenShape(path, d.subdirs, level + 1, maxDepth);
      var rs := Visit(path, d, level, maxDepth);
      assert rs == [rs[0]] + kids;
      forall i | 0 < i < |rs|
        ensures rs[i].depth > level
        ensures rs[i].depth <= rs[i - 1].depth + 1
      {
        assert rs[i] == kids[i - 1];
        if i > 1 {
          assert rs[i - 1] == kids[i - 2];
        }
      }
    }
  }

  lemma {:induction false} VisitChildrenShape(path: Path, ds: seq<Dir>, level: int, maxDepth: int)
    requires level <= maxDepth
    ensures DepthFirst(VisitChildren(path, ds, level, maxDepth), level, maxDepth)
    decreases ds, 0
  {
    if ds != [] {
      VisitShape(Join(path, ds[0].name), ds[0], level, maxDepth);
      VisitChildrenShape(path, ds[1..], level, maxDepth);
      DepthFirstAppend(Visit(Join(path, ds[0].name), ds[0], level, maxDepth),
        VisitChildren(path, ds[1..], level, maxDepth), level, maxDepth);
    }
  }

  /** `walk_depth` fails only on a root made of separators; otherwise the root comes first at
      depth 0, no record is deeper than `max(0, max_depth)`, and every record is at most one
      level below the one before it and never below a record at the depth limit. */
  lemma WalkDepthShape(directory: Path, root: Dir, maxDepth: int)
    requires Named(root)
    ensures WalkDepth(directory, root, maxDepth).Success? <==> RStrip(directory) != []
    ensures WalkDepth(directory, root, maxDepth).Success? ==>
      var rs := WalkDepth(directory, root, maxDepth).value;
      && rs == Visit(RStrip(directory), root, 0, maxDepth)
      && DepthFirst(rs, 0, maxDepth)
      && (root.listable ==> rs[0].path == RStrip(directory) && rs[0].depth == 0)
      && (forall i :: 0 <= i < |rs| ==> rs[i].depth <= Max(0, maxDepth))
  {
    var stripped := RStrip(directory);
    if stripped != [] {
      var rs := WalkFrom(stripped, root, CountSep(stripped), maxDepth);
      assert WalkDepth(directory, root, maxDepth) == Success(rs);
      WalkIsVisit(stripped, root, CountSep(stripped), maxDepth);
      assert rs == Visit(stripped, root, 0, maxDepth);
      VisitShape(stripped, root, 0, maxDepth);
    }
  }

  /** Trailing separators on the root change nothing: the root is reported at depth 0 either way. */
  lemma WalkDepthTrailingSeparators(directory: Path, k: nat, root: Dir, maxDepth: int)
    ensures WalkDepth(directory + seq(k, _ => Sep), root, maxDepth) == WalkDepth(directory, root, maxDepth)
  {
    RStripTrailing(directory, k);
  }
}
