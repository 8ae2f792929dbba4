/**
 * File-system paths as values: the part of java.nio.file.Path that the
 * virtual folder relies on (resolve, relativize, parent, resolveSibling).
 * A path is absolute or relative and is a sequence of name segments;
 * separators, drive letters and normalisation are not modelled.
 */
module Paths {

  datatype Path = Path(absolute: bool, segments: seq<string>)

  /** The empty relative path, `Locator.directory("")`. */
  const Here: Path := Path(false, [])

  /** A path with no segments: a file-system root (or the empty relative path). */
  predicate IsRoot(p: Path) {
    |p.segments| == 0
  }

  /** The last segment, or "" for a root. */
  function Name(p: Path): string {
    if IsRoot(p) then "" else p.segments[|p.segments| - 1]
  }

  /** The enclosing directory; a root is taken as its own parent. */
  function Parent(p: Path): (r: Path)
    ensures r.absolute == p.absolute
    ensures !IsRoot(p) ==> r.segments + [Name(p)] == p.segments
    ensures IsRoot(p) ==> r == p
  {
    if IsRoot(p) then p else Path(p.absolute, p.segments[..|p.segments| - 1])
  }

  /** `base.resolve(other)`: an absolute `other` wins, a relative one is appended. */
  function Resolve(base: Path, other: Path): Path {
    if other.absolute then other else Path(base.absolute, base.segments + other.segments)
  }

  /** `p` lies at or below `dir`. */
  predicate Under(dir: Path, p: Path) {
    p.absolute == dir.absolute && |dir.segments| <= |p.segments| && p.segments[..|dir.segments|] == dir.segments
  }

  /** Length of the longest common prefix of two segment sequences. */
  function CommonPrefix(a: seq<string>, b: seq<string>): (k: nat)
    ensures k <= |a| && k <= |b|
    ensures a[..k] == b[..k]
    ensures k < |a| && k < |b| ==> a[k] != b[k]
  {
    if |a| == 0 || |b| == 0 || a[0] != b[0] then 0
    else
      var k := 1 + CommonPrefix(a[1..], b[1..]);
      assert a[..k] == [a[0]] + a[1..][..k - 1];
      assert b[..k] == [b[0]] + b[1..][..k - 1];
      k
  }

  /** `n` parent steps. */
  function Ups(n: nat): (r: seq<string>)
    ensures |r| == n
    ensures forall i | 0 <= i < n :: r[i] == ".."
  {
    if n == 0 then [] else Ups(n - 1) + [".."]
  }

  /**
   * `base.relativize(other)`: climb out of `base` to the common prefix and
   * descend into `other`. The JDK refuses a relative and an absolute path together.
   */
  function Relativize(base: Path, other: Path): (r: Path)
    requires base.absolute == other.absolute
    ensures !r.absolute
  {
    var k := CommonPrefix(base.segments, other.segments);
    Path(false, Ups(|base.segments| - k) + other.segments[k..])
  }

  /**
   * `p.resolveSibling(name)`: `getParent().resolve(name)`, or `name` itself
   * when there is no parent. Resolving the empty name gives the parent back.
   */
  function ResolveSibling(p: Path, name: string): Path {
    var parent := if IsRoot(p) then Path(false, []) else Parent(p);
    if name == "" then parent else Path(parent.absolute, parent.segments + [name])
  }

  /** Relativizing a path against a directory above it yields the segments below that directory. */
  lemma RelativizeBelow(base: Path, other: Path)
    requires Under(base, other)
    ensures Relativize(base, other) == Path(false, other.segments[|base.segments|..])
  {
  }

  /** Resolving the relativized path against its base gives the path back. */
  lemma ResolveRelativize(base: Path, other: Path)
    requires Under(base, other)
    ensures Resolve(base, Relativize(base, other)) == other
  {
    RelativizeBelow(base, other);
    var n := |base.segments|;
    assert other.segments == other.segments[..n] + other.segments[n..];
  }

  /** A sibling keeps the parent and is named `name`; the empty name gives the parent itself. */
  lemma SiblingKeepsParent(p: Path, name: string)
    requires !IsRoot(p)
    ensures ResolveSibling(p, name).absolute == p.absolute
    ensures name == "" ==> ResolveSibling(p, name) == Parent(p)
    ensures name != "" ==> Parent(ResolveSibling(p, name)) == Parent(p)
    ensures name != "" ==> Name(ResolveSibling(p, name)) == name
    ensures name != "" ==> |ResolveSibling(p, name).segments| == |p.segments|
  {
    if name != "" {
      var s := ResolveSibling(p, name);
      assert s.segments[..|s.segments| - 1] == Parent(p).segments;
    }
  }

  /** Appending relative segments keeps a path below where it started. */
  lemma ResolveUnder(dir: Path, rel: Path)
    requires !rel.absolute
    ensures Under(dir, Resolve(dir, rel))
  {
    assert (dir.segments + rel.segments)[..|dir.segments|] == dir.segments;
  }

  /** `Under` is transitive. */
  lemma UnderTrans(a: Path, b: Path, c: Path)
    requires Under(a, b) && Under(b, c)
    ensures Under(a, c)
  {
    assert c.segments[..|a.segments|] == c.segments[..|b.segments|][..|a.segments|];
  }
}
