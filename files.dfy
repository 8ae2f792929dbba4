/**
 * File name arithmetic of psychopath.File: splitting a file name at its
 * last '.' into a base name and an extension, and locating the sibling
 * file with a new base name or a new extension.
 */
module Files {
  import opened Paths

  /** `s.lastIndexOf(c)`: the greatest index holding `c`, or -1 when there is none. */
  function LastIndexOf(s: string, c: char): (r: int)
    ensures -1 <= r < |s|
    ensures r == -1 <==> c !in s
    ensures r >= 0 ==> s[r] == c && c !in s[r + 1..]
  {
    if |s| == 0 then -1
    else if s[|s| - 1] == c then |s| - 1
    else
      var r := LastIndexOf(s[..|s| - 1], c);
      assert s == s[..|s| - 1] + [s[|s| - 1]];
      assert r >= 0 ==> s[r + 1..] == s[..|s| - 1][r + 1..] + [s[|s| - 1]];
      r
  }

  /** `File.base()`: the name up to its last '.', or the whole name when it has none. */
  function Base(f: Path): string {
    var name := Name(f);
    var index := LastIndexOf(name, '.');
    if index == -1 then name else name[..index]
  }

  /** `File.extension()`: the name after its last '.', or "" when it has none. */
  function Extension(f: Path): string {
    var name := Name(f);
    var index := LastIndexOf(name, '.');
    if index == -1 then "" else name[index + 1..]
  }

  /** `File.base(newBaseName)`: the sibling with a new base name and the same extension. */
  function WithBase(f: Path, newBase: string): Path {
    var extension := Extension(f);
    ResolveSibling(f, if extension == "" then newBase else newBase + "." + extension)
  }

  /** `File.extension(newExtension)`: the sibling with the same base name and a new extension. */
  function WithExtension(f: Path, newExtension: string): Path {
    ResolveSibling(f, Base(f) + "." + newExtension)
  }

  /** The last '.' of `b + "." + e` is the one joining them, when `e` has none. */
  lemma LastDotOfJoin(b: string, e: string)
    requires '.' !in e
    ensures LastIndexOf(b + "." + e, '.') == |b|
  {
    var s := b + "." + e;
    var r := LastIndexOf(s, '.');
    assert s[|b|] == '.';
  }

  /** An extension never contains a '.'. */
  lemma ExtensionHasNoDot(f: Path)
    ensures '.' !in Extension(f)
  {
  }

  /** The extension is empty exactly when the name has no '.' or ends with one. */
  lemma ExtensionEmptyIff(f: Path)
    ensures Extension(f) == "" <==> '.' !in Name(f) || Name(f)[|Name(f)| - 1] == '.'
  {
    var name := Name(f);
    var index := LastIndexOf(name, '.');
    if '.' in name && name[|name| - 1] != '.' {
      assert index < |name| - 1;
      assert name[index + 1..][|name| - index - 2] == name[|name| - 1];
    }
  }

  /** "a." has a '.', yet its extension is empty. */
  lemma TrailingDotHasEmptyExtension(f: Path)
    requires Name(f) == "a."
    ensures '.' in Name(f) && Extension(f) == "" && Base(f) == "a"
  {
    assert Name(f)[1] == '.';
    assert LastIndexOf(Name(f), '.') == 1;
  }

  /** Without a '.', the base name is the whole name. */
  lemma BaseWithoutDot(f: Path)
    requires '.' !in Name(f)
    ensures Base(f) == Name(f) && Extension(f) == ""
  {
  }

  /** With a '.', base, '.' and extension spell the name again. */
  lemma SplitRoundTrip(f: Path)
    requires '.' in Name(f)
    ensures Base(f) + "." + Extension(f) == Name(f)
  {
    var name := Name(f);
    var index := LastIndexOf(name, '.');
    assert name == name[..index] + [name[index]] + name[index + 1..];
  }

  /** `extension(e)` names the sibling `base() + "." + e`; an `e` without '.' reads back as the new extension. */
  lemma WithExtensionSpec(f: Path, e: string)
    ensures Name(WithExtension(f, e)) == Base(f) + "." + e
    ensures '.' !in e ==> Extension(WithExtension(f, e)) == e && Base(WithExtension(f, e)) == Base(f)
  {
    var g := WithExtension(f, e);
    if '.' !in e {
      LastDotOfJoin(Base(f), e);
      assert (Base(f) + "." + e)[|Base(f)| + 1..] == e;
      assert (Base(f) + "." + e)[..|Base(f)|] == Base(f);
    }
  }

  /**
   * `base(b)` names the sibling `b` when the extension is empty and `b + "." + extension()`
   * otherwise; a non-empty extension is kept, and `b` reads back as the base name
   * unless the extension is empty and `b` itself has a '.'. With no extension,
   * `base("")` resolves the empty name and gives the parent directory.
   */
  lemma WithBaseSpec(f: Path, b: string)
    ensures b != "" || Extension(f) != "" ==> Name(WithBase(f, b)) == if Extension(f) == "" then b else b + "." + Extension(f)
    ensures b == "" && Extension(f) == "" ==> WithBase(f, b) == if IsRoot(f) then Path(false, []) else Parent(f)
    ensures Extension(f) != "" ==> Extension(WithBase(f, b)) == Extension(f) && Base(WithBase(f, b)) == b
    ensures Extension(f) == "" && '.' !in b && b != "" ==> Base(WithBase(f, b)) == b && Extension(WithBase(f, b)) == ""
  {
    var e := Extension(f);
    if e != "" {
      ExtensionHasNoDot(f);
      LastDotOfJoin(b, e);
      assert (b + "." + e)[|b| + 1..] == e;
      assert (b + "." + e)[..|b|] == b;
    }
  }

  /** A new base name with a '.' does not read back when the old name had no extension. */
  lemma DottedBaseDoesNotReadBack(f: Path)
    requires Name(f) == "README"
    ensures Base(WithBase(f, "x.y")) == "x"
  {
    BaseWithoutDot(f);
    assert Name(WithBase(f, "x.y")) == "x.y";
    assert "x.y"[1] == '.';
    assert LastIndexOf("x.y", '.') == 1;
  }

  /**
   * Both renamers change only the last segment of the path, except `base("")`
   * on a name without an extension, which gives the parent directory.
   */
  lemma RenamersKeepParent(f: Path, s: string)
    requires !IsRoot(f)
    ensures WithBase(f, s).absolute == f.absolute && WithExtension(f, s).absolute == f.absolute
    ensures s != "" || Extension(f) != "" ==> Parent(WithBase(f, s)) == Parent(f) && |WithBase(f, s).segments| == |f.segments|
    ensures s == "" && Extension(f) == "" ==> WithBase(f, s) == Parent(f)
    ensures Parent(WithExtension(f, s)) == Parent(f) && |WithExtension(f, s).segments| == |f.segments|
  {
    var e := Extension(f);
    SiblingKeepsParent(f, if e == "" then s else s + "." + e);
    SiblingKeepsParent(f, Base(f) + "." + s);
  }

  /** Renaming to the current base name is the identity, except for a name ending in '.'. */
  lemma WithOwnBaseIsIdentity(f: Path)
    requires !IsRoot(f) && Name(f) != ""
    requires Extension(f) != "" || '.' !in Name(f)
    ensures WithBase(f, Base(f)) == f
  {
    var name := Name(f);
    if '.' in name {
      SplitRoundTrip(f);
    } else {
      BaseWithoutDot(f);
    }
    assert Parent(f).segments + [name] == f.segments;
  }

  /** Renaming to the current extension is the identity when the name has a '.'. */
  lemma WithOwnExtensionIsIdentity(f: Path)
    requires !IsRoot(f)
    requires '.' in Name(f)
    ensures WithExtension(f, Extension(f)) == f
  {
    SplitRoundTrip(f);
    assert Parent(f).segments + [Name(f)] == f.segments;
  }
}
