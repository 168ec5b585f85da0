/**
 * Small abstract versions of the FPaths helpers the plugin calls. They are
 * library functions of the engine; only the shape the plugin relies on is
 * kept: a join that inserts one separator, a relativiser that strips the
 * root directory and fails outside it, and the file-name splitters.
 */
module Paths {
  import opened Strings

  predicate IsSeparator(c: char)
  {
    c == '/' || c == '\\'
  }

  /** Index of the last '/' or '\\' in `s`, or -1. */
  function LastSeparator(s: string): (r: int)
    ensures -1 <= r < |s|
    ensures r >= 0 ==> IsSeparator(s[r])
    ensures forall j :: r < j < |s| ==> !IsSeparator(s[j])
  {
    if |s| == 0 then -1
    else if IsSeparator(s[|s| - 1]) then |s| - 1
    else LastSeparator(s[..|s| - 1])
  }

  /** FPaths::Combine of two parts: one '/' between them unless `a` is empty or already ends with a separator. */
  function Combine(a: string, b: string): string
  {
    if |a| == 0 || IsSeparator(a[|a| - 1]) then a + b else a + "/" + b
  }

  /** The directory `root` as the prefix every path beneath it starts with. */
  function DirPrefix(root: string): string
  {
    Combine(root, "")
  }

  /** FPaths::MakePathRelativeTo: the path below `root`, or None for a path outside it. */
  function MakeRelative(path: string, root: string): (r: Option<string>)
    ensures r.Some? <==> StartsWith(path, DirPrefix(root))
  {
    var d := DirPrefix(root);
    if StartsWith(path, d) then Some(path[|d|..]) else None
  }

  /** FPaths::GetCleanFilename: the part after the last separator. */
  function CleanFilename(path: string): string
  {
    path[LastSeparator(path) + 1..]
  }

  /** FPaths::GetBaseFilename: the clean file name without its extension. */
  function BaseFilename(path: string): string
  {
    var f := CleanFilename(path);
    var dot := FindLastChar(f, '.');
    if dot >= 0 then f[..dot] else f
  }

  /** FPaths::GetPath: everything before the last separator ("" if there is none). */
  function GetPath(path: string): string
  {
    var k := LastSeparator(path);
    if k >= 0 then path[..k] else ""
  }

  /** Joining `root` with a relative path is prefixing it with the root directory. */
  lemma CombineIsDirPrefix(root: string, rel: string)
    ensures Combine(root, rel) == DirPrefix(root) + rel
  {
  }

  /** Relativising and then joining with the root gives the original path back. */
  lemma RelativeRoundTrip(path: string, root: string)
    requires MakeRelative(path, root).Some?
    ensures Combine(root, MakeRelative(path, root).value) == path
  {
    var d := DirPrefix(root);
    CombineIsDirPrefix(root, path[|d|..]);
    assert path == path[..|d|] + path[|d|..];
  }

  /** Joining with the root and then relativising gives the relative path back. */
  lemma CombineThenRelative(root: string, rel: string)
    ensures MakeRelative(Combine(root, rel), root) == Some(rel)
  {
    var d := DirPrefix(root);
    CombineIsDirPrefix(root, rel);
    assert (d + rel)[..|d|] == d;
    assert (d + rel)[|d|..] == rel;
  }

  /** Appending text without separators does not move the last separator. */
  lemma {:induction false} LastSeparatorOfAppend(a: string, b: string)
    requires forall j :: 0 <= j < |b| ==> !IsSeparator(b[j])
    ensures LastSeparator(a + b) == LastSeparator(a)
    decreases |b|
  {
    if |b| > 0 {
      var s := a + b;
      assert s[..|s| - 1] == a + b[..|b| - 1];
      assert s[|s| - 1] == b[|b| - 1];
      LastSeparatorOfAppend(a, b[..|b| - 1]);
    } else {
      assert a + b == a;
    }
  }

  /** A file name without separators joined to any directory is that path's clean file name. */
  lemma CleanFilenameOfCombine(dir: string, name: string)
    requires forall j :: 0 <= j < |name| ==> !IsSeparator(name[j])
    ensures CleanFilename(Combine(dir, name)) == name
  {
    var d := DirPrefix(dir);
    CombineIsDirPrefix(dir, name);
    LastSeparatorOfAppend(d, name);
    if |dir| == 0 {
      assert d == [];
      assert d + name == name;
    } else if IsSeparator(dir[|dir| - 1]) {
      assert d == dir;
      assert LastSeparator(d) == |d| - 1;
    } else {
      assert d == dir + "/";
      assert LastSeparator(d) == |d| - 1;
    }
    assert (d + name)[|d|..] == name;
  }
}
