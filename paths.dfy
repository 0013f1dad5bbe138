/** File-system paths as Rust's `std::path::Path` treats them, reduced to what
    the image tools use: the file name, its stem and extension, replacing the
    extension, joining a name onto a directory, and ASCII lower-casing. The
    file system itself (`exists`, `is_dir`) is an input, `FsView`. */
module Paths {
  import opened Wrappers

  /** A path: the components leading to it and its last component, the file
      name (`None` for paths such as `/` that have no file name). */
  datatype Path = Path(dirs: seq<string>, name: Option<string>)

  /** What the file system answers about paths: which exist as files and
      which exist as directories. */
  datatype FsView = FsView(files: set<Path>, directories: set<Path>) {
    predicate Exists(p: Path) {
      p in files || p in directories
    }

    predicate IsDir(p: Path) {
      p in directories
    }
  }

  /** The index of the last '.' in `s`, if any. */
  function LastDot(s: string): (r: Option<nat>)
    ensures r.Some? ==> r.value < |s| && s[r.value] == '.'
    ensures r.Some? ==> forall k :: r.value < k < |s| ==> s[k] != '.'
    ensures r.None? ==> forall k :: 0 <= k < |s| ==> s[k] != '.'
  {
    if s == [] then None
    else if s[|s| - 1] == '.' then Some(|s| - 1)
    else LastDot(s[..|s| - 1])
  }

  /** A file name split at its last dot into stem and extension. */
  datatype NameParts = NameParts(stem: string, ext: Option<string>)

  /** Rust's split of a file name: `..` and names whose only dot is the
      leading one (`.bashrc`) have no extension; otherwise the extension is
      what follows the last dot and the stem what precedes it. */
  function SplitName(name: string): (r: NameParts)
    ensures r.ext.None? ==> r.stem == name
    ensures r.ext.Some? ==> name == r.stem + "." + r.ext.value
    ensures r.ext.Some? ==> r.stem != [] && '.' !in r.ext.value
  {
    if name == ".." then NameParts(name, None)
    else
      match LastDot(name)
      case None => NameParts(name, None)
      case Some(i) =>
        if i == 0 then NameParts(name, None)
        else NameParts(name[..i], Some(name[i + 1..]))
  }

  /** `Path::file_name`. */
  function FileName(p: Path): Option<string> {
    p.name
  }

  /** `Path::extension`. */
  function Extension(p: Path): Option<string> {
    if p.name.None? then None else SplitName(p.name.value).ext
  }

  /** `Path::file_stem`. */
  function FileStem(p: Path): Option<string> {
    if p.name.None? then None else Some(SplitName(p.name.value).stem)
  }

  /** `Path::with_extension`: the stem keeps its place and `ext` replaces the
      extension (an empty `ext` removes it); a path without a file name is
      returned unchanged. */
  function WithExtension(p: Path, ext: string): (r: Path)
    ensures r.dirs == p.dirs && r.name.Some? == p.name.Some?
  {
    match p.name
    case None => p
    case Some(n) => Path(p.dirs, Some(SplitName(n).stem + (if ext == "" then "" else "." + ext)))
  }

  /** All components of a path, file name included. */
  function Components(p: Path): seq<string> {
    p.dirs + (if p.name.Some? then [p.name.value] else [])
  }

  /** `Path::join` (and `PathBuf::push`) of one relative file name. */
  function Join(dir: Path, name: string): (r: Path)
    ensures r.name == Some(name)
  {
    Path(Components(dir), Some(name))
  }

  /** `PathBuf::from` of a bare file name: a path in the current directory. */
  function FromName(name: string): Path {
    Path([], Some(name))
  }

  function LowerChar(c: char): char {
    if 'A' <= c <= 'Z' then (c as int + 32) as char else c
  }

  /** `str::to_ascii_lowercase`. */
  function Lower(s: string): (r: string)
    ensures |r| == |s|
  {
    seq(|s|, i requires 0 <= i < |s| => LowerChar(s[i]))
  }

  function LowerOpt(s: Option<string>): Option<string> {
    if s.None? then None else Some(Lower(s.value))
  }

  /** The path that `to_ascii_lowercase` of the path's text denotes. Case
      folding never creates or removes a separator, so it acts on each
      component. */
  function LowerPath(p: Path): Path {
    Path(seq(|p.dirs|, i requires 0 <= i < |p.dirs| => Lower(p.dirs[i])), LowerOpt(p.name))
  }

  /** The last dot of `u + "." + v` is the one between them when `v` has none. */
  lemma LastDotOfSuffix(u: string, v: string)
    requires '.' !in v
    ensures LastDot(u + "." + v) == Some(|u|)
  {
    DotBeforeSuffix(u, v);
    LastDotIs(u + "." + v, |u|);
  }

  /** In `u + "." + v`, with no dot in `v`, no dot follows the one at `|u|`. */
  lemma DotBeforeSuffix(u: string, v: string)
    requires '.' !in v
    ensures var s := u + "." + v; s[|u|] == '.' && forall k :: |u| < k < |s| ==> s[k] != '.'
  {
    var s := u + "." + v;
    forall k | |u| < k < |s|
      ensures s[k] != '.'
    {
      assert s[k] == v[k - |u| - 1];
    }
  }

  /** A dot with no dot after it is the last dot. */
  lemma LastDotIs(s: string, j: nat)
    requires j < |s| && s[j] == '.'
    requires forall k :: j < k < |s| ==> s[k] != '.'
    ensures LastDot(s) == Some(j)
  {
  }

  /** Replacing the extension with one that has no dot makes it the path's
      extension and keeps the stem: `Path::with_extension` and
      `Path::extension` round-trip. */
  lemma WithExtensionRoundTrip(p: Path, ext: string)
    requires p.name.Some? && p.name.value != "" && p.name.value != ".."
    requires ext != "" && '.' !in ext
    ensures Extension(WithExtension(p, ext)) == Some(ext)
    ensures FileStem(WithExtension(p, ext)) == FileStem(p)
    ensures WithExtension(p, ext).dirs == p.dirs
  {
    var stem := SplitName(p.name.value).stem;
    assert stem != [] by {
      if SplitName(p.name.value).ext.None? {
        assert stem == p.name.value;
      }
    }
    var n := stem + "." + ext;
    assert WithExtension(p, ext).name.value == n;
    LastDotOfSuffix(stem, ext);
    assert n[..|stem|] == stem;
    assert n[|stem| + 1..] == ext;
    assert n != "..";
  }

  /** With a doubled extension `a.b` (neither part containing a dot), the
      path's extension becomes the last part `b`. */
  lemma WithDoubleExtension(p: Path, a: string, b: string)
    requires p.name.Some? && p.name.value != "" && p.name.value != ".."
    requires '.' !in a && b != "" && '.' !in b
    ensures Extension(WithExtension(p, a + "." + b)) == Some(b)
  {
    var stem := SplitName(p.name.value).stem;
    assert stem != [] by {
      if SplitName(p.name.value).ext.None? {
        assert stem == p.name.value;
      }
    }
    var u := stem + "." + a;
    var n := u + "." + b;
    assert stem + ("." + (a + "." + b)) == n;
    LastDotOfSuffix(u, b);
    assert n[..|u|] == u;
    assert n[|u| + 1..] == b;
    assert n != ".." by { assert |n| >= 4; }
  }

  /** ASCII lower-casing keeps every dot where it was. */
  lemma LowerKeepsLastDot(s: string)
    ensures LastDot(Lower(s)) == LastDot(s)
  {
    var t := Lower(s);
    assert forall k :: 0 <= k < |s| ==> (t[k] == '.' <==> s[k] == '.');
  }

  /** Lower-casing a file name lower-cases its stem and its extension. */
  lemma LowerSplitName(name: string)
    ensures SplitName(Lower(name)).ext == LowerOpt(SplitName(name).ext)
  {
    LowerKeepsLastDot(name);
    var t := Lower(name);
    assert forall k :: 0 <= k < |name| ==> (t[k] == '.' <==> name[k] == '.');
    assert t == ".." <==> name == "..";
    if name != ".." {
      match LastDot(name)
      case None =>
      case Some(i) =>
        if i > 0 {
          assert t[i + 1..] == Lower(name[i + 1..]);
        }
    }
  }

  /** The extension of a lower-cased path is the lower-cased extension: case
      folding the whole path text, as the command line tools do before
      reading the extension, only folds the extension. */
  lemma LowerPathExtension(p: Path)
    ensures Extension(LowerPath(p)) == LowerOpt(Extension(p))
  {
    if p.name.Some? {
      LowerSplitName(p.name.value);
    }
  }

  /** Setting a path's own extension again (the empty one when it has
      none) gives back the same path, unless the name ends in a dot: the
      empty extension of `a.` is set by dropping the dot. */
  lemma WithOwnExtension(p: Path)
    requires Extension(p) != Some("")
    ensures WithExtension(p, Extension(p).GetOr("")) == p
  {
    if p.name.Some? {
      var parts := SplitName(p.name.value);
      if parts.ext.Some? {
        assert parts.stem + ("." + parts.ext.value) == p.name.value;
      } else {
        assert parts.stem + "" == p.name.value;
      }
    }
  }
}
