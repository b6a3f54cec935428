/**
 * The parts of std::filesystem::path the program relies on, for POSIX
 * generic-format paths held as strings: filename, stem, extension,
 * replace_extension, operator/, is_absolute, parent_path and root_path.
 * The real filesystem (exists, is_directory) and lexically_normal are
 * supplied by the caller as a FileSystem value.
 */
module Paths {

  type Path = string

  /** The environment a path is checked against. */
  datatype FileSystem = FileSystem(
    pathExists: Path -> bool,
    isDirectory: Path -> bool,
    lexicallyNormal: Path -> Path)

  /** exists(p) && is_directory(p) for a non-empty p: the test every directory change makes. */
  predicate IsUsableDirectory(fs: FileSystem, p: Path)
  {
    p != "" && fs.pathExists(p) && fs.isDirectory(p)
  }

  /** The index of the last occurrence of ch in s, or -1. */
  function LastIndexOf(s: string, ch: char): (i: int)
    ensures -1 <= i < |s|
    ensures 0 <= i ==> s[i] == ch
    ensures forall j :: i < j < |s| ==> s[j] != ch
  {
    if |s| == 0 then -1
    else if s[|s| - 1] == ch then |s| - 1
    else LastIndexOf(s[..|s| - 1], ch)
  }

  /** path::filename(): the text after the last separator. */
  function Filename(p: Path): (f: Path)
    ensures NoSeparator(f)
  {
    p[LastIndexOf(p, '/') + 1..]
  }

  /** The string holds no '/'. */
  predicate NoSeparator(s: string)
  {
    forall j :: 0 <= j < |s| ==> s[j] != '/'
  }

  /** Everything before the filename: empty, or ending with a separator. */
  function DirectoryPart(p: Path): (d: Path)
    ensures d + Filename(p) == p
    ensures d == "" || d[|d| - 1] == '/'
  {
    var i := LastIndexOf(p, '/');
    p[..i + 1]
  }

  /** path::extension(): from the last '.' of the filename, unless that dot starts it; "." and ".." have none. */
  function Extension(p: Path): (e: Path)
    ensures e == "" || e[0] == '.'
  {
    NameExtension(Filename(p))
  }

  /** The extension of a single path element. */
  function NameExtension(f: Path): (e: Path)
    ensures e == "" || e[0] == '.'
    ensures |e| <= |f| && f[|f| - |e|..] == e
    ensures e != "" ==> |e| < |f|
    ensures forall j :: 1 <= j < |e| ==> e[j] != '.'
  {
    if f == "." || f == ".." then ""
    else
      var i := LastIndexOf(f, '.');
      if i <= 0 then "" else f[i..]
  }

  /** A single path element without its extension. */
  function NameStem(f: Path): (s: Path)
    ensures s + NameExtension(f) == f
    ensures NameExtension(f) != "" ==> s != ""
  {
    var e := NameExtension(f);
    f[..|f| - |e|]
  }

  /** path::stem(): the filename without its extension. */
  function Stem(p: Path): (s: Path)
    ensures s + Extension(p) == Filename(p)
    ensures Extension(p) != "" ==> s != ""
  {
    NameStem(Filename(p))
  }

  predicate HasExtension(p: Path)
  {
    Extension(p) != ""
  }

  /** The path with its extension removed (the first half of replace_extension). */
  function RemoveExtension(p: Path): (r: Path)
    ensures r + Extension(p) == p
  {
    var d, s := DirectoryPart(p), Stem(p);
    Regroup(d, s, Extension(p), Filename(p), p);
    d + s
  }

  lemma Regroup(d: Path, s: Path, e: Path, f: Path, p: Path)
    requires d + f == p && s + e == f
    ensures (d + s) + e == p
  {
    assert (d + s) + e == d + (s + e);
  }

  /** path::replace_extension(r): a '.' is inserted when r is non-empty and lacks one. */
  function ReplaceExtension(p: Path, r: Path): Path
  {
    RemoveExtension(p) + DottedExtension(r)
  }

  function DottedExtension(r: Path): (d: Path)
    ensures r == "" <==> d == ""
    ensures d != "" ==> d[0] == '.'
  {
    if r == "" then "" else if r[0] == '.' then r else "." + r
  }

  /** path::is_absolute() on POSIX: a root directory is present. */
  predicate IsAbsolute(p: Path)
  {
    |p| > 0 && p[0] == '/'
  }

  /** path::operator/: an absolute right operand replaces the left; a separator is added only after a filename. */
  function Join(a: Path, b: Path): (r: Path)
    ensures IsAbsolute(b) ==> r == b
    ensures !IsAbsolute(b) ==> r == a + (if Filename(a) != "" then "/" else "") + b
  {
    if IsAbsolute(b) then b
    else if Filename(a) != "" then a + "/" + b
    else a + b
  }

  /** path::root_path() on POSIX: "/" for an absolute path, empty otherwise. */
  function RootPath(p: Path): (r: Path)
    ensures IsAbsolute(p) <==> r == "/"
    ensures !IsAbsolute(p) <==> r == ""
  {
    if IsAbsolute(p) then "/" else ""
  }

  /** The path has something besides separators after its root. */
  predicate HasRelativePath(p: Path)
  {
    exists j :: 0 <= j < |p| && p[j] != '/'
  }

  /** The string with every trailing '/' removed. */
  function TrimTrailingSeparators(s: string): (t: string)
    ensures |t| <= |s| && s[..|t|] == t
    ensures t == "" || t[|t| - 1] != '/'
    ensures forall j :: |t| <= j < |s| ==> s[j] == '/'
  {
    if |s| == 0 || s[|s| - 1] != '/' then s else TrimTrailingSeparators(s[..|s| - 1])
  }

  /**
   * path::parent_path(): the path without its last element and the
   * separators before it. A path made only of separators is its own parent,
   * and a single relative element has the empty parent.
   */
  function ParentPath(p: Path): (q: Path)
    ensures |q| <= |p| && p[..|q|] == q
    ensures !HasRelativePath(p) ==> q == p
  {
    if !HasRelativePath(p) then p
    else
      var i := LastIndexOf(p, '/');
      if i < 0 then ""
      else
        var t := TrimTrailingSeparators(p[..i]);
        if t == "" then p[..1] else t
  }

  /** path::has_parent_path(). */
  predicate HasParentPath(p: Path)
  {
    ParentPath(p) != ""
  }

  /** Going up from a path with a relative part strictly shortens it, and stays absolute when it was. */
  lemma ParentShortens(p: Path)
    requires HasRelativePath(p)
    ensures |ParentPath(p)| < |p|
    ensures IsAbsolute(p) ==> IsAbsolute(ParentPath(p))
    ensures !IsAbsolute(p) ==> !IsAbsolute(ParentPath(p))
  {
    var i := LastIndexOf(p, '/');
    if 0 <= i {
      var t := TrimTrailingSeparators(p[..i]);
      if t != "" {
        assert p[..i][..|t|] == t;
      }
    }
  }

  /** The root "/" is its own parent, so going up from it stays at "/". */
  lemma RootIsItsOwnParent()
    ensures ParentPath("/") == "/" && HasParentPath("/")
  {
  }

  /** A single relative element such as "data" has no parent. */
  lemma SingleElementHasNoParent(p: Path)
    requires p != "" && forall j :: 0 <= j < |p| ==> p[j] != '/'
    ensures ParentPath(p) == "" && !HasParentPath(p)
  {
    assert p[0] != '/';
  }

  /** Replacing with a proper extension yields that extension and keeps the stem. */
  lemma {:induction false} ReplaceExtensionResult(p: Path, e: Path)
    requires Stem(p) != ""
    requires ProperExtension(e)
    ensures Extension(ReplaceExtension(p, e)) == e
    ensures Stem(ReplaceExtension(p, e)) == Stem(p)
  {
    var q, s := ReplaceExtension(p, e), Stem(p);
    FilenameOfReplaced(p, e);
    NameExtensionOfAppend(s, e);
    assert Extension(q) == e;
    assert (s + e)[..|s|] == s;
  }

  /** The filename after the replacement is the old stem followed by the new extension. */
  lemma FilenameOfReplaced(p: Path, e: Path)
    requires Stem(p) != ""
    requires ProperExtension(e)
    ensures Filename(ReplaceExtension(p, e)) == Stem(p) + e
  {
    var d, s := DirectoryPart(p), Stem(p);
    StemHasNoSeparator(p);
    ProperExtensionHasNoSeparator(e);
    NoSeparatorAppend(s, e);
    FilenameAfterSeparator(d, s + e);
    assert DottedExtension(e) == e;
    assert RemoveExtension(p) == d + s;
    assert (d + s) + e == d + (s + e);
  }

  lemma NoSeparatorAppend(a: string, b: string)
    requires NoSeparator(a) && NoSeparator(b)
    ensures NoSeparator(a + b)
  {
    forall j | 0 <= j < |a + b|
      ensures (a + b)[j] != '/'
    {
      if j >= |a| {
        assert (a + b)[j] == b[j - |a|];
      }
    }
  }

  lemma StemHasNoSeparator(p: Path)
    ensures NoSeparator(Stem(p))
  {
    var f := Filename(p);
    assert Stem(p) == f[..|Stem(p)|];
    assert NoSeparator(f);
  }

  /** A dot followed by at least one character, none of them a dot or a separator, such as ".ply". */
  predicate ProperExtension(e: Path)
  {
    |e| >= 2 && e[0] == '.' && forall j :: 1 <= j < |e| ==> e[j] != '.' && e[j] != '/'
  }

  lemma ProperExtensionHasNoSeparator(e: Path)
    requires ProperExtension(e)
    ensures NoSeparator(e)
  {
  }

  /** The extension of s+e is e when s is not empty and e is a proper extension. */
  lemma NameExtensionOfAppend(s: Path, e: Path)
    requires s != ""
    requires ProperExtension(e)
    ensures NameExtension(s + e) == e
  {
    DotSearchInSuffix(s, e);
    assert |s + e| >= 3;
    assert (s + e)[|s|..] == e;
  }

  /** The filename of d+x is x when d is empty or ends with a separator and x has none. */
  lemma FilenameAfterSeparator(d: Path, x: Path)
    requires d == "" || d[|d| - 1] == '/'
    requires NoSeparator(x)
    ensures Filename(d + x) == x
  {
    var q := d + x;
    forall j | |d| <= j < |q|
      ensures q[j] != '/'
    {
      assert q[j] == x[j - |d|];
    }
    if d != "" {
      assert q[|d| - 1] == '/';
    }
    assert q[|d|..] == x;
  }

  /** The last '.' of s+e is the first character of e when e has no other dot, at an index past 0. */
  lemma DotSearchInSuffix(s: Path, e: Path)
    requires s != ""
    requires |e| >= 1 && e[0] == '.'
    requires forall j :: 1 <= j < |e| ==> e[j] != '.'
    ensures LastIndexOf(s + e, '.') == |s|
  {
    var q := s + e;
    var i := LastIndexOf(q, '.');
    assert q[|s|] == '.';
    forall j | |s| < j < |q|
      ensures q[j] != '.'
    {
      assert q[j] == e[j - |s|];
    }
  }
}
