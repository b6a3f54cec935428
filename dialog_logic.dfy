/**
 * The value-level rules of the file dialog: multi-selection clicks, the
 * text shown for a selection, how confirmed paths are resolved, which paths
 * a confirmation gathers, the de-duplicated list of tree roots, and the size
 * column's unit choice.
 */
module DialogLogic {
  import opened Paths
  import opened Wrappers

  predicate NoDuplicates(s: seq<Path>)
  {
    forall i, j :: 0 <= i < j < |s| ==> s[i] != s[j]
  }

  // ----- multi-selection (FileDialogFileSelectView, a click on a file) -----

  /** std::find: the index of the first occurrence of x, or -1 when there is none. */
  function IndexOf(s: seq<Path>, x: Path): (i: int)
    ensures -1 <= i < |s|
    ensures 0 <= i ==> s[i] == x
    ensures i < 0 ==> x !in s
    ensures forall j :: 0 <= j < i ==> s[j] != x
  {
    if s == [] then -1
    else if s[0] == x then 0
    else
      var k := IndexOf(s[1..], x);
      if k < 0 then -1 else k + 1
  }

  /** The sequence with the element at index i cut out. */
  function Cut(s: seq<Path>, i: int): (r: seq<Path>)
    requires 0 <= i < |s|
    ensures |r| == |s| - 1
    ensures forall k :: 0 <= k < |r| ==> r[k] == s[if k < i then k else k + 1]
  {
    s[..i] + s[i + 1..]
  }

  /** std::vector::erase(std::find(...)) guarded by a membership test: removes the first occurrence of x, if any. */
  function Remove(s: seq<Path>, x: Path): (r: seq<Path>)
    ensures x !in s ==> r == s
    ensures x in s ==> |r| == |s| - 1
  {
    var i := IndexOf(s, x);
    if i < 0 then s else Cut(s, i)
  }

  /**
   * The multi-selection after a click on a file: a plain click selects only
   * that file; a click with Ctrl or Shift held toggles its membership.
   */
  function ClickSelection(selected: seq<Path>, entry: Path, additive: bool): (r: seq<Path>)
    ensures !additive ==> r == [entry]
  {
    if !additive then [entry]
    else if entry in selected then Remove(selected, entry)
    else selected + [entry]
  }

  /**
   * On a selection without duplicates, a click keeps it without duplicates,
   * and an additive click flips the clicked file's membership and leaves
   * every other file's membership as it was.
   */
  lemma ClickToggles(selected: seq<Path>, entry: Path, additive: bool)
    requires NoDuplicates(selected)
    ensures var r := ClickSelection(selected, entry, additive);
      NoDuplicates(r) &&
      (additive ==> (entry in r <==> entry !in selected)) &&
      (additive ==> forall y :: y != entry ==> (y in r <==> y in selected))
  {
    var r := ClickSelection(selected, entry, additive);
    if additive && entry in selected {
      var i := IndexOf(selected, entry);
      assert r == Cut(selected, i);
      forall a, b | 0 <= a < b < |r|
        ensures r[a] != r[b]
      {
        var a', b' := if a < i then a else a + 1, if b < i then b else b + 1;
        assert r[a] == selected[a'] && r[b] == selected[b'];
      }
      forall k | 0 <= k < |r|
        ensures r[k] != entry
      {
        var k' := if k < i then k else k + 1;
        assert r[k] == selected[k'];
      }
      forall y | y != entry
        ensures y in r <==> y in selected
      {
        if y in selected {
          var m :| 0 <= m < |selected| && selected[m] == y;
          var k := if m < i then m else m - 1;
          assert r[k] == y;
        }
        if y in r {
          var k :| 0 <= k < |r| && r[k] == y;
          var k' := if k < i then k else k + 1;
          assert selected[k'] == y;
        }
      }
    } else if additive {
      forall a, b | 0 <= a < b < |r|
        ensures r[a] != r[b]
      {
        if b == |selected| {
          assert r[a] == selected[a];
        }
      }
    }
  }

  /** Two additive clicks on a file that was not selected leave the selection as it was. */
  lemma AdditiveClickTwice(selected: seq<Path>, entry: Path)
    requires entry !in selected
    ensures ClickSelection(ClickSelection(selected, entry, true), entry, true) == selected
  {
    var s1 := selected + [entry];
    assert s1[|selected|] == entry;
    assert IndexOf(s1, entry) == |selected|;
    assert s1[..|selected|] == selected;
  }

  // ----- the bottom bar's file name text (setSelection) -----

  /** One file name between double quotes. */
  function Quote(p: Path): string
  {
    "\"" + Filename(p) + "\""
  }

  /** The quoted file names, separated by ", ", as the string stream builds them left to right. */
  function QuotedList(sel: seq<Path>): (s: string)
    decreases |sel|
  {
    if sel == [] then ""
    else if |sel| == 1 then Quote(sel[0])
    else QuotedList(sel[..|sel| - 1]) + ", " + Quote(sel[|sel| - 1])
  }

  /** Read from the front: the first quoted name, then ", " and the rest. */
  lemma {:induction false} QuotedListFront(sel: seq<Path>)
    requires |sel| >= 2
    ensures QuotedList(sel) == Quote(sel[0]) + ", " + QuotedList(sel[1..])
    decreases |sel|
  {
    var n := |sel|;
    if n > 2 {
      QuotedListFront(sel[..n - 1]);
      assert sel[..n - 1][1..] == sel[1..][..n - 2];
      assert sel[..n - 1][0] == sel[0];
    } else {
      assert sel[..1] == [sel[0]];
      assert sel[1..] == [sel[1]];
    }
  }

  /** The text a non-empty selection puts in the file name field: the bare name of a single file, quoted names otherwise. */
  function SelectionLabel(sel: seq<Path>): (s: string)
    requires sel != []
    ensures |sel| == 1 ==> s == Filename(sel[0])
    ensures 2 <= |sel| ==> s == Quote(sel[0]) + ", " + QuotedList(sel[1..])
  {
    if |sel| == 1 then Filename(sel[0])
    else
      QuotedListFront(sel);
      QuotedList(sel)
  }

  // ----- confirmSelection -----

  /** A relative path is taken relative to the current directory. */
  function Absolute(p: Path, current: Path): (a: Path)
    ensures IsAbsolute(p) ==> a == p
  {
    if IsAbsolute(p) then p else Join(current, p)
  }

  /** The confirmed list: empty entries are skipped, the rest made absolute and lexically normalised, in order. */
  function Resolve(paths: seq<Path>, current: Path, normal: Path -> Path): (r: seq<Path>)
    ensures |r| <= |paths|
    ensures r == [] <==> forall i :: 0 <= i < |paths| ==> paths[i] == ""
    decreases |paths|
  {
    if paths == [] then []
    else
      var last := paths[|paths| - 1];
      Resolve(paths[..|paths| - 1], current, normal) + (if last == "" then [] else [normal(Absolute(last, current))])
  }

  /** Resolving a concatenation resolves each part. */
  lemma {:induction false} ResolveAppend(a: seq<Path>, b: seq<Path>, current: Path, normal: Path -> Path)
    ensures Resolve(a + b, current, normal) == Resolve(a, current, normal) + Resolve(b, current, normal)
    decreases |b|
  {
    if b != [] {
      var b' := b[..|b| - 1];
      ResolveAppend(a, b', current, normal);
      assert (a + b)[..|a + b| - 1] == a + b';
      assert (a + b)[|a + b| - 1] == b[|b| - 1];
      var tail := if b[|b| - 1] == "" then [] else [normal(Absolute(b[|b| - 1], current))];
      assert Resolve(a + b, current, normal) == Resolve(a + b', current, normal) + tail;
      assert Resolve(b, current, normal) == Resolve(b', current, normal) + tail;
    } else {
      assert a + b == a;
    }
  }

  /** The first confirmed path comes from the first non-empty entry. */
  lemma ResolveFirst(paths: seq<Path>, current: Path, normal: Path -> Path, k: int)
    requires 0 <= k < |paths| && paths[k] != ""
    requires forall i :: 0 <= i < k ==> paths[i] == ""
    ensures Resolve(paths, current, normal)[0] == normal(Absolute(paths[k], current))
  {
    assert paths == paths[..k] + ([paths[k]] + paths[k + 1..]);
    ResolveAppend(paths[..k], [paths[k]] + paths[k + 1..], current, normal);
    ResolveAppend([paths[k]], paths[k + 1..], current, normal);
    assert Resolve(paths[..k], current, normal) == [];
    assert Resolve([paths[k]], current, normal) == [normal(Absolute(paths[k], current))] by {
      assert [paths[k]][..0] == [];
    }
  }

  /** The last confirmed path comes from the last non-empty entry. */
  lemma ResolveLast(paths: seq<Path>, current: Path, normal: Path -> Path, k: int)
    requires 0 <= k < |paths| && paths[k] != ""
    requires forall i :: k < i < |paths| ==> paths[i] == ""
    ensures var r := Resolve(paths, current, normal); r[|r| - 1] == normal(Absolute(paths[k], current))
  {
    assert paths == (paths[..k] + [paths[k]]) + paths[k + 1..];
    ResolveAppend(paths[..k] + [paths[k]], paths[k + 1..], current, normal);
    assert Resolve(paths[k + 1..], current, normal) == [];
    assert (paths[..k] + [paths[k]])[..k] == paths[..k];
  }

  /** Absolute entries resolve the same whatever the current directory is. */
  lemma {:induction false} ResolveAbsoluteIgnoresCurrent(paths: seq<Path>, c1: Path, c2: Path, normal: Path -> Path)
    requires forall i :: 0 <= i < |paths| ==> paths[i] == "" || IsAbsolute(paths[i])
    ensures Resolve(paths, c1, normal) == Resolve(paths, c2, normal)
    decreases |paths|
  {
    if paths != [] {
      ResolveAbsoluteIgnoresCurrent(paths[..|paths| - 1], c1, c2, normal);
    }
  }

  /**
   * The candidate list an Open confirmation gathers: the multi-selection when
   * multi-select is on and something is selected; otherwise the typed name;
   * otherwise any selection; otherwise the last selected file, or failing
   * that the current directory.
   */
  function Selections(multiSelect: bool, selectedFiles: seq<Path>, typedName: string, selectedFile: Path, current: Path): (r: seq<Path>)
    ensures r != []
  {
    if multiSelect && selectedFiles != [] then selectedFiles
    else if typedName != "" then [typedName]
    else if selectedFiles != [] then selectedFiles
    else if selectedFile != "" then [selectedFile]
    else [current]
  }

  /** In single-select mode a typed name always wins over the highlighted files. */
  lemma TypedNameWinsInSingleSelect(selectedFiles: seq<Path>, typedName: string, selectedFile: Path, current: Path)
    requires typedName != ""
    ensures Selections(false, selectedFiles, typedName, selectedFile, current) == [typedName]
  {
  }

  // ----- the hierarchy view's root list (ensureRootEntry, refreshSystemRoots) -----

  /** The entry ensureRootEntry considers: the root path of a rooted path, the path itself otherwise. */
  function RootCandidate(path: Path): (c: Path)
    ensures IsAbsolute(path) ==> c == "/"
    ensures !IsAbsolute(path) ==> c == path
  {
    if IsAbsolute(path) then RootPath(path) else path
  }

  /** Some entry normalises to the same path as the candidate. */
  predicate KnownRoot(entries: seq<Path>, candidate: Path, normal: Path -> Path)
  {
    exists i :: 0 <= i < |entries| && normal(entries[i]) == normal(candidate)
  }

  /** No two entries normalise to the same path. */
  predicate DistinctRoots(entries: seq<Path>, normal: Path -> Path)
  {
    forall i, j :: 0 <= i < j < |entries| ==> normal(entries[i]) != normal(entries[j])
  }

  /** The root list after ensureRootEntry(path). */
  function WithRoot(entries: seq<Path>, path: Path, fs: FileSystem): (r: seq<Path>)
    ensures |entries| <= |r| <= |entries| + 1 && r[..|entries|] == entries
    ensures path == "" ==> r == entries
    ensures |r| == |entries| + 1 ==> r[|entries|] == RootCandidate(path) && fs.pathExists(RootCandidate(path))
  {
    if path == "" then entries
    else
      var c := RootCandidate(path);
      if !KnownRoot(entries, c, fs.lexicallyNormal) && fs.pathExists(c) then entries + [c] else entries
  }

  /** ensureRootEntry keeps the roots distinct under normalisation. */
  lemma WithRootKeepsDistinct(entries: seq<Path>, path: Path, fs: FileSystem)
    requires DistinctRoots(entries, fs.lexicallyNormal)
    ensures DistinctRoots(WithRoot(entries, path, fs), fs.lexicallyNormal)
  {
    var r := WithRoot(entries, path, fs);
    if |r| == |entries| + 1 {
      var c := RootCandidate(path);
      assert !KnownRoot(entries, c, fs.lexicallyNormal);
      forall i, j | 0 <= i < j < |r|
        ensures fs.lexicallyNormal(r[i]) != fs.lexicallyNormal(r[j])
      {
        if j == |entries| {
          assert r[i] == entries[i];
        }
      }
    }
  }

  /** Ensuring the same root twice adds it at most once. */
  lemma WithRootIdempotent(entries: seq<Path>, path: Path, fs: FileSystem)
    ensures WithRoot(WithRoot(entries, path, fs), path, fs) == WithRoot(entries, path, fs)
  {
    var r := WithRoot(entries, path, fs);
    if |r| == |entries| + 1 {
      assert KnownRoot(r, RootCandidate(path), fs.lexicallyNormal) by {
        assert r[|entries|] == RootCandidate(path);
      }
    } else if path != "" && KnownRoot(entries, RootCandidate(path), fs.lexicallyNormal) {
      var i :| 0 <= i < |entries| && fs.lexicallyNormal(entries[i]) == fs.lexicallyNormal(RootCandidate(path));
      assert r[i] == entries[i];
    }
  }

  /** The roots refreshSystemRoots lists on a POSIX system: "/", then the home directory's root, then the user root's. */
  function SystemRoots(home: Option<Path>, userRoot: Path, fs: FileSystem): (r: seq<Path>)
    ensures 1 <= |r| <= 3 && r[0] == "/"
  {
    var withHome := if home.Some? && IsUsableDirectory(fs, home.value) then WithRoot(["/"], home.value, fs) else ["/"];
    WithRoot(withHome, userRoot, fs)
  }

  /** Absolute home and user roots add nothing: both reduce to "/", which is already listed. */
  lemma AbsoluteRootsCollapse(home: Option<Path>, userRoot: Path, fs: FileSystem)
    requires home.Some? ==> IsAbsolute(home.value)
    requires userRoot == "" || IsAbsolute(userRoot)
    ensures SystemRoots(home, userRoot, fs) == ["/"]
  {
    assert KnownRoot(["/"], "/", fs.lexicallyNormal) by {
      assert ["/"][0] == "/";
    }
  }

  /** The system roots are distinct under normalisation. */
  lemma SystemRootsDistinct(home: Option<Path>, userRoot: Path, fs: FileSystem)
    ensures DistinctRoots(SystemRoots(home, userRoot, fs), fs.lexicallyNormal)
  {
    var withHome := if home.Some? && IsUsableDirectory(fs, home.value) then WithRoot(["/"], home.value, fs) else ["/"];
    if home.Some? && IsUsableDirectory(fs, home.value) {
      WithRootKeepsDistinct(["/"], home.value, fs);
    }
    WithRootKeepsDistinct(withHome, userRoot, fs);
  }

  // ----- FormatFileSize -----

  const Units: seq<string> := ["B", "KB", "MB", "GB", "TB"]

  function Pow1024(k: nat): (p: nat)
    ensures 1 <= p
  {
    if k == 0 then 1 else 1024 * Pow1024(k - 1)
  }

  /**
   * The unit a size is shown in: the largest power of 1024 not above the
   * size, capped at terabytes.
   */
  function UnitIndex(size: nat): (k: nat)
    ensures k < |Units|
    ensures 0 < k ==> Pow1024(k) <= size
    ensures k < |Units| - 1 ==> size < Pow1024(k + 1)
  {
    if size < 1024 then 0
    else
      var k' := UnitIndex(size / 1024);
      UnitIndexStep(size, k');
      if k' + 1 < |Units| then k' + 1 else |Units| - 1
  }

  lemma UnitIndexStep(size: nat, k': nat)
    requires 1024 <= size
    requires 0 < k' ==> Pow1024(k') <= size / 1024
    requires k' < |Units| - 1 ==> size / 1024 < Pow1024(k' + 1)
    ensures Pow1024(k' + 1) <= size
    ensures k' + 1 < |Units| - 1 ==> size < Pow1024(k' + 2)
    ensures |Units| - 1 <= k' + 1 ==> Pow1024(|Units| - 1) <= size
  {
    var q := size / 1024;
    assert 1024 * q <= size < 1024 * q + 1024;
    if k' + 1 < |Units| - 1 {
      assert q + 1 <= Pow1024(k' + 1);
    }
    if |Units| - 1 <= k' + 1 {
      PowMonotone(|Units| - 1, k' + 1);
    }
  }

  lemma {:induction false} PowMonotone(i: nat, j: nat)
    requires i <= j
    ensures Pow1024(i) <= Pow1024(j)
    decreases j
  {
    if i < j {
      PowMonotone(i, j - 1);
    }
  }

  /** Any index meeting UnitIndex's two bounds is UnitIndex. */
  lemma UnitIndexUnique(size: nat, k: nat)
    requires k < |Units|
    requires 0 < k ==> Pow1024(k) <= size
    requires k < |Units| - 1 ==> size < Pow1024(k + 1)
    ensures k == UnitIndex(size)
  {
    var u := UnitIndex(size);
    if k < u {
      PowMonotone(k + 1, u);
    } else if u < k {
      PowMonotone(u + 1, k);
    }
  }

  /** The size as a double, divided k times by 1024. */
  function ScaledDown(size: nat, k: nat): real
  {
    if k == 0 then size as real else ScaledDown(size, k - 1) / 1024.0
  }

  /** Comparing the scaled value with c is comparing the size with c times 1024^k. */
  lemma {:induction false} ScaledDownCompare(size: nat, k: nat, c: real)
    ensures ScaledDown(size, k) >= c <==> size as real >= c * Pow1024(k) as real
    decreases k
  {
    if k > 0 {
      ScaledDownCompare(size, k - 1, 1024.0 * c);
      assert (1024.0 * c) * Pow1024(k - 1) as real == c * Pow1024(k) as real;
    }
  }

  /**
   * FormatFileSize(size): divides by 1024 while the value is at least 1024
   * and a larger unit remains, then prints the value with 0 decimals in bytes
   * and 1 decimal otherwise, a space and the unit. `fixed` stands for the
   * stream's fixed-point formatting with the given precision.
   */
  method FormatFileSize(size: nat, fixed: (real, nat) -> string) returns (s: string)
    ensures var k := UnitIndex(size);
      s == fixed(ScaledDown(size, k), if k == 0 then 0 else 1) + " " + Units[k]
  {
    var value := size as real;
    var unitIdx := 0;
    while value >= 1024.0 && unitIdx < |Units| - 1
      invariant unitIdx < |Units|
      invariant value == ScaledDown(size, unitIdx)
      invariant 0 < unitIdx ==> Pow1024(unitIdx) <= size
      decreases |Units| - unitIdx
    {
      ScaledDownCompare(size, unitIdx, 1024.0);
      value := value / 1024.0;
      unitIdx := unitIdx + 1;
    }
    ScaledDownCompare(size, unitIdx, 1024.0);
    UnitIndexUnique(size, unitIdx);
    s := fixed(value, if unitIdx == 0 then 0 else 1) + " " + Units[unitIdx];
  }
}
