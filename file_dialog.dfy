/**
 * The file dialog's components and the dialog itself, as objects whose
 * fields the methods update: the hierarchy view (tree roots and the selected
 * directory), the file list (current directory, filter, selection), the top
 * bar (path field), the bottom bar (file name field and the one-shot Open and
 * Cancel flags) and the dialog (navigation history, confirmation results,
 * visibility). Filesystem queries come in through a FileSystem value; ImGui
 * events (clicks, typing, the window's close button) are method calls.
 */
module FileDialogs {
  import opened Wrappers
  import opened Paths
  import opened CBuffer
  import opened DialogHistory
  import opened DialogLogic

  /** Buffer sizes of the path field and the file name field. */
  const PathBufferSize := 512
  const FilenameBufferSize := 260

  // ----- FileDialogHierarchyView -----

  class HierarchyView {
    var rootEntries: seq<Path>
    var userRoot: Path
    var selectedDirectory: Path

    constructor ()
      ensures rootEntries == [] && userRoot == "" && selectedDirectory == ""
    {
      rootEntries := [];
      userRoot := "";
      selectedDirectory := "";
    }

    /** ensureRootEntry(path): adds the path's root (or the path itself) unless an entry normalises to it or it does not exist. */
    method EnsureRootEntry(path: Path, fs: FileSystem)
      modifies this
      ensures rootEntries == WithRoot(old(rootEntries), path, fs)
      ensures userRoot == old(userRoot) && selectedDirectory == old(selectedDirectory)
    {
      if path == "" {
        return;
      }
      var candidate := if IsAbsolute(path) then RootPath(path) else path;
      var normalized := fs.lexicallyNormal(candidate);
      var i := 0;
      while i < |rootEntries| && fs.lexicallyNormal(rootEntries[i]) != normalized
        invariant 0 <= i <= |rootEntries|
        invariant forall j :: 0 <= j < i ==> fs.lexicallyNormal(rootEntries[j]) != normalized
      {
        i := i + 1;
      }
      if i == |rootEntries| && fs.pathExists(candidate) {
        rootEntries := rootEntries + [candidate];
      }
    }

    /** refreshSystemRoots on a POSIX system; `home` is the HOME variable, None when unset. */
    method RefreshSystemRoots(home: Option<Path>, fs: FileSystem)
      modifies this
      ensures rootEntries == SystemRoots(home, userRoot, fs)
      ensures userRoot == old(userRoot) && selectedDirectory == old(selectedDirectory)
    {
      rootEntries := ["/"];
      if home.Some? && fs.pathExists(home.value) && fs.isDirectory(home.value) {
        EnsureRootEntry(home.value, fs);
      }
      if userRoot != "" {
        EnsureRootEntry(userRoot, fs);
      }
    }

    /** setRoot(path): remembers it as the user root, lists its root and selects it. */
    method SetRoot(path: Path, fs: FileSystem)
      modifies this
      ensures userRoot == path && selectedDirectory == path
      ensures rootEntries == WithRoot(old(rootEntries), path, fs)
    {
      userRoot := path;
      EnsureRootEntry(path, fs);
      selectedDirectory := userRoot;
    }

    /** setSelectedDirectory(path): ignored for an empty path. */
    method SetSelectedDirectory(path: Path, fs: FileSystem)
      modifies this
      ensures path == "" ==> rootEntries == old(rootEntries) && selectedDirectory == old(selectedDirectory)
      ensures path != "" ==> rootEntries == WithRoot(old(rootEntries), path, fs) && selectedDirectory == path
      ensures userRoot == old(userRoot)
    {
      if path == "" {
        return;
      }
      EnsureRootEntry(path, fs);
      selectedDirectory := path;
    }

    /** A click on a tree node selects its directory. */
    method ClickNode(path: Path)
      modifies this
      ensures selectedDirectory == path
      ensures rootEntries == old(rootEntries) && userRoot == old(userRoot)
    {
      selectedDirectory := path;
    }
  }

  // ----- FileDialogFileSelectView -----

  /** A directory_entry as the file list sees it. */
  datatype DirEntry = DirEntry(path: Path, isDirectory: bool, isRegularFile: bool)

  /** The extension filter hides regular files whose extension differs; directories and other entries always show. */
  predicate Shown(e: DirEntry, filter: Path)
  {
    filter == "" || !e.isRegularFile || Extension(e.path) == filter
  }

  /** The entries the list keeps, in enumeration order. */
  function Listing(entries: seq<DirEntry>, filter: Path): (r: seq<DirEntry>)
    ensures |r| <= |entries|
    decreases |entries|
  {
    if entries == [] then []
    else
      var last := entries[|entries| - 1];
      Listing(entries[..|entries| - 1], filter) + (if Shown(last, filter) then [last] else [])
  }

  /** An entry is listed exactly when it is enumerated and the filter shows it. */
  lemma {:induction false} ListingMembership(entries: seq<DirEntry>, filter: Path, e: DirEntry)
    ensures e in Listing(entries, filter) <==> e in entries && Shown(e, filter)
    decreases |entries|
  {
    if entries != [] {
      var init, last := entries[..|entries| - 1], entries[|entries| - 1];
      ListingMembership(init, filter, e);
      assert Listing(entries, filter) == Listing(init, filter) + (if Shown(last, filter) then [last] else []);
      assert entries == init + [last];
      assert e in entries <==> e in init || e == last;
    }
  }

  /** With no filter every entry is listed. */
  lemma {:induction false} EmptyFilterListsAll(entries: seq<DirEntry>)
    ensures Listing(entries, "") == entries
    decreases |entries|
  {
    if entries != [] {
      EmptyFilterListsAll(entries[..|entries| - 1]);
    }
  }

  class FileSelectView {
    var multiSelectable: bool
    var currentDir: Path
    var extensionFilter: Path
    var selectedFile: Path
    var selectedFiles: seq<Path>

    /** Starts in single-select mode with nothing selected. */
    constructor ()
      ensures !multiSelectable && currentDir == "" && extensionFilter == ""
      ensures selectedFile == "" && selectedFiles == []
    {
      multiSelectable := false;
      currentDir := "";
      extensionFilter := "";
      selectedFile := "";
      selectedFiles := [];
    }

    /** setCurrentDirectory(path): a new directory clears the selection. */
    method SetCurrentDirectory(path: Path)
      modifies this
      ensures currentDir == path && selectedFile == "" && selectedFiles == []
      ensures multiSelectable == old(multiSelectable) && extensionFilter == old(extensionFilter)
    {
      currentDir := path;
      selectedFile := "";
      selectedFiles := [];
    }

    /** setExtensionFilter(ext): a new filter clears the selection. */
    method SetExtensionFilter(ext: Path)
      modifies this
      ensures extensionFilter == ext && selectedFile == "" && selectedFiles == []
      ensures multiSelectable == old(multiSelectable) && currentDir == old(currentDir)
    {
      extensionFilter := ext;
      selectedFile := "";
      selectedFiles := [];
    }

    /** setMultiSelectable(enable): leaving multi-select mode clears the multi-selection. */
    method SetMultiSelectable(enable: bool)
      modifies this
      ensures multiSelectable == enable
      ensures selectedFiles == (if enable then old(selectedFiles) else [])
      ensures currentDir == old(currentDir) && extensionFilter == old(extensionFilter) && selectedFile == old(selectedFile)
    {
      multiSelectable := enable;
      if !multiSelectable {
        selectedFiles := [];
      }
    }

    /** The enumeration loop of draw(): keeps the entries the filter shows, in order. */
    method ListEntries(entries: seq<DirEntry>) returns (listed: seq<DirEntry>)
      ensures listed == Listing(entries, extensionFilter)
    {
      listed := [];
      for i := 0 to |entries|
        invariant listed == Listing(entries[..i], extensionFilter)
      {
        assert entries[..i + 1][..i] == entries[..i];
        var entry := entries[i];
        if extensionFilter != "" && entry.isRegularFile && Extension(entry.path) != extensionFilter {
          continue;
        }
        listed := listed + [entry];
      }
      assert entries[..|entries|] == entries;
    }

    /**
     * A click on a row. A directory clears the selection. A file becomes the
     * selected file; in multi-select mode the multi-selection follows
     * ClickSelection. The result tells whether the file-selected callback fires.
     */
    method Click(entry: Path, isDir: bool, additive: bool) returns (fileSelected: bool)
      modifies this
      ensures fileSelected == !isDir
      ensures isDir ==> selectedFile == "" && selectedFiles == []
      ensures !isDir ==> selectedFile == entry
      ensures !isDir ==> selectedFiles == (if multiSelectable then ClickSelection(old(selectedFiles), entry, additive) else old(selectedFiles))
      ensures multiSelectable == old(multiSelectable) && currentDir == old(currentDir) && extensionFilter == old(extensionFilter)
    {
      if isDir {
        selectedFile := "";
        selectedFiles := [];
        return false;
      }
      if multiSelectable {
        if !additive {
          selectedFiles := [];
        }
        var i := 0;
        while i < |selectedFiles| && selectedFiles[i] != entry
          invariant 0 <= i <= |selectedFiles|
          invariant forall j :: 0 <= j < i ==> selectedFiles[j] != entry
        {
          i := i + 1;
        }
        if additive && i < |selectedFiles| {
          assert IndexOf(selectedFiles, entry) == i by {
            IndexOfIsFirst(selectedFiles, entry, i);
          }
          selectedFiles := selectedFiles[..i] + selectedFiles[i + 1..];
        } else {
          selectedFiles := selectedFiles + [entry];
        }
      }
      selectedFile := entry;
      return true;
    }
  }

  /** The first index holding x is the one std::find returns. */
  lemma IndexOfIsFirst(s: seq<Path>, x: Path, i: int)
    requires 0 <= i < |s| && s[i] == x
    requires forall j :: 0 <= j < i ==> s[j] != x
    ensures IndexOf(s, x) == i
  {
    var k := IndexOf(s, x);
    assert x in s;
  }

  /** The string-stream loop of setSelection: quoted file names separated by ", ". */
  method JoinQuoted(selection: seq<Path>) returns (text: string)
    ensures text == QuotedList(selection)
  {
    text := "";
    for i := 0 to |selection|
      invariant text == QuotedList(selection[..i])
    {
      if i > 0 {
        text := text + ", ";
      }
      text := text + "\"" + Filename(selection[i]) + "\"";
      assert selection[..i + 1][..i] == selection[..i];
    }
    assert selection[..|selection|] == selection;
  }

  /** The loop of confirmSelection: skips empty entries, joins relative ones onto the current directory, normalises. */
  method ResolvePaths(paths: seq<Path>, current: Path, fs: FileSystem) returns (confirmed: seq<Path>)
    ensures confirmed == Resolve(paths, current, fs.lexicallyNormal)
  {
    confirmed := [];
    for i := 0 to |paths|
      invariant confirmed == Resolve(paths[..i], current, fs.lexicallyNormal)
    {
      assert paths[..i + 1][..i] == paths[..i];
      if paths[i] == "" {
        continue;
      }
      var candidate := paths[i];
      if !IsAbsolute(candidate) {
        candidate := Join(current, candidate);
      }
      candidate := fs.lexicallyNormal(candidate);
      confirmed := confirmed + [candidate];
    }
    assert paths[..|paths|] == paths;
  }

  // ----- FileDialogTopbar -----

  class Topbar {
    var currentPath: Path
    const pathBuffer: array<char>

    constructor ()
      ensures currentPath == "" && fresh(pathBuffer) && pathBuffer.Length == PathBufferSize
      ensures TypedPath() == ""
    {
      currentPath := "";
      pathBuffer := new char[PathBufferSize](_ => '\0');
    }

    /** The text of the path field: the C string in the buffer. */
    function TypedPath(): string
      reads this, pathBuffer
    {
      CString(pathBuffer[..])
    }

    /** setCurrentPath(path): records it and refills the field, truncated to the buffer. */
    method SetCurrentPath(path: Path)
      requires 1 <= pathBuffer.Length
      modifies this, pathBuffer
      ensures currentPath == path
      ensures TypedPath() == Truncated(path, pathBuffer.Length)
    {
      currentPath := path;
      CopyTruncated(pathBuffer, path);
    }

    /** Typing into the path field: the buffer takes as much of the text as fits. */
    method Type(text: string)
      requires 1 <= pathBuffer.Length
      modifies pathBuffer
      ensures TypedPath() == Truncated(text, pathBuffer.Length)
    {
      CopyTruncated(pathBuffer, text);
    }
  }

  // ----- FileDialogBottombar -----

  class Bottombar {
    var currentDirectory: Path
    var filenameInput: string
    var confirmed: bool
    var cancelled: bool
    const filenameBuffer: array<char>
    var selectedFiles: seq<Path>

    /** Both flags start false and the field starts empty. */
    constructor ()
      ensures currentDirectory == "" && filenameInput == "" && !confirmed && !cancelled && selectedFiles == []
      ensures fresh(filenameBuffer) && filenameBuffer.Length == FilenameBufferSize && FieldText() == ""
    {
      currentDirectory := "";
      filenameInput := "";
      confirmed := false;
      cancelled := false;
      selectedFiles := [];
      filenameBuffer := new char[FilenameBufferSize](_ => '\0');
    }

    /** The text of the file name field. */
    function FieldText(): string
      reads this, filenameBuffer
    {
      CString(filenameBuffer[..])
    }

    method SetDirectory(path: Path)
      modifies this
      ensures currentDirectory == path
      ensures filenameInput == old(filenameInput) && confirmed == old(confirmed) && cancelled == old(cancelled)
      ensures selectedFiles == old(selectedFiles)
    {
      currentDirectory := path;
    }

    /** setFilename(name): the input becomes the name and the field shows it, truncated to the buffer. */
    method SetFilename(name: string)
      requires 1 <= filenameBuffer.Length
      modifies this, filenameBuffer
      ensures filenameInput == name && FieldText() == Truncated(name, filenameBuffer.Length)
      ensures currentDirectory == old(currentDirectory) && confirmed == old(confirmed) && cancelled == old(cancelled)
      ensures selectedFiles == old(selectedFiles)
    {
      filenameInput := name;
      CopyTruncated(filenameBuffer, filenameInput);
    }

    /**
     * setSelection(selection): records it; an empty selection leaves the
     * field alone, otherwise the field shows SelectionLabel.
     */
    method SetSelection(selection: seq<Path>)
      requires 1 <= filenameBuffer.Length
      modifies this, filenameBuffer
      ensures selectedFiles == selection
      ensures selection == [] ==> filenameInput == old(filenameInput) && filenameBuffer[..] == old(filenameBuffer[..])
      ensures selection != [] ==> filenameInput == SelectionLabel(selection)
      ensures selection != [] ==> FieldText() == Truncated(SelectionLabel(selection), filenameBuffer.Length)
      ensures currentDirectory == old(currentDirectory) && confirmed == old(confirmed) && cancelled == old(cancelled)
    {
      selectedFiles := selection;
      if selectedFiles == [] {
        return;
      }
      if |selectedFiles| == 1 {
        SetFilename(Filename(selectedFiles[0]));
      } else {
        filenameInput := JoinQuoted(selectedFiles);
        CopyTruncated(filenameBuffer, filenameInput);
      }
    }

    /** consumeConfirmed: reports the Open press once, with the typed name; otherwise leaves the caller's string. */
    method ConsumeConfirmed(outFilename: string) returns (ok: bool, name: string)
      modifies this
      ensures ok == old(confirmed) && !confirmed
      ensures name == (if ok then filenameInput else outFilename)
      ensures cancelled == old(cancelled) && filenameInput == old(filenameInput)
      ensures currentDirectory == old(currentDirectory) && selectedFiles == old(selectedFiles)
    {
      if !confirmed {
        return false, outFilename;
      }
      confirmed := false;
      return true, filenameInput;
    }

    /** consumeCancelled: reports the Cancel press once. */
    method ConsumeCancelled() returns (ok: bool)
      modifies this
      ensures ok == old(cancelled) && !cancelled
      ensures confirmed == old(confirmed) && filenameInput == old(filenameInput)
      ensures currentDirectory == old(currentDirectory) && selectedFiles == old(selectedFiles)
    {
      if !cancelled {
        return false;
      }
      cancelled := false;
      return true;
    }

    /** The Open button. */
    method PressOpen()
      modifies this
      ensures confirmed && cancelled == old(cancelled) && filenameInput == old(filenameInput)
      ensures currentDirectory == old(currentDirectory) && selectedFiles == old(selectedFiles)
    {
      confirmed := true;
    }

    /** The Cancel button. */
    method PressCancel()
      modifies this
      ensures cancelled && confirmed == old(confirmed) && filenameInput == old(filenameInput)
      ensures currentDirectory == old(currentDirectory) && selectedFiles == old(selectedFiles)
    {
      cancelled := true;
    }

    /** Typing into the file name field: the buffer takes what fits and the input follows the buffer. */
    method Type(text: string)
      requires 1 <= filenameBuffer.Length
      modifies this, filenameBuffer
      ensures filenameInput == Truncated(text, filenameBuffer.Length) && FieldText() == filenameInput
      ensures currentDirectory == old(currentDirectory) && confirmed == old(confirmed) && cancelled == old(cancelled)
      ensures selectedFiles == old(selectedFiles)
    {
      CopyTruncated(filenameBuffer, text);
      filenameInput := CString(filenameBuffer[..]);
    }
  }

  /** A press of Open is reported by exactly one of two consecutive consumeConfirmed calls: the first. */
  method ConsumeConfirmedIsOneShot(bar: Bottombar) returns (first: bool, second: bool)
    modifies bar
    ensures first == old(bar.confirmed) && !second && !bar.confirmed
  {
    var name;
    first, name := bar.ConsumeConfirmed("");
    second, name := bar.ConsumeConfirmed(name);
  }

  /** Likewise for Cancel. */
  method ConsumeCancelledIsOneShot(bar: Bottombar) returns (first: bool, second: bool)
    modifies bar
    ensures first == old(bar.cancelled) && !second && !bar.cancelled
  {
    first := bar.ConsumeCancelled();
    second := bar.ConsumeCancelled();
  }

  // ----- FileDialog -----

  /** The dialog's result fields: the confirmed list and path, the selected file, and whether it is shown. */
  datatype Outcome = Outcome(list: seq<Path>, path: Path, selected: Path, visible: bool)

  /**
   * What confirmSelection(paths) leaves in the result fields: an empty list
   * changes nothing; otherwise the list becomes the resolved paths and, when
   * there are any, the first is the result, the last the selected file, and
   * the dialog hides.
   */
  function ConfirmOutcome(paths: seq<Path>, current: Path, normal: Path -> Path, before: Outcome): Outcome
  {
    if paths == [] then before
    else
      var r := Resolve(paths, current, normal);
      if r == [] then before.(list := []) else Outcome(r, r[0], r[|r| - 1], false)
  }

  /** The candidates a double-click on a file confirms: the multi-selection when there is one, else the file. */
  function ActivationPaths(multiSelect: bool, selectedFiles: seq<Path>, file: Path): seq<Path>
  {
    if multiSelect && selectedFiles != [] then selectedFiles else if file == "" then [] else [file]
  }

  /**
   * Confirming a list with a non-empty entry hides the dialog and makes the
   * first and last non-empty entries, resolved, the result and the selected
   * file; a list of empty entries only clears the confirmed list.
   */
  lemma ConfirmOutcomeEnds(paths: seq<Path>, current: Path, normal: Path -> Path, before: Outcome,
                             i: nat, j: nat)
    requires i <= j < |paths| && paths[i] != "" && paths[j] != ""
    requires forall k :: 0 <= k < i ==> paths[k] == ""
    requires forall k :: j < k < |paths| ==> paths[k] == ""
    ensures var o := ConfirmOutcome(paths, current, normal, before);
      !o.visible && o.path == normal(Absolute(paths[i], current)) && o.selected == normal(Absolute(paths[j], current)) &&
      o.list == Resolve(paths, current, normal)
  {
    ResolveFirst(paths, current, normal, i);
    ResolveLast(paths, current, normal, j);
  }


  class FileDialog {
    const hierarchy: HierarchyView
    const fileSelect: FileSelectView
    const topbar: Topbar
    const bottombar: Bottombar

    var rootDirectory: Path
    var currentDirectory: Path
    var selectedFile: Path
    var lastConfirmedPath: Path
    var lastConfirmedList: seq<Path>
    var history: seq<Path>
    var historyCursor: int
    var isVisible: bool
    var multiSelectEnabled: bool

    /** Everything the dialog's methods may change. */
    ghost function Repr(): set<object>
      reads this
    {
      {this, hierarchy, fileSelect, topbar, topbar.pathBuffer, bottombar, bottombar.filenameBuffer}
    }

    /** The result fields as one value. */
    function Result(): Outcome
      reads this
    {
      Outcome(lastConfirmedList, lastConfirmedPath, selectedFile, isVisible)
    }

    /** The history and its cursor. */
    ghost function NavState(): Nav
      reads this
    {
      Nav(history, historyCursor)
    }

    ghost predicate Valid()
      reads this, fileSelect
    {
      NavValid(NavState()) &&
      topbar.pathBuffer.Length == PathBufferSize &&
      bottombar.filenameBuffer.Length == FilenameBufferSize &&
      fileSelect.multiSelectable == multiSelectEnabled
    }

    /**
     * The constructor: the root directory is the working directory (or "."
     * when it cannot be read), the roots are refreshed, and the root
     * directory is set, which pushes it as the only history entry when it is
     * a usable directory.
     */
    constructor (cwd: Option<Path>, home: Option<Path>, fs: FileSystem)
      ensures Valid() && fresh(Repr())
      ensures var root := if cwd.Some? then cwd.value else ".";
        (IsUsableDirectory(fs, root) ==>
          NavState() == Nav([root], 0) && currentDirectory == root &&
          hierarchy.rootEntries == WithRoot(SystemRoots(home, "", fs), root, fs)) &&
        (!IsUsableDirectory(fs, root) ==>
          NavState() == Cleared && currentDirectory == "" &&
          hierarchy.rootEntries == SystemRoots(home, "", fs)) &&
        rootDirectory == root
      ensures !isVisible && !multiSelectEnabled && !fileSelect.multiSelectable
      ensures !bottombar.confirmed && !bottombar.cancelled
      ensures lastConfirmedPath == "" && lastConfirmedList == [] && selectedFile == ""
    {
      var tree := new HierarchyView();
      tree.RefreshSystemRoots(home, fs);
      hierarchy := tree;
      fileSelect := new FileSelectView();
      topbar := new Topbar();
      bottombar := new Bottombar();
      rootDirectory := if cwd.Some? then cwd.value else ".";
      currentDirectory := "";
      selectedFile := "";
      lastConfirmedPath := "";
      lastConfirmedList := [];
      history := [];
      historyCursor := -1;
      isVisible := false;
      multiSelectEnabled := false;
      new;
      SetRootDirectory(rootDirectory, fs);
    }

    /**
     * setCurrentDirectory(path, pushHistory): an empty, missing or
     * non-directory path changes nothing; otherwise the path is pushed when
     * asked and every component moves to it.
     */
    method SetCurrentDirectory(path: Path, pushHistory: bool, fs: FileSystem)
      requires Valid()
      modifies Repr()
      ensures Valid()
      ensures !IsUsableDirectory(fs, path) ==> unchanged(Repr())
      ensures IsUsableDirectory(fs, path) ==>
        NavState() == (if pushHistory then Push(old(NavState()), path) else old(NavState())) &&
        currentDirectory == path &&
        hierarchy.selectedDirectory == path && hierarchy.rootEntries == WithRoot(old(hierarchy.rootEntries), path, fs) &&
        fileSelect.currentDir == path && fileSelect.selectedFile == "" && fileSelect.selectedFiles == [] &&
        topbar.currentPath == path && topbar.TypedPath() == Truncated(path, PathBufferSize) &&
        bottombar.currentDirectory == path
      ensures rootDirectory == old(rootDirectory) && selectedFile == old(selectedFile)
      ensures lastConfirmedPath == old(lastConfirmedPath) && lastConfirmedList == old(lastConfirmedList)
      ensures isVisible == old(isVisible) && multiSelectEnabled == old(multiSelectEnabled)
      ensures hierarchy.userRoot == old(hierarchy.userRoot) && fileSelect.extensionFilter == old(fileSelect.extensionFilter)
      ensures bottombar.filenameInput == old(bottombar.filenameInput) && bottombar.selectedFiles == old(bottombar.selectedFiles)
      ensures bottombar.confirmed == old(bottombar.confirmed) && bottombar.cancelled == old(bottombar.cancelled)
      ensures bottombar.filenameBuffer[..] == old(bottombar.filenameBuffer[..])
    {
      if path == "" || !fs.pathExists(path) || !fs.isDirectory(path) {
        return;
      }
      if pushHistory {
        PushHistory(path);
      }
      currentDirectory := path;
      MoveComponents(path, fs);
    }

    /** The history push of setCurrentDirectory: entries ahead of the cursor are dropped, then the path is appended. */
    method PushHistory(path: Path)
      requires Valid()
      modifies this
      ensures Valid()
      ensures NavState() == Push(old(NavState()), path)
      ensures rootDirectory == old(rootDirectory) && currentDirectory == old(currentDirectory) && selectedFile == old(selectedFile)
      ensures lastConfirmedPath == old(lastConfirmedPath) && lastConfirmedList == old(lastConfirmedList)
      ensures isVisible == old(isVisible) && multiSelectEnabled == old(multiSelectEnabled)
    {
      if historyCursor + 1 < |history| {
        history := history[..historyCursor + 1];
      }
      history := history + [path];
      historyCursor := |history| - 1;
    }

    /** The components' part of setCurrentDirectory: the tree, the file list and both bars move to the path. */
    method MoveComponents(path: Path, fs: FileSystem)
      requires Valid() && path != ""
      modifies hierarchy, fileSelect, topbar, topbar.pathBuffer, bottombar
      ensures hierarchy.selectedDirectory == path && hierarchy.rootEntries == WithRoot(old(hierarchy.rootEntries), path, fs)
      ensures hierarchy.userRoot == old(hierarchy.userRoot)
      ensures fileSelect.currentDir == path && fileSelect.selectedFile == "" && fileSelect.selectedFiles == []
      ensures fileSelect.extensionFilter == old(fileSelect.extensionFilter) && fileSelect.multiSelectable == old(fileSelect.multiSelectable)
      ensures topbar.currentPath == path && topbar.TypedPath() == Truncated(path, PathBufferSize)
      ensures bottombar.currentDirectory == path
      ensures bottombar.filenameInput == old(bottombar.filenameInput) && bottombar.selectedFiles == old(bottombar.selectedFiles)
      ensures bottombar.confirmed == old(bottombar.confirmed) && bottombar.cancelled == old(bottombar.cancelled)
      ensures bottombar.filenameBuffer[..] == old(bottombar.filenameBuffer[..])
    {
      hierarchy.SetSelectedDirectory(path, fs);
      fileSelect.SetCurrentDirectory(path);
      topbar.SetCurrentPath(path);
      bottombar.SetDirectory(path);
    }

    /**
     * setRootDirectory(path): for a usable directory, makes it the root, the
     * user root of the tree, and the only history entry.
     */
    method SetRootDirectory(path: Path, fs: FileSystem)
      requires Valid()
      modifies Repr()
      ensures Valid()
      ensures !IsUsableDirectory(fs, path) ==> unchanged(Repr())
      ensures IsUsableDirectory(fs, path) ==>
        rootDirectory == path && NavState() == Nav([path], 0) && currentDirectory == path &&
        hierarchy.userRoot == path && hierarchy.selectedDirectory == path &&
        hierarchy.rootEntries == WithRoot(old(hierarchy.rootEntries), path, fs) &&
        fileSelect.currentDir == path && fileSelect.selectedFiles == [] &&
        topbar.TypedPath() == Truncated(path, PathBufferSize) && bottombar.currentDirectory == path
      ensures selectedFile == old(selectedFile) && isVisible == old(isVisible) && multiSelectEnabled == old(multiSelectEnabled)
      ensures lastConfirmedPath == old(lastConfirmedPath) && lastConfirmedList == old(lastConfirmedList)
      ensures bottombar.confirmed == old(bottombar.confirmed) && bottombar.cancelled == old(bottombar.cancelled)
      ensures bottombar.filenameInput == old(bottombar.filenameInput)
    {
      if path == "" || !fs.pathExists(path) || !fs.isDirectory(path) {
        return;
      }
      rootDirectory := path;
      hierarchy.SetRoot(rootDirectory, fs);
      history := [];
      historyCursor := -1;
      ghost var entries := hierarchy.rootEntries;
      SetCurrentDirectory(rootDirectory, true, fs);
      PushOntoCleared(path);
      WithRootIdempotent(old(hierarchy.rootEntries), path, fs);
    }

    /** navigateBack: moves the cursor back when it can and visits that entry without pushing. */
    method NavigateBack(fs: FileSystem)
      requires Valid()
      modifies Repr()
      ensures Valid()
      ensures NavState() == Back(old(NavState()))
      ensures !CanGoBack(old(NavState())) ==> unchanged(Repr())
      ensures CanGoBack(old(NavState())) ==>
        var target := history[historyCursor];
        currentDirectory == (if IsUsableDirectory(fs, target) then target else old(currentDirectory))
      ensures lastConfirmedPath == old(lastConfirmedPath) && lastConfirmedList == old(lastConfirmedList)
      ensures isVisible == old(isVisible) && selectedFile == old(selectedFile)
    {
      if historyCursor > 0 {
        historyCursor := historyCursor - 1;
        SetCurrentDirectory(history[historyCursor], false, fs);
      }
    }

    /** navigateForward: moves the cursor forward when it can and visits that entry without pushing. */
    method NavigateForward(fs: FileSystem)
      requires Valid()
      modifies Repr()
      ensures Valid()
      ensures NavState() == Forward(old(NavState()))
      ensures !CanGoForward(old(NavState())) ==> unchanged(Repr())
      ensures CanGoForward(old(NavState())) ==>
        var target := history[historyCursor];
        currentDirectory == (if IsUsableDirectory(fs, target) then target else old(currentDirectory))
      ensures lastConfirmedPath == old(lastConfirmedPath) && lastConfirmedList == old(lastConfirmedList)
      ensures isVisible == old(isVisible) && selectedFile == old(selectedFile)
    {
      if historyCursor + 1 < |history| {
        historyCursor := historyCursor + 1;
        SetCurrentDirectory(history[historyCursor], false, fs);
      }
    }

    /** navigateUp: visits the parent of the current directory, pushing it, when there is one. */
    method NavigateUp(fs: FileSystem)
      requires Valid()
      modifies Repr()
      ensures Valid()
      ensures var parent := ParentPath(old(currentDirectory));
        if HasParentPath(old(currentDirectory)) && IsUsableDirectory(fs, parent)
        then NavState() == Push(old(NavState()), parent) && currentDirectory == parent
        else unchanged(Repr())
      ensures lastConfirmedPath == old(lastConfirmedPath) && lastConfirmedList == old(lastConfirmedList)
      ensures isVisible == old(isVisible) && selectedFile == old(selectedFile)
    {
      if HasParentPath(currentDirectory) {
        SetCurrentDirectory(ParentPath(currentDirectory), true, fs);
      }
    }

    /** refresh: revisits the current directory without pushing, which clears the file selection. */
    method Refresh(fs: FileSystem)
      requires Valid()
      modifies Repr()
      ensures Valid()
      ensures NavState() == old(NavState()) && currentDirectory == old(currentDirectory)
      ensures IsUsableDirectory(fs, currentDirectory) ==> fileSelect.selectedFiles == [] && fileSelect.selectedFile == ""
      ensures lastConfirmedPath == old(lastConfirmedPath) && lastConfirmedList == old(lastConfirmedList)
      ensures isVisible == old(isVisible) && selectedFile == old(selectedFile)
    {
      SetCurrentDirectory(currentDirectory, false, fs);
    }

    /** A click on a tree node: the tree selects it, then the dialog visits it (pushing). */
    method SelectTreeNode(path: Path, fs: FileSystem)
      requires Valid()
      modifies Repr()
      ensures Valid()
      ensures IsUsableDirectory(fs, path) ==> NavState() == Push(old(NavState()), path) && currentDirectory == path
      ensures !IsUsableDirectory(fs, path) ==> NavState() == old(NavState()) && currentDirectory == old(currentDirectory)
      ensures hierarchy.selectedDirectory == path
    {
      hierarchy.ClickNode(path);
      SetCurrentDirectory(path, true, fs);
    }

    /** Enter in the path field: the dialog visits the typed path (pushing). */
    method CommitPath(fs: FileSystem)
      requires Valid()
      modifies Repr()
      ensures Valid()
      ensures var typed := old(topbar.TypedPath());
        (IsUsableDirectory(fs, typed) ==> NavState() == Push(old(NavState()), typed) && currentDirectory == typed) &&
        (!IsUsableDirectory(fs, typed) ==> unchanged(Repr()))
    {
      var typed := CString(topbar.pathBuffer[..]);
      SetCurrentDirectory(typed, true, fs);
    }

    /** onFileSelected: the dialog remembers the file and updates the file name field. */
    method OnFileSelected(file: Path)
      requires Valid()
      modifies Repr()
      ensures Valid()
      ensures selectedFile == file
      ensures multiSelectEnabled && fileSelect.selectedFiles != [] ==> bottombar.filenameInput == SelectionLabel(fileSelect.selectedFiles)
      ensures multiSelectEnabled && fileSelect.selectedFiles == [] ==> bottombar.filenameInput == old(bottombar.filenameInput)
      ensures !multiSelectEnabled ==> bottombar.filenameInput == Filename(file)
      ensures NavState() == old(NavState()) && currentDirectory == old(currentDirectory)
      ensures fileSelect.selectedFiles == old(fileSelect.selectedFiles) && multiSelectEnabled == old(multiSelectEnabled)
      ensures lastConfirmedPath == old(lastConfirmedPath) && lastConfirmedList == old(lastConfirmedList)
      ensures isVisible == old(isVisible)
    {
      if multiSelectEnabled {
        bottombar.SetSelection(fileSelect.selectedFiles);
      } else {
        bottombar.SetFilename(Filename(file));
      }
      selectedFile := file;
    }

    /** A click on a row of the file list, with Ctrl or Shift held when `additive`. */
    method ClickEntry(entry: Path, isDir: bool, additive: bool)
      requires Valid()
      modifies Repr()
      ensures Valid()
      ensures isDir ==> fileSelect.selectedFiles == [] && selectedFile == old(selectedFile)
      ensures !isDir ==> selectedFile == entry
      ensures !isDir ==>
        fileSelect.selectedFiles ==
        (if multiSelectEnabled then ClickSelection(old(fileSelect.selectedFiles), entry, additive) else old(fileSelect.selectedFiles))
      ensures !isDir && !multiSelectEnabled ==> bottombar.filenameInput == Filename(entry)
      ensures NavState() == old(NavState()) && currentDirectory == old(currentDirectory)
      ensures lastConfirmedPath == old(lastConfirmedPath) && isVisible == old(isVisible)
    {
      var fired := fileSelect.Click(entry, isDir, additive);
      if fired {
        OnFileSelected(entry);
      }
    }

    /**
     * confirmSelection(paths): an empty list changes nothing; otherwise the
     * confirmed list becomes Resolve(paths), and when that is not empty its
     * first entry becomes the result, its last the selected file (whose name
     * goes to the file name field), and the dialog hides.
     */
    method ConfirmSelection(paths: seq<Path>, fs: FileSystem)
      requires Valid()
      modifies Repr()
      ensures Valid()
      ensures paths == [] ==> unchanged(Repr())
      ensures Result() == ConfirmOutcome(paths, old(currentDirectory), fs.lexicallyNormal, old(Result()))
      ensures var r := Resolve(paths, old(currentDirectory), fs.lexicallyNormal);
        paths != [] ==>
          lastConfirmedList == r &&
          (r != [] ==> lastConfirmedPath == r[0] && selectedFile == r[|r| - 1] && !isVisible &&
                       bottombar.filenameInput == Filename(r[|r| - 1])) &&
          (r == [] ==> lastConfirmedPath == old(lastConfirmedPath) && selectedFile == old(selectedFile) &&
                       isVisible == old(isVisible))
      ensures NavState() == old(NavState()) && currentDirectory == old(currentDirectory) && rootDirectory == old(rootDirectory)
      ensures fileSelect.selectedFiles == old(fileSelect.selectedFiles) && multiSelectEnabled == old(multiSelectEnabled)
      ensures bottombar.confirmed == old(bottombar.confirmed) && bottombar.cancelled == old(bottombar.cancelled)
    {
      if paths == [] {
        return;
      }
      var confirmed := ResolvePaths(paths, currentDirectory, fs);
      if confirmed == [] {
        lastConfirmedList := confirmed;
        return;
      }
      AcceptConfirmed(confirmed);
    }

    /** The non-empty outcome of confirmSelection: the result, the selected file and its name are set and the dialog hides. */
    method AcceptConfirmed(confirmed: seq<Path>)
      requires Valid() && confirmed != []
      modifies this, bottombar, bottombar.filenameBuffer
      ensures Valid()
      ensures lastConfirmedList == confirmed && lastConfirmedPath == confirmed[0] && !isVisible
      ensures selectedFile == confirmed[|confirmed| - 1] && bottombar.filenameInput == Filename(confirmed[|confirmed| - 1])
      ensures NavState() == old(NavState()) && currentDirectory == old(currentDirectory) && rootDirectory == old(rootDirectory)
      ensures multiSelectEnabled == old(multiSelectEnabled)
      ensures bottombar.confirmed == old(bottombar.confirmed) && bottombar.cancelled == old(bottombar.cancelled)
    {
      bottombar.SetFilename(Filename(confirmed[|confirmed| - 1]));
      lastConfirmedList := confirmed;
      lastConfirmedPath := confirmed[0];
      selectedFile := confirmed[|confirmed| - 1];
      isVisible := false;
    }

    /** confirmSelection(path): a single path, or the empty list for an empty path. */
    method ConfirmPath(path: Path, fs: FileSystem)
      requires Valid()
      modifies Repr()
      ensures Valid()
      ensures path == "" ==> unchanged(Repr())
      ensures Result() == ConfirmOutcome(if path == "" then [] else [path], old(currentDirectory), fs.lexicallyNormal, old(Result()))
      ensures path != "" ==>
        var c := fs.lexicallyNormal(Absolute(path, old(currentDirectory)));
        lastConfirmedList == [c] && lastConfirmedPath == c && selectedFile == c && !isVisible
      ensures NavState() == old(NavState()) && currentDirectory == old(currentDirectory) && multiSelectEnabled == old(multiSelectEnabled)
    {
      if path == "" {
        ConfirmSelection([], fs);
      } else {
        assert [path][..0] == [];
        ConfirmSelection([path], fs);
      }
    }

    /** onFileActivated (a double-click on a file): confirms the multi-selection when there is one, else the file. */
    method ActivateFile(file: Path, fs: FileSystem)
      requires Valid()
      modifies Repr()
      ensures Valid()
      ensures Result() == ConfirmOutcome(ActivationPaths(old(multiSelectEnabled), old(fileSelect.selectedFiles), file),
        old(currentDirectory), fs.lexicallyNormal, old(Result()))
      ensures NavState() == old(NavState()) && currentDirectory == old(currentDirectory)
    {
      if multiSelectEnabled && fileSelect.selectedFiles != [] {
        ConfirmSelection(fileSelect.selectedFiles, fs);
        return;
      }
      ConfirmPath(file, fs);
      assert file != "" ==> [file][..0] == [];
    }

    /** A double-click on a row: a directory is visited (pushing), a file is activated. */
    method DoubleClickEntry(entry: Path, isDir: bool, fs: FileSystem)
      requires Valid()
      modifies Repr()
      ensures Valid()
      ensures isDir && IsUsableDirectory(fs, entry) ==> NavState() == Push(old(NavState()), entry) && currentDirectory == entry
      ensures isDir && !IsUsableDirectory(fs, entry) ==> unchanged(Repr())
      ensures !isDir ==> NavState() == old(NavState()) && currentDirectory == old(currentDirectory)
      ensures !isDir ==> Result() == ConfirmOutcome(ActivationPaths(old(multiSelectEnabled), old(fileSelect.selectedFiles), entry),
        old(currentDirectory), fs.lexicallyNormal, old(Result()))
    {
      if isDir {
        SetCurrentDirectory(entry, true, fs);
      } else {
        ActivateFile(entry, fs);
      }
    }

    /**
     * The state updates of draw() after the components have drawn: a hidden
     * dialog does nothing; when the window is drawn (`windowOpen`), an Open
     * press confirms the Selections candidates and a Cancel press clears the
     * result and hides; closing the window (`closeClicked`) hides it.
     */
    method Draw(windowOpen: bool, closeClicked: bool, fs: FileSystem)
      requires Valid()
      modifies Repr()
      ensures Valid()
      ensures !old(isVisible) ==> unchanged(Repr())
      ensures old(isVisible) && windowOpen ==> !bottombar.confirmed && !bottombar.cancelled
      ensures old(isVisible) && windowOpen && old(bottombar.confirmed) && !old(bottombar.cancelled) ==>
        var o := ConfirmOutcome(
          Selections(multiSelectEnabled, old(fileSelect.selectedFiles), old(bottombar.filenameInput), old(selectedFile), old(currentDirectory)),
          old(currentDirectory), fs.lexicallyNormal, old(Result()));
        Result() == o.(visible := o.visible && !closeClicked)
      ensures old(isVisible) && (!windowOpen || (!old(bottombar.confirmed) && !old(bottombar.cancelled))) ==>
        Result() == old(Result()).(visible := !closeClicked)
      ensures old(isVisible) && windowOpen && old(bottombar.cancelled) ==>
        lastConfirmedPath == "" && lastConfirmedList == [] && !isVisible
      ensures old(isVisible) && closeClicked ==> !isVisible
      ensures NavState() == old(NavState()) && currentDirectory == old(currentDirectory)
    {
      if !isVisible {
        return;
      }
      if windowOpen {
        HandleOpenPress(fs);
        HandleCancelPress();
      }
      if closeClicked {
        isVisible := false;
      }
    }

    /** The Open press of draw(): when it was pressed, the Selections candidates are confirmed. */
    method HandleOpenPress(fs: FileSystem)
      requires Valid()
      modifies Repr()
      ensures Valid()
      ensures !bottombar.confirmed && bottombar.cancelled == old(bottombar.cancelled)
      ensures old(bottombar.confirmed) ==>
        Result() == ConfirmOutcome(
          Selections(multiSelectEnabled, old(fileSelect.selectedFiles), old(bottombar.filenameInput), old(selectedFile), old(currentDirectory)),
          old(currentDirectory), fs.lexicallyNormal, old(Result()))
      ensures !old(bottombar.confirmed) ==> Result() == old(Result())
      ensures NavState() == old(NavState()) && currentDirectory == old(currentDirectory)
    {
      var ok, confirmedName := bottombar.ConsumeConfirmed("");
      if ok {
        var selections := Selections(multiSelectEnabled, fileSelect.selectedFiles, confirmedName, selectedFile, currentDirectory);
        ConfirmSelection(selections, fs);
      }
    }

    /** The Cancel press of draw(): when it was pressed, the result is cleared and the dialog hides. */
    method HandleCancelPress()
      requires Valid()
      modifies this, bottombar
      ensures Valid()
      ensures !bottombar.cancelled && bottombar.confirmed == old(bottombar.confirmed)
      ensures old(bottombar.cancelled) ==> lastConfirmedPath == "" && lastConfirmedList == [] && !isVisible
      ensures !old(bottombar.cancelled) ==> Result() == old(Result())
      ensures NavState() == old(NavState()) && currentDirectory == old(currentDirectory)
    {
      var cancelled := bottombar.ConsumeCancelled();
      if cancelled {
        lastConfirmedPath := "";
        lastConfirmedList := [];
        isVisible := false;
      }
    }

    /** setExtensionFilter(ext): forwarded to the file list. */
    method SetExtensionFilter(ext: Path)
      requires Valid()
      modifies fileSelect
      ensures Valid()
      ensures fileSelect.extensionFilter == ext && fileSelect.selectedFiles == [] && fileSelect.selectedFile == ""
      ensures fileSelect.currentDir == old(fileSelect.currentDir)
    {
      fileSelect.SetExtensionFilter(ext);
    }

    /** enableMultiSelect(enable): the dialog and the file list switch together. */
    method EnableMultiSelect(enable: bool)
      requires Valid()
      modifies this, fileSelect
      ensures Valid()
      ensures multiSelectEnabled == enable && fileSelect.multiSelectable == enable
      ensures !enable ==> fileSelect.selectedFiles == []
      ensures fileSelect.extensionFilter == old(fileSelect.extensionFilter)
      ensures NavState() == old(NavState()) && isVisible == old(isVisible) && currentDirectory == old(currentDirectory)
      ensures lastConfirmedPath == old(lastConfirmedPath) && lastConfirmedList == old(lastConfirmedList)
    {
      multiSelectEnabled := enable;
      fileSelect.SetMultiSelectable(enable);
    }

    /** openDialog and setVisible. */
    method SetVisible(visible: bool)
      requires Valid()
      modifies this
      ensures Valid()
      ensures isVisible == visible
      ensures NavState() == old(NavState()) && currentDirectory == old(currentDirectory) && multiSelectEnabled == old(multiSelectEnabled)
      ensures lastConfirmedPath == old(lastConfirmedPath) && lastConfirmedList == old(lastConfirmedList)
    {
      isVisible := visible;
    }
  }
}
