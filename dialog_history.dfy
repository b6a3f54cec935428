/**
 * The navigation history of the file dialog: a list of visited directories
 * and a cursor into it. Visiting a new directory drops everything after the
 * cursor and appends; back and forward move the cursor by one when that stays
 * inside the list.
 */
module DialogHistory {
  import opened Paths

  /** The pair (m_history, m_historyCursor). */
  datatype Nav = Nav(history: seq<Path>, cursor: int)

  /** The cursor points into the list, and is -1 exactly when the list is empty. */
  predicate NavValid(n: Nav)
  {
    -1 <= n.cursor < |n.history| && (n.cursor == -1 <==> n.history == [])
  }

  /** The state after setRootDirectory clears it. */
  const Cleared: Nav := Nav([], -1)

  /** A push: resize to cursor+1 when entries lie ahead of the cursor, append, point at the new last entry. */
  function Push(n: Nav, path: Path): (r: Nav)
    requires NavValid(n)
    ensures NavValid(r)
    ensures r.history == n.history[..n.cursor + 1] + [path]
    ensures r.cursor == n.cursor + 1 && r.history[r.cursor] == path
  {
    var kept := if n.cursor + 1 < |n.history| then n.history[..n.cursor + 1] else n.history;
    var h := kept + [path];
    Nav(h, |h| - 1)
  }

  /** navigateBack's cursor move. */
  function Back(n: Nav): (r: Nav)
    requires NavValid(n)
    ensures NavValid(r) && r.history == n.history
    ensures n.cursor > 0 ==> r.cursor == n.cursor - 1
    ensures n.cursor <= 0 ==> r == n
  {
    if n.cursor > 0 then Nav(n.history, n.cursor - 1) else n
  }

  /** navigateForward's cursor move. */
  function Forward(n: Nav): (r: Nav)
    requires NavValid(n)
    ensures NavValid(r) && r.history == n.history
    ensures n.cursor + 1 < |n.history| ==> r.cursor == n.cursor + 1
    ensures n.cursor + 1 >= |n.history| ==> r == n
  {
    if n.cursor + 1 < |n.history| then Nav(n.history, n.cursor + 1) else n
  }

  /** Whether the move changed the cursor (and so asks for a directory change). */
  predicate CanGoBack(n: Nav) { n.cursor > 0 }

  predicate CanGoForward(n: Nav) { n.cursor + 1 < |n.history| }

  /** After a push there is nothing to go forward to. */
  lemma PushClearsForward(n: Nav, path: Path)
    requires NavValid(n)
    ensures !CanGoForward(Push(n, path)) && Forward(Push(n, path)) == Push(n, path)
  {
  }

  /** Going back after a push returns to the entry that was current, with everything up to it intact. */
  lemma BackAfterPush(n: Nav, path: Path)
    requires NavValid(n) && n.cursor >= 0
    ensures Back(Push(n, path)).cursor == n.cursor
    ensures Back(Push(n, path)).history[..n.cursor + 1] == n.history[..n.cursor + 1]
  {
    var h := Push(n, path).history;
    assert h[..n.cursor + 1] == n.history[..n.cursor + 1];
  }

  /** Back then forward is the identity whenever back moved. */
  lemma ForwardUndoesBack(n: Nav)
    requires NavValid(n) && CanGoBack(n)
    ensures Forward(Back(n)) == n
  {
  }

  /** Forward then back is the identity whenever forward moved. */
  lemma BackUndoesForward(n: Nav)
    requires NavValid(n) && CanGoForward(n)
    ensures Back(Forward(n)) == n
  {
  }

  /** Pushing onto the cleared history gives the one-entry history with cursor 0. */
  lemma PushOntoCleared(path: Path)
    ensures Push(Cleared, path) == Nav([path], 0)
  {
  }

  /** A run of pushes keeps the entries up to the cursor and leaves exactly the pushed paths after it. */
  lemma {:induction false} PushesKeepPrefix(n: Nav, paths: seq<Path>)
    requires NavValid(n) && paths != []
    ensures var m := PushAll(n, paths);
      NavValid(m) && |m.history| == n.cursor + 1 + |paths| &&
      m.history[..n.cursor + 1] == n.history[..n.cursor + 1] &&
      m.history[n.cursor + 1..] == paths
    decreases |paths|
  {
    var n' := Push(n, paths[0]);
    if |paths| == 1 {
      assert PushAll(n, paths) == PushAll(n', []) == n';
    } else {
      PushesKeepPrefix(n', paths[1..]);
      var m := PushAll(n, paths);
      assert m == PushAll(n', paths[1..]);
      assert m.history[..n'.cursor + 1] == n'.history[..n'.cursor + 1];
      assert m.history[..n.cursor + 1] == m.history[..n'.cursor + 1][..n.cursor + 1];
      assert m.history[n.cursor + 1..] == [paths[0]] + m.history[n'.cursor + 1..];
    }
  }

  /** A sequence of pushes, in order. */
  function PushAll(n: Nav, paths: seq<Path>): (r: Nav)
    requires NavValid(n)
    ensures NavValid(r)
    decreases |paths|
  {
    if paths == [] then n else PushAll(Push(n, paths[0]), paths[1..])
  }
}
