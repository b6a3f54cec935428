/**
 * Text made of fields: words each followed by a separator (a CSV row whose
 * every cell ends in ';', a file whose every line ends in '\n') and words
 * between separators (the space-separated fields of an OBJ line), with the
 * splits that read them back.
 */
module TextFields {

  /** The separator does not occur in the word. */
  predicate Free(w: string, sep: char)
  {
    forall j :: 0 <= j < |w| ==> w[j] != sep
  }

  predicate AllFree(ws: seq<string>, sep: char)
  {
    forall i :: 0 <= i < |ws| ==> Free(ws[i], sep)
  }

  /** The position of the first sep in s, or |s| when there is none. */
  function IndexOf(s: string, sep: char): (i: nat)
    ensures i <= |s|
    ensures i < |s| ==> s[i] == sep
    ensures Free(s[..i], sep)
    decreases |s|
  {
    if s == [] || s[0] == sep then 0
    else
      var i := 1 + IndexOf(s[1..], sep);
      assert s[..i] == [s[0]] + s[1..][..i - 1];
      i
  }

  lemma IndexOfWord(w: string, sep: char, rest: string)
    requires Free(w, sep)
    ensures IndexOf(w + [sep] + rest, sep) == |w|
  {
    var s := w + [sep] + rest;
    var i := IndexOf(s, sep);
    assert s[|w|] == sep;
  }

  // ----- words each followed by a separator -----

  /** Every word followed by the separator: w0 sep w1 sep ... wn sep. */
  function Terminated(ws: seq<string>, sep: char): (s: string)
    decreases |ws|
  {
    if ws == [] then "" else ws[0] + [sep] + Terminated(ws[1..], sep)
  }

  lemma {:induction false} TerminatedAppend(a: seq<string>, b: seq<string>, sep: char)
    ensures Terminated(a + b, sep) == Terminated(a, sep) + Terminated(b, sep)
    decreases |a|
  {
    if a != [] {
      var t, u := Terminated(a[1..], sep), Terminated(b, sep);
      assert (a + b)[0] == a[0] && (a + b)[1..] == a[1..] + b;
      calc {
        Terminated(a + b, sep);
        a[0] + [sep] + Terminated(a[1..] + b, sep);
        { TerminatedAppend(a[1..], b, sep); }
        a[0] + [sep] + (t + u);
        (a[0] + [sep] + t) + u;
      }
    } else {
      assert a + b == b;
    }
  }

  /** Appending one word and its separator extends the text by exactly that. */
  lemma TerminatedSnoc(ws: seq<string>, w: string, sep: char)
    ensures Terminated(ws + [w], sep) == Terminated(ws, sep) + w + [sep]
  {
    TerminatedAppend(ws, [w], sep);
    assert Terminated([w], sep) == w + [sep] + Terminated([], sep);
  }

  /** The pieces of s, each ended by sep; a last piece without its separator is kept. */
  function SplitTerminated(s: string, sep: char): (ws: seq<string>)
    decreases |s|
  {
    if s == [] then []
    else
      var i := IndexOf(s, sep);
      if i == |s| then [s] else [s[..i]] + SplitTerminated(s[i + 1..], sep)
  }

  /** Splitting terminated words gives the words back, when none holds the separator. */
  lemma {:induction false} TerminatedRoundTrip(ws: seq<string>, sep: char)
    requires AllFree(ws, sep)
    ensures SplitTerminated(Terminated(ws, sep), sep) == ws
    decreases |ws|
  {
    if ws != [] {
      var rest := Terminated(ws[1..], sep);
      SplitTerminatedWord(ws[0], sep, rest);
      TerminatedRoundTrip(ws[1..], sep);
      assert ws == [ws[0]] + ws[1..];
    }
  }

  /** A word free of the separator, then the separator: the split takes off exactly that word. */
  lemma SplitTerminatedWord(w: string, sep: char, rest: string)
    requires Free(w, sep)
    ensures SplitTerminated(w + [sep] + rest, sep) == [w] + SplitTerminated(rest, sep)
  {
    var s := w + [sep] + rest;
    IndexOfWord(w, sep, rest);
    assert s[..|w|] == w;
    assert s[|w| + 1..] == rest;
  }

  // ----- words between separators -----

  /** w0 sep w1 sep ... sep wn. */
  function Joined(ws: seq<string>, sep: char): (s: string)
    requires ws != []
    decreases |ws|
  {
    if |ws| == 1 then ws[0] else ws[0] + [sep] + Joined(ws[1..], sep)
  }

  /** The fields of s between separators. */
  function SplitOn(s: string, sep: char): (ws: seq<string>)
    ensures ws != []
    decreases |s|
  {
    var i := IndexOf(s, sep);
    if i == |s| then [s] else [s[..i]] + SplitOn(s[i + 1..], sep)
  }

  /** Splitting joined words gives the words back, when none holds the separator. */
  lemma {:induction false} JoinedRoundTrip(ws: seq<string>, sep: char)
    requires ws != [] && AllFree(ws, sep)
    ensures SplitOn(Joined(ws, sep), sep) == ws
    decreases |ws|
  {
    if |ws| == 1 {
      assert IndexOf(ws[0], sep) == |ws[0]| by {
        assert Free(ws[0], sep);
      }
    } else {
      var rest := Joined(ws[1..], sep);
      var s := ws[0] + [sep] + rest;
      IndexOfWord(ws[0], sep, rest);
      assert s[..|ws[0]|] == ws[0];
      assert s[|ws[0]| + 1..] == rest;
      JoinedRoundTrip(ws[1..], sep);
      assert ws == [ws[0]] + ws[1..];
    }
  }

  /** Terminated words hold a character only if a word or the separator does. */
  lemma {:induction false} TerminatedFree(ws: seq<string>, sep: char, c: char)
    requires AllFree(ws, c) && sep != c
    ensures Free(Terminated(ws, sep), c)
    decreases |ws|
  {
    if ws != [] {
      TerminatedFree(ws[1..], sep, c);
      var w, t := ws[0], Terminated(ws[1..], sep);
      assert Free(w, c);
      forall j | 0 <= j < |w + [sep] + t|
        ensures (w + [sep] + t)[j] != c
      {
        if j < |w| {
          assert (w + [sep] + t)[j] == w[j];
        } else if j > |w| {
          assert (w + [sep] + t)[j] == t[j - |w| - 1];
        }
      }
    }
  }
}
