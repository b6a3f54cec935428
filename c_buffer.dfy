/**
 * Fixed-size character buffers that hold NUL-terminated text, as ImGui text
 * fields use them, and the snprintf(buffer, size, "%s", text) call that
 * refills one from a string.
 */
module CBuffer {

  /** The string holds no NUL character. */
  predicate NoNul(s: string)
  {
    forall j :: 0 <= j < |s| ==> s[j] != '\0'
  }

  /**
   * The C string a character sequence denotes: everything before its first
   * NUL, or all of it when there is none. This is both what `%s` reads from
   * c_str() and what a buffer's data() means as text.
   */
  function CString(s: string): (c: string)
    ensures |c| <= |s| && s[..|c|] == c
    ensures NoNul(c)
    ensures |c| < |s| ==> s[|c|] == '\0'
  {
    if |s| == 0 || s[0] == '\0' then "" else [s[0]] + CString(s[1..])
  }

  /** The text snprintf stores in a buffer of `size` characters: at most size-1 characters of the C string. */
  function Truncated(s: string, size: int): (t: string)
    requires 1 <= size
    ensures |t| <= size - 1
    ensures |t| <= |CString(s)| && CString(s)[..|t|] == t
    ensures |CString(s)| < size ==> t == CString(s)
    ensures size <= |CString(s)| ==> |t| == size - 1
  {
    var c := CString(s);
    if |c| <= size - 1 then c else c[..size - 1]
  }

  /**
   * snprintf(buf, buf.Length, "%s", s): copies the truncated text, writes the
   * terminating NUL after it and leaves the rest of the buffer as it was.
   */
  method CopyTruncated(buf: array<char>, s: string)
    requires 1 <= buf.Length
    modifies buf
    ensures var t := Truncated(s, buf.Length);
      buf[..|t|] == t && buf[|t|] == '\0' && buf[|t| + 1..] == old(buf[|t| + 1..])
    ensures CString(buf[..]) == Truncated(s, buf.Length)
  {
    var t := Truncated(s, buf.Length);
    for i := 0 to |t|
      invariant buf[..i] == t[..i]
      invariant buf[|t|..] == old(buf[|t|..])
    {
      buf[i] := t[i];
    }
    buf[|t|] := '\0';
    assert buf[..] == t + ['\0'] + buf[|t| + 1..];
    CStringOfTerminated(t, buf[|t| + 1..]);
  }

  /** Text without NUL followed by a NUL reads back as that text, whatever follows. */
  lemma {:induction false} CStringOfTerminated(t: string, rest: string)
    requires NoNul(t)
    ensures CString(t + ['\0'] + rest) == t
  {
    if t != [] {
      assert (t + ['\0'] + rest)[1..] == t[1..] + ['\0'] + rest;
      CStringOfTerminated(t[1..], rest);
    }
  }

  /** Text without NUL is its own C string. */
  lemma {:induction false} CStringOfPlain(s: string)
    requires NoNul(s)
    ensures CString(s) == s
    decreases |s|
  {
    if s != [] {
      CStringOfPlain(s[1..]);
    }
  }
}
