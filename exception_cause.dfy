/**
 * Error-message extraction (`getExceptionCause`, index.js:289-302): for an error that
 * carries a nested remote message, the first three lines of that message joined with
 * ": "; for any other error, the error itself.
 */
module ExceptionCause {
  import opened Wrappers

  /**
   * A thrown error, reduced to what the extraction reads: the text at
   * `e.cause.payload.error.message`, or None when any link of that chain is missing.
   */
  datatype Exception = Exception(nestedMessage: Option<string>)

  /** What `getExceptionCause` returns: a message, or the error itself. */
  datatype Cause = Message(text: string) | Itself(e: Exception)

  /** The number of line breaks in `s`. */
  function NewlineCount(s: string): nat
  {
    if s == [] then 0 else NewlineCount(s[..|s| - 1]) + (if s[|s| - 1] == '\n' then 1 else 0)
  }

  /** `s.split("\n")`: the pieces between line breaks, one more than there are line breaks. */
  function Split(s: string): (lines: seq<string>)
    ensures |lines| == NewlineCount(s) + 1
  {
    if s == [] then [""]
    else
      var init := Split(s[..|s| - 1]);
      var c := s[|s| - 1];
      if c == '\n' then init + [""] else init[..|init| - 1] + [init[|init| - 1] + [c]]
  }

  /** No piece of a split holds a line break. */
  lemma {:induction false} SplitPieces(s: string)
    ensures forall i :: 0 <= i < |Split(s)| ==> '\n' !in Split(s)[i]
  {
    if s != [] {
      SplitPieces(s[..|s| - 1]);
    }
  }

  /** The lines joined with `sep` between each two. */
  function Join(lines: seq<string>, sep: string): string
    requires |lines| >= 1
  {
    if |lines| == 1 then lines[0] else Join(lines[..|lines| - 1], sep) + sep + lines[|lines| - 1]
  }

  /** `s` with every line break replaced by `sep`. */
  function ReplaceNewlines(s: string, sep: string): string
  {
    if s == [] then []
    else ReplaceNewlines(s[..|s| - 1], sep) + (if s[|s| - 1] == '\n' then sep else [s[|s| - 1]])
  }

  /** The text the extraction builds from a non-empty message: its first (up to) three lines, joined with ": ". */
  function CauseText(m: string): string
  {
    var lines := Split(m);
    Join(lines[..if |lines| < 3 then |lines| else 3], ": ")
  }

  /** Joining the split pieces with `sep` is replacing every line break with `sep`. */
  lemma {:induction false} JoinSplit(s: string, sep: string)
    ensures Join(Split(s), sep) == ReplaceNewlines(s, sep)
  {
    if s != [] {
      var init := s[..|s| - 1];
      var c := s[|s| - 1];
      var lines := Split(init);
      JoinSplit(init, sep);
      if c == '\n' {
        assert (lines + [""])[..|lines|] == lines;
      } else {
        var joined := lines[..|lines| - 1] + [lines[|lines| - 1] + [c]];
        if |lines| > 1 {
          assert joined[..|joined| - 1] == lines[..|lines| - 1];
        }
      }
    }
  }

  /** Splitting at line breaks and joining with a line break gives the text back. */
  lemma {:induction false} SplitRoundTrip(s: string)
    ensures Join(Split(s), "\n") == s
  {
    JoinSplit(s, "\n");
    ReplaceLineBreaksByThemselves(s);
  }

  lemma {:induction false} ReplaceLineBreaksByThemselves(s: string)
    ensures ReplaceNewlines(s, "\n") == s
  {
    if s != [] {
      ReplaceLineBreaksByThemselves(s[..|s| - 1]);
      assert s == s[..|s| - 1] + [s[|s| - 1]];
    }
  }

  /** A line break at the end of a text starts a new, empty piece. */
  lemma SplitSnocBreak(s: string)
    ensures Split(s + "\n") == Split(s) + [""]
  {
    assert (s + "\n")[..|s|] == s;
  }

  /** Any other character at the end of a text extends its last piece. */
  lemma SplitSnocChar(s: string, c: char)
    requires c != '\n'
    ensures Split(s + [c]) == Split(s)[..|Split(s)| - 1] + [Split(s)[|Split(s)| - 1] + [c]]
  {
    assert (s + [c])[..|s|] == s;
  }

  /** Splitting around a line break splits each side. */
  lemma {:induction false} SplitAround(s: string, t: string)
    ensures Split(s + "\n" + t) == Split(s) + Split(t)
  {
    if t == [] {
      assert s + "\n" + t == s + "\n";
      SplitSnocBreak(s);
    } else {
      var t0, c := t[..|t| - 1], t[|t| - 1];
      SplitAround(s, t0);
      assert t == t0 + [c];
      SplitAroundStep(s, t0, c);
    }
  }

  lemma SplitAroundStep(s: string, t0: string, c: char)
    requires Split(s + "\n" + t0) == Split(s) + Split(t0)
    ensures Split(s + "\n" + (t0 + [c])) == Split(s) + Split(t0 + [c])
  {
    assert s + "\n" + (t0 + [c]) == (s + "\n" + t0) + [c];
    if c == '\n' {
      SplitAroundBreak(s + "\n" + t0, Split(s), t0);
    } else {
      SplitAroundChar(s + "\n" + t0, Split(s), t0, c);
    }
  }

  lemma SplitAroundBreak(u0: string, a: seq<string>, t0: string)
    requires Split(u0) == a + Split(t0)
    ensures Split(u0 + "\n") == a + Split(t0 + "\n")
  {
    SplitSnocBreak(u0);
    SplitSnocBreak(t0);
    AppendEmptyPiece(a, Split(t0));
  }

  lemma SplitAroundChar(u0: string, a: seq<string>, t0: string, c: char)
    requires c != '\n'
    requires Split(u0) == a + Split(t0)
    ensures Split(u0 + [c]) == a + Split(t0 + [c])
  {
    SplitSnocChar(u0, c);
    SplitSnocChar(t0, c);
    ExtendLastPiece(a, Split(t0), c);
  }

  lemma AppendEmptyPiece(a: seq<string>, b: seq<string>)
    ensures (a + b) + [""] == a + (b + [""])
  {
  }

  lemma ExtendLastPiece(a: seq<string>, b: seq<string>, c: char)
    requires |b| >= 1
    ensures (a + b)[..|a + b| - 1] + [(a + b)[|a + b| - 1] + [c]] == a + (b[..|b| - 1] + [b[|b| - 1] + [c]])
  {
    assert (a + b)[..|a + b| - 1] == a + b[..|b| - 1];
  }

  /** A message of at most three lines comes out whole, its line breaks replaced by ": ". */
  lemma CauseOfShortMessage(m: string)
    requires NewlineCount(m) < 3
    ensures CauseText(m) == ReplaceNewlines(m, ": ")
  {
    var lines := Split(m);
    assert lines[..|lines|] == lines;
    JoinSplit(m, ": ");
  }

  /**
   * A longer message is cut at its third line break `p`: the cause is what comes
   * before it, with the two line breaks in it replaced by ": ".
   */
  lemma CauseOfLongMessage(m: string, p: int)
    requires 0 <= p < |m| && m[p] == '\n' && NewlineCount(m[..p]) == 2
    ensures CauseText(m) == ReplaceNewlines(m[..p], ": ")
  {
    assert m == m[..p] + "\n" + m[p + 1..];
    SplitAround(m[..p], m[p + 1..]);
    var lines := Split(m);
    assert lines[..3] == Split(m[..p]);
    JoinSplit(m[..p], ": ");
  }

  /**
   * `getExceptionCause` (index.js:289-302): when the nested message is present and not
   * empty, its first line followed by ": " and each next line, for at most three lines;
   * otherwise the error itself.
   */
  method GetExceptionCause(e: Exception) returns (r: Cause)
    ensures e.nestedMessage.Some? && e.nestedMessage.value != "" ==> r == Message(CauseText(e.nestedMessage.value))
    ensures e.nestedMessage.None? || e.nestedMessage.value == "" ==> r == Itself(e)
  {
    if e.nestedMessage.Some? {
      var m := e.nestedMessage.value;
      if m != "" {
        var am := Split(m);
        m := am[0];
        var i := 1;
        while i < |am| && i < 3
          invariant 1 <= i <= |am| && i <= 3
          invariant m == Join(am[..i], ": ")
        {
          assert am[..i + 1][..i] == am[..i];
          m := m + ": " + am[i];
          i := i + 1;
        }
        return Message(m);
      }
    }
    return Itself(e);
  }
}
