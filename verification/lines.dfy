/**
 * Python's `str.splitlines()` and `str.splitlines(True)`, which the preprocessor
 * and the diagnostic formatter use to cut source text into lines.
 */
module Lines {
  import opened Strings

  /** The line boundaries `splitlines` recognises. */
  predicate IsLineBreak(c: char) {
    || c == '\n' || c == '\r' || c == '\U{B}' || c == '\U{C}'
    || c == '\U{1C}' || c == '\U{1D}' || c == '\U{1E}'
    || c == '\U{85}' || c == '\U{2028}' || c == '\U{2029}'
  }

  predicate NoBreak(s: string) {
    forall i :: 0 <= i < |s| ==> !IsLineBreak(s[i])
  }

  /**
   * Splits `s` into lines, `current` being the part of the line already read.
   * "\r\n" is one boundary; a final boundary does not open an empty last line.
   */
  function SplitLinesFrom(s: string, current: string, keepEnds: bool): (lines: seq<string>)
    requires NoBreak(current)
    ensures !keepEnds ==> forall i :: 0 <= i < |lines| ==> NoBreak(lines[i])
    decreases |s|
  {
    if |s| == 0 then
      if |current| == 0 then [] else [current]
    else if s[0] == '\r' && |s| > 1 && s[1] == '\n' then
      [current + (if keepEnds then "\r\n" else "")] + SplitLinesFrom(s[2..], "", keepEnds)
    else if IsLineBreak(s[0]) then
      [current + (if keepEnds then [s[0]] else "")] + SplitLinesFrom(s[1..], "", keepEnds)
    else
      SplitLinesFrom(s[1..], current + [s[0]], keepEnds)
  }

  /** Python's `s.splitlines(keepEnds)`. */
  function SplitLines(s: string, keepEnds: bool): (lines: seq<string>)
    ensures !keepEnds ==> forall i :: 0 <= i < |lines| ==> NoBreak(lines[i])
  {
    SplitLinesFrom(s, "", keepEnds)
  }

  lemma {:induction false} ConcatSplitFrom(s: string, current: string)
    requires NoBreak(current)
    ensures Concat(SplitLinesFrom(s, current, true)) == current + s
    decreases |s|
  {
    if |s| == 0 {
    } else if s[0] == '\r' && |s| > 1 && s[1] == '\n' {
      ConcatSplitFrom(s[2..], "");
      assert s == "\r\n" + s[2..];
    } else if IsLineBreak(s[0]) {
      ConcatSplitFrom(s[1..], "");
      assert s == [s[0]] + s[1..];
    } else {
      ConcatSplitFrom(s[1..], current + [s[0]]);
      assert s == [s[0]] + s[1..];
    }
  }

  /** Lines kept with their ends concatenate back to the text: `"".join(s.splitlines(True)) == s`. */
  lemma ConcatSplitLines(s: string)
    ensures Concat(SplitLines(s, true)) == s
  {
    ConcatSplitFrom(s, "");
  }

  lemma {:induction false} SplitFromEmpty(s: string, current: string, keepEnds: bool)
    requires NoBreak(current)
    ensures SplitLinesFrom(s, current, keepEnds) == [] <==> s == "" && current == ""
    decreases |s|
  {
    if |s| > 0 && !IsLineBreak(s[0]) {
      SplitFromEmpty(s[1..], current + [s[0]], keepEnds);
    }
  }

  /** Only the empty text has no lines. */
  lemma SplitLinesEmpty(s: string, keepEnds: bool)
    ensures SplitLines(s, keepEnds) == [] <==> s == ""
  {
    SplitFromEmpty(s, "", keepEnds);
  }

  /** Reading a break-free line followed by "\n" yields that line and restarts. */
  lemma {:induction false} ScanLine(p: string, rest: string, current: string, keepEnds: bool)
    requires NoBreak(current) && NoBreak(p)
    ensures SplitLinesFrom(p + "\n" + rest, current, keepEnds)
         == [current + p + (if keepEnds then "\n" else "")] + SplitLinesFrom(rest, "", keepEnds)
    decreases |p|
  {
    var s := p + "\n" + rest;
    if |p| == 0 {
      assert s == "\n" + rest;
      assert s[0] == '\n' && s[1..] == rest && [s[0]] == "\n";
      assert current + p == current;
    } else {
      assert s[0] == p[0] && !IsLineBreak(s[0]);
      assert s[1..] == p[1..] + "\n" + rest;
      ScanLine(p[1..], rest, current + [p[0]], keepEnds);
      assert current + [p[0]] + p[1..] == current + p;
    }
  }

  /** Reading a break-free, non-empty last line yields exactly that line. */
  lemma {:induction false} ScanLastLine(p: string, current: string, keepEnds: bool)
    requires NoBreak(current) && NoBreak(p) && |current + p| > 0
    ensures SplitLinesFrom(p, current, keepEnds) == [current + p]
    decreases |p|
  {
    if |p| > 0 {
      assert !IsLineBreak(p[0]);
      ScanLastLine(p[1..], current + [p[0]], keepEnds);
      assert current + [p[0]] + p[1..] == current + p;
    } else {
      assert current + p == current;
    }
  }

  /**
   * Joining break-free lines with "\n" and ending with one "\n" is undone by
   * `splitlines()`: the text has exactly those lines.
   */
  lemma {:induction false} SplitLinesOfJoin(parts: seq<string>)
    requires |parts| >= 1
    requires forall i :: 0 <= i < |parts| ==> NoBreak(parts[i])
    ensures SplitLines(Join(parts, "\n") + "\n", false) == parts
  {
    assert "" + parts[0] + "" == parts[0];
    if |parts| == 1 {
      assert Join(parts, "\n") + "\n" == parts[0] + "\n" + "";
      ScanLine(parts[0], "", "", false);
      assert SplitLinesFrom("", "", false) == [];
    } else {
      var tail := Join(parts[1..], "\n") + "\n";
      assert Join(parts, "\n") + "\n" == parts[0] + "\n" + tail;
      ScanLine(parts[0], tail, "", false);
      SplitLinesOfJoin(parts[1..]);
      assert parts == [parts[0]] + parts[1..];
    }
  }
}
