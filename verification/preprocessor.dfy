/**
 * `PreProcesser` of msl/preprocesser.py (compiler/preprocesser.py is the same
 * file): `add_endings`, which trims every line and closes statements with `;`,
 * and `include`, which splices the text of `include <name>` files into the source.
 */
module Preprocessor {
  import opened Results
  import opened Strings
  import opened Lines

  /** `MINECRAFT_KEYWORDS`: a line starting with one of these is a command. */
  const Keywords: seq<string> := [
    "advancement", "attribute", "ban", "ban-ip", "banlist", "bossbar", "clear", "clone", "data",
    "datapack", "debug", "defaultgamemode", "deop", "difficult", "effect", "enchant", "execute",
    "experience", "fill", "forceload", "function", "gamemode", "gamerule", "give", "help", "item",
    "jfr", "kick", "kill", "list", "locate", "locatebiome", "loot", "me", "msg", "op", "pardon",
    "pardon-ip", "particle", "playsound", "publish", "recipe", "reload", "save-all", "save-off",
    "save-on", "say", "schedule", "scoreboard", "seed", "setblock", "setidletimeout",
    "setworldspawn", "spawnpoint", "spectate", "spreadplayers", "stop", "stopsound", "summon",
    "tag", "team", "teammsg", "teleport", "tell", "tellraw", "time", "title", "tm", "tp",
    "trigger", "w", "weather", "whitelist", "worldborder", "xp"
  ]

  /** The characters that already close a line: `tuple("{(},;")`. */
  const Terminators: set<char> := {'{', '(', '}', ',', ';'}

  /** Python's `s.startswith(tuple(prefixes))`. */
  predicate StartsWithAny(s: string, prefixes: seq<string>) {
    exists k :: 0 <= k < |prefixes| && StartsWith(s, prefixes[k])
  }

  /** `rstrip("\n ")` followed by `lstrip("\t ")`. */
  function Trim(line: string): string {
    StripLeft(StripRight(line, {'\n', ' '}), {'\t', ' '})
  }

  lemma TrimNoBreak(line: string)
    requires NoBreak(line)
    ensures NoBreak(Trim(line))
  {
    var u := StripRight(line, {'\n', ' '});
    var t := Trim(line);
    forall i | 0 <= i < |t| ensures !IsLineBreak(t[i]) {
      assert t[i] == u[|u| - |t| + i] == line[|u| - |t| + i];
    }
  }

  predicate Terminated(t: string) {
    |t| > 0 && t[|t| - 1] in Terminators
  }

  /** Outside a comment: does the trimmed line `t` get a `;`? */
  predicate NeedsEnding(t: string) {
    |t| > 0 && (StartsWithAny(t, Keywords) || (!Terminated(t) && !StartsWith(t, "//")))
  }

  /** A trimmed line outside a comment, closed when it needs it. */
  function Terminate(t: string): string {
    if NeedsEnding(t) then t + ";" else t
  }

  // A line opens a comment when its trimmed text starts with the comment opener.
  predicate Opens(line: string) {
    StartsWith(Trim(line), "/*")
  }

  // A line closes a comment when its trimmed text ends with the comment closer.
  predicate Closes(line: string) {
    EndsWith(Trim(line), "*/")
  }

  /** `Opens` of every line. */
  function OpenFlags(lines: seq<string>): (flags: seq<bool>)
    ensures |flags| == |lines|
    ensures forall j :: 0 <= j < |lines| ==> flags[j] == Opens(lines[j])
  {
    seq(|lines|, j requires 0 <= j < |lines| => Opens(lines[j]))
  }

  /** `Closes` of every line. */
  function CloseFlags(lines: seq<string>): (flags: seq<bool>)
    ensures |flags| == |lines|
    ensures forall j :: 0 <= j < |lines| ==> flags[j] == Closes(lines[j])
  {
    seq(|lines|, j requires 0 <= j < |lines| => Closes(lines[j]))
  }

  /**
   * A comment opened on a line before line `i` is still open when line `i`
   * is reached: no line from the opening one up to line `i - 1` closed it.
   */
  predicate OpenAt(opens: seq<bool>, closes: seq<bool>, i: int)
    requires 0 <= i <= |opens| && i <= |closes|
  {
    exists j :: 0 <= j < i && opens[j] && forall m :: j <= m < i ==> !closes[m]
  }

  /** A comment is open after line `i` exactly when line `i` opens or continues one and does not close it. */
  lemma OpenStep(opens: seq<bool>, closes: seq<bool>, i: int)
    requires 0 <= i < |opens| && i < |closes|
    ensures OpenAt(opens, closes, i + 1) <==> (opens[i] || OpenAt(opens, closes, i)) && !closes[i]
  {
    if OpenAt(opens, closes, i + 1) {
      var j :| 0 <= j < i + 1 && opens[j] && forall m :: j <= m < i + 1 ==> !closes[m];
      if j < i {
        assert OpenAt(opens, closes, i);
      }
    }
    if (opens[i] || OpenAt(opens, closes, i)) && !closes[i] {
      if opens[i] {
        assert forall m :: i <= m < i + 1 ==> !closes[m];
      } else {
        var j :| 0 <= j < i && opens[j] && forall m :: j <= m < i ==> !closes[m];
        assert forall m :: j <= m < i + 1 ==> !closes[m];
      }
    }
  }

  /** Line `i` lies in a comment region, the opening line included. */
  predicate InComment(lines: seq<string>, i: int)
    requires 0 <= i < |lines|
  {
    Opens(lines[i]) || OpenAt(OpenFlags(lines), CloseFlags(lines), i)
  }

  /** What `add_endings` makes of line `i`: comment lines are only trimmed. */
  function Ended(lines: seq<string>, i: int): string
    requires 0 <= i < |lines|
  {
    if InComment(lines, i) then Trim(lines[i]) else Terminate(Trim(lines[i]))
  }

  /**
   * The loop of `add_endings` over the lines, threading the `comment` flag.
   * Line by line it produces what `Ended` describes, so the flag it carries
   * is exactly "a comment opened earlier is still open".
   */
  method EndLines(lines: seq<string>) returns (out: seq<string>)
    ensures |out| == |lines|
    ensures forall i :: 0 <= i < |lines| ==> out[i] == Ended(lines, i)
  {
    var comment := false;
    out := [];
    for idx := 0 to |lines|
      invariant |out| == idx
      invariant forall i :: 0 <= i < idx ==> out[i] == Ended(lines, i)
      invariant comment <==> OpenAt(OpenFlags(lines), CloseFlags(lines), idx)
    {
      var line;
      line, comment := EndLine(lines[idx], comment);
      OpenStep(OpenFlags(lines), CloseFlags(lines), idx);
      Extend(lines, out, line);
      out := out + [line];
    }
  }

  /**
   * One pass of the loop of `add_endings`: the line is trimmed, then closed
   * unless it opens a comment or lies in one; the flag is set by an opening
   * line and cleared by a line whose result ends with the comment closer.
   */
  method EndLine(raw: string, comment: bool) returns (line: string, after: bool)
    ensures comment || Opens(raw) ==> line == Trim(raw)
    ensures !(comment || Opens(raw)) ==> line == Terminate(Trim(raw))
    ensures after <==> (comment || Opens(raw)) && !Closes(raw)
  {
    after := comment;
    line := Trim(raw);
    if |line| > 0 {
      if StartsWith(line, "/*") {
        after := true;
      }
      if !after {
        if StartsWithAny(line, Keywords) {
          line := line + ";";
        } else if !Terminated(line) && !StartsWith(line, "//") {
          line := line + ";";
        }
      }
    }
    if EndsWith(line, "*/") {
      after := false;
    }
  }

  lemma Extend(lines: seq<string>, out: seq<string>, line: string)
    requires |out| < |lines|
    requires forall i :: 0 <= i < |out| ==> out[i] == Ended(lines, i)
    requires line == Ended(lines, |out|)
    ensures forall i :: 0 <= i <= |out| ==> (out + [line])[i] == Ended(lines, i)
  {
  }

  /** Every line comes out trimmed, with at most one `;` added, and still free of line breaks. */
  lemma EndedShape(lines: seq<string>, i: int)
    requires 0 <= i < |lines|
    ensures Ended(lines, i) == Trim(lines[i]) || Ended(lines, i) == Trim(lines[i]) + ";"
    ensures NoBreak(lines[i]) ==> NoBreak(Ended(lines, i))
  {
    var t := Trim(lines[i]);
    if NoBreak(lines[i]) {
      TrimNoBreak(lines[i]);
    }
    if !InComment(lines, i) {
      TerminateShape(t);
    }
  }

  /** Closing a line adds at most one `;` and no line break. */
  lemma TerminateShape(t: string)
    ensures Terminate(t) == t || Terminate(t) == t + ";"
    ensures NoBreak(t) ==> NoBreak(Terminate(t))
  {
    if NeedsEnding(t) && NoBreak(t) {
      SemicolonNoBreak(t);
    }
  }

  lemma SemicolonNoBreak(t: string)
    requires NoBreak(t)
    ensures NoBreak(t + ";")
  {
    assert forall k :: 0 <= k < |t + ";"| ==> (t + ";")[k] == if k < |t| then t[k] else ';';
  }

  /**
   * `add_endings`: the source is cut into lines with `splitlines()`, each line
   * is ended, and the lines are joined with "\n" plus one final "\n". Reading
   * the result back with `splitlines()` gives one line per source line, line
   * `i` being what `Ended` says; a source without lines gives a lone "\n".
   */
  method AddEndings(source: string) returns (r: string)
    ensures EndsWith(r, "\n")
    ensures SplitLines(source, false) == [] ==> r == "\n"
    ensures var lines := SplitLines(source, false);
      |lines| >= 1 ==> |SplitLines(r, false)| == |lines|
    ensures var lines := SplitLines(source, false);
      |lines| >= 1 ==> forall i :: 0 <= i < |lines| ==> SplitLines(r, false)[i] == Ended(lines, i)
    ensures var lines := SplitLines(source, false);
      r == Join(seq(|lines|, i requires 0 <= i < |lines| => Ended(lines, i)), "\n") + "\n"
  {
    var lines := SplitLines(source, false);
    var out := EndLines(lines);
    assert out == seq(|lines|, i requires 0 <= i < |lines| => Ended(lines, i));
    r := Join(out, "\n") + "\n";
    if |lines| >= 1 {
      forall i | 0 <= i < |out| ensures NoBreak(out[i]) {
        EndedShape(lines, i);
      }
      SplitLinesOfJoin(out);
    }
  }

  /**
   * Outside comments a line beginning with a keyword is always closed, even
   * when it already ends with `;`.
   */
  lemma KeywordEnded(lines: seq<string>, i: int)
    requires 0 <= i < |lines|
    requires !InComment(lines, i) && |Trim(lines[i])| > 0 && StartsWithAny(Trim(lines[i]), Keywords)
    ensures Ended(lines, i) == Trim(lines[i]) + ";"
  {
  }

  /**
   * Outside comments a non-keyword line is left as trimmed exactly when it is
   * empty, ends with one of `{ ( } , ;` or starts with `//`.
   */
  lemma PlainEnded(lines: seq<string>, i: int)
    requires 0 <= i < |lines|
    requires !InComment(lines, i) && !StartsWithAny(Trim(lines[i]), Keywords)
    ensures var t := Trim(lines[i]);
      Ended(lines, i) == t <==> |t| == 0 || Terminated(t) || StartsWith(t, "//")
  {
  }

  /**
   * A region from a line opening a comment to the first line closing it is
   * only trimmed, and the line after it is outside any comment unless it
   * opens a new one.
   */
  lemma CommentRegion(lines: seq<string>, j: int, k: int)
    requires 0 <= j <= k < |lines|
    requires OpenFlags(lines)[j] && CloseFlags(lines)[k]
    requires forall m :: j <= m < k ==> !CloseFlags(lines)[m]
    ensures forall i :: j <= i <= k ==> Ended(lines, i) == Trim(lines[i])
    ensures k + 1 < |lines| ==> (InComment(lines, k + 1) <==> Opens(lines[k + 1]))
  {
    forall i | j <= i <= k
      ensures InComment(lines, i)
    {
      if j < i {
        StillOpen(OpenFlags(lines), CloseFlags(lines), j, i);
      }
    }
    if k + 1 < |lines| {
      AfterRegion(lines, k);
    }
  }

  lemma StillOpen(opens: seq<bool>, closes: seq<bool>, j: int, i: int)
    requires 0 <= j < i <= |opens| && i <= |closes|
    requires opens[j] && forall m :: j <= m < i ==> !closes[m]
    ensures OpenAt(opens, closes, i)
  {
  }

  lemma AfterRegion(lines: seq<string>, k: int)
    requires 0 <= k && k + 1 < |lines|
    requires CloseFlags(lines)[k]
    ensures InComment(lines, k + 1) <==> Opens(lines[k + 1])
  {
  }

  // include

  /** `[\w\.]`, with `\w` read as the ASCII word characters. */
  predicate IsNameChar(c: char) {
    'a' <= c <= 'z' || 'A' <= c <= 'Z' || '0' <= c <= '9' || c == '_' || c == '.'
  }

  /** The length of the run of name characters at the front of `s`. */
  function NameRun(s: string): (n: nat)
    ensures n <= |s|
    ensures forall i :: 0 <= i < n ==> IsNameChar(s[i])
    ensures n < |s| ==> !IsNameChar(s[n])
  {
    if |s| > 0 && IsNameChar(s[0]) then 1 + NameRun(s[1..]) else 0
  }

  /** The file name of a directive `include <name>` at the front of `s`, if one is there. */
  function IncludeAt(s: string): (r: Option<string>)
    ensures r.Some? ==> StartsWith(s, "include <" + r.value + ">") && |r.value| >= 1
    ensures r.Some? ==> forall i :: 0 <= i < |r.value| ==> IsNameChar(r.value[i])
  {
    if StartsWith(s, "include <") then
      var n := NameRun(s[9..]);
      if n >= 1 && 9 + n < |s| && s[9 + n] == '>' then
        var name := s[9..9 + n];
        assert s[..9 + n + 1] == "include <" + name + ">";
        Some(name)
      else None
    else None
  }

  /**
   * `PreProcesser.replace`: the text of the named file next to the source
   * file, here looked up in `files`; a missing file gives `None`, which
   * `re.sub` inserts as nothing.
   */
  function Read(files: map<string, string>, name: string): string {
    if name in files then files[name] else ""
  }

  /** `re.sub` of `include <[\w\.]+>` over one line, in a single left-to-right pass. */
  function Splice(s: string, files: map<string, string>): string
    decreases |s|
  {
    if |s| == 0 then ""
    else
      match IncludeAt(s)
      case Some(name) => Read(files, name) + Splice(s[|name| + 10..], files)
      case None => [s[0]] + Splice(s[1..], files)
  }

  /** The loop body of `include`: only lines starting with `include` are rewritten. */
  function Rewrite(line: string, files: map<string, string>): string {
    if StartsWith(line, "include") then Splice(line, files) else line
  }

  /** `PreProcesser.include`: the lines, kept with their breaks, rewritten and joined. */
  function Include(source: string, files: map<string, string>): string {
    var lines := SplitLines(source, true);
    Concat(seq(|lines|, i requires 0 <= i < |lines| => Rewrite(lines[i], files)))
  }

  /** Source with no line starting with `include` comes back unchanged. */
  lemma IncludeIdentity(source: string, files: map<string, string>)
    requires forall i :: 0 <= i < |SplitLines(source, true)| ==> !StartsWith(SplitLines(source, true)[i], "include")
    ensures Include(source, files) == source
  {
    var lines := SplitLines(source, true);
    assert seq(|lines|, i requires 0 <= i < |lines| => Rewrite(lines[i], files)) == lines;
    ConcatSplitLines(source);
  }

  /**
   * A directive is replaced by the file's text verbatim and scanning goes on
   * after the directive: the inserted text is never scanned itself.
   */
  lemma SpliceDirective(name: string, rest: string, files: map<string, string>)
    requires |name| >= 1 && forall i :: 0 <= i < |name| ==> IsNameChar(name[i])
    ensures Splice("include <" + name + ">" + rest, files) == Read(files, name) + Splice(rest, files)
  {
    var s := "include <" + name + ">" + rest;
    assert s[9..] == name + ">" + rest;
    NameRunStops(name + ">" + rest, |name|);
    assert s[9..9 + |name|] == name;
    assert IncludeAt(s) == Some(name);
    assert s[|name| + 10..] == rest;
  }

  lemma {:induction false} NameRunStops(s: string, n: nat)
    requires n < |s| && !IsNameChar(s[n])
    requires forall i :: 0 <= i < n ==> IsNameChar(s[i])
    ensures NameRun(s) == n
  {
    if n > 0 {
      NameRunStops(s[1..], n - 1);
    }
  }
}
