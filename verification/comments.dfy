/**
 * `CommentNode.interpret` of msl/ast.py: a `/* ... */` comment of the source
 * becomes a block of Minecraft `#` comment lines.
 */
module Comments {
  import opened Strings

  /** The characters stripped from both ends: `lstrip("/*\n ")` and `rstrip("*/\n ")` use the same set. */
  const Marks: set<char> := {'/', '*', '\n', ' '}

  /** The lines of the comment's text once its delimiters are stripped. */
  function Body(text: string): (lines: seq<string>)
    ensures |lines| >= 1
    ensures forall i :: 0 <= i < |lines| ==> '\n' !in lines[i]
    ensures Join(lines, "\n") == StripRight(StripLeft(text, Marks), Marks)
  {
    var stripped := StripRight(StripLeft(text, Marks), Marks);
    JoinSplit(stripped, '\n');
    Split(stripped, '\n')
  }

  /** The first line: lower-cased, letter by letter, when it starts with `>`, else preceded by a space. */
  function Lead(line: string): (r: string)
    ensures StartsWith(line, ">") ==> |r| == |line| && r[0] == '>'
    ensures StartsWith(line, ">") ==> forall i :: 0 <= i < |line| ==> r[i] == LowerChar(line[i])
    ensures !StartsWith(line, ">") ==> r == " " + line
    ensures '\n' in r <==> '\n' in line
  {
    if StartsWith(line, ">") then AsciiLower(line) else " " + line
  }

  /** The comment text `CommentNode` returns. */
  function Render(text: string): string {
    var lines := Body(text);
    "#" + Join([Lead(lines[0])] + lines[1..], "\n# ")
  }

  /** Each line with `p` in front. */
  function Prefixed(p: string, lines: seq<string>): (r: seq<string>)
    ensures |r| == |lines|
    ensures forall i :: 0 <= i < |lines| ==> r[i] == p + lines[i]
  {
    seq(|lines|, i requires 0 <= i < |lines| => p + lines[i])
  }

  /** Joining with `"\n# "` after a prefix `p` is joining with `"\n"` the lines prefixed `p`, then `"# "`. */
  lemma {:induction false} JoinHashed(p: string, lines: seq<string>)
    requires |lines| >= 1
    ensures p + Join(lines, "\n# ") == Join([p + lines[0]] + Prefixed("# ", lines[1..]), "\n")
    decreases |lines|
  {
    if |lines| > 1 {
      var tail := lines[1..];
      JoinHashed("# ", tail);
      assert Prefixed("# ", tail) == ["# " + tail[0]] + Prefixed("# ", tail[1..]);
      assert p + (lines[0] + "\n# " + Join(tail, "\n# "))
          == (p + lines[0]) + "\n" + ("# " + Join(tail, "\n# "));
    }
  }

  /** The `#` lines a comment body becomes, one per body line. */
  function CommentLines(lines: seq<string>): (r: seq<string>)
    requires |lines| >= 1
    ensures |r| == |lines|
    ensures r[0] == "#" + Lead(lines[0])
    ensures forall i :: 1 <= i < |lines| ==> r[i] == "# " + lines[i]
    ensures forall i :: 0 <= i < |r| ==> StartsWith(r[i], "#")
    ensures (forall i :: 0 <= i < |lines| ==> '\n' !in lines[i]) ==> forall i :: 0 <= i < |r| ==> '\n' !in r[i]
  {
    var r := ["#" + Lead(lines[0])] + Prefixed("# ", lines[1..]);
    assert forall i :: 0 <= i < |r| ==> StartsWith(r[i], "#") by {
      forall i | 0 <= i < |r| ensures StartsWith(r[i], "#") {
        if i == 0 {
          assert r[0] == "#" + Lead(lines[0]);
        } else {
          assert r[i] == "# " + lines[i];
        }
      }
    }
    r
  }

  /**
   * The rendered comment, split at its line breaks, gives back exactly the
   * `#` lines of its body: as many lines as the body has, in order, each a
   * Minecraft comment.
   */
  lemma RenderLines(text: string)
    ensures Split(Render(text), '\n') == CommentLines(Body(text))
  {
    var lines := Body(text);
    var head := [Lead(lines[0])] + lines[1..];
    JoinHashed("#", head);
    assert head[1..] == lines[1..];
    SplitJoin(CommentLines(lines), '\n');
  }
}
