/**
 * The command objects of msl/ast.py and the way `GroupNode` composes
 * `as(...)`/`at(...)` specifiers into one `execute ... run ...` line.
 */
module Commands {
  import opened Strings

  /**
   * `MinecraftCommand`, `ExecuteCommand` and `MinecraftComment`. An `Exec` value
   * holds the text after the `execute ` keyword, which `toStr` adds once.
   */
  datatype Output = Cmd(value: string) | Exec(value: string) | Comment(value: string)

  /** `toStr` of one command. */
  function Line(o: Output): string {
    match o
    case Cmd(v) => v
    case Exec(v) => "execute " + v
    case Comment(v) => v
  }

  /** `MinecraftCommandList.toStr`: the lines joined with "\n". */
  function Serialize(os: seq<Output>): string {
    Join(seq(|os|, i requires 0 <= i < |os| => Line(os[i])), "\n")
  }

  /**
   * `toStr` loses nothing when no command spans two lines: splitting the text
   * at line breaks gives back one line per command, in order; no commands give
   * the empty text.
   */
  lemma SerializeSplits(os: seq<Output>)
    requires forall i :: 0 <= i < |os| ==> '\n' !in Line(os[i])
    ensures |os| == 0 ==> Serialize(os) == ""
    ensures |os| > 0 ==> |Split(Serialize(os), '\n')| == |os|
    ensures |os| > 0 ==> forall i :: 0 <= i < |os| ==> Split(Serialize(os), '\n')[i] == Line(os[i])
  {
    if |os| > 0 {
      SplitJoin(seq(|os|, i requires 0 <= i < |os| => Line(os[i])), '\n');
    }
  }

  /** One `EXEC ( STRING )` clause of a group specifier, the target still quoted. */
  datatype Clause = Clause(keyword: string, target: string)

  /** `GroupSpecNode` built from one clause: the keyword, a space, the unquoted target. */
  function ClauseText(c: Clause): string {
    c.keyword + " " + Unquote(c.target)
  }

  /** The specifier text of a comma-separated clause list. */
  function SpecText(clauses: seq<Clause>): string {
    Join(seq(|clauses|, i requires 0 <= i < |clauses| => ClauseText(clauses[i])), " ")
  }

  /**
   * `GroupSpecNode.append`: adding a clause to a specifier appends a space and the
   * clause's text, so a list of clauses reads as the clauses in declaration order.
   */
  lemma SpecAppend(clauses: seq<Clause>, c: Clause)
    requires |clauses| >= 1
    ensures SpecText(clauses + [c]) == SpecText(clauses) + " " + ClauseText(c)
  {
    var texts := seq(|clauses|, i requires 0 <= i < |clauses| => ClauseText(clauses[i]));
    assert seq(|clauses + [c]|, i requires 0 <= i < |clauses + [c]| => ClauseText((clauses + [c])[i]))
        == texts + [ClauseText(c)];
    JoinSnoc(texts, " ", ClauseText(c));
  }

  /** The specifier of two clause lists written one after the other. */
  lemma SpecConcat(outer: seq<Clause>, inner: seq<Clause>)
    requires |outer| >= 1 && |inner| >= 1
    ensures SpecText(outer + inner) == SpecText(outer) + " " + SpecText(inner)
  {
    var a := seq(|outer|, i requires 0 <= i < |outer| => ClauseText(outer[i]));
    var b := seq(|inner|, i requires 0 <= i < |inner| => ClauseText(inner[i]));
    assert seq(|outer + inner|, i requires 0 <= i < |outer + inner| => ClauseText((outer + inner)[i]))
        == a + b;
    JoinAppend(a, b, " ");
  }

  /** What `GroupNode` makes of one command of its body. */
  function WrapOne(spec: string, o: Output): Output {
    match o
    case Cmd(v) => Exec(spec + " run " + v)
    case Exec(v) => Exec(spec + " " + v)
    case Comment(_) => o
  }

  /**
   * The loop of `GroupNode.interpret` over its body's commands: one item per
   * item, in order; commands become execute commands under `spec`, and
   * comments pass through.
   */
  function Wrap(spec: string, os: seq<Output>): (r: seq<Output>)
    ensures |r| == |os|
    ensures forall i :: 0 <= i < |os| ==> os[i].Comment? ==> r[i] == os[i]
    ensures forall i :: 0 <= i < |os| ==> os[i].Cmd? ==> r[i] == Exec(spec + " run " + os[i].value)
    ensures forall i :: 0 <= i < |os| ==> os[i].Exec? ==> r[i] == Exec(spec + " " + os[i].value)
  {
    if |os| == 0 then [] else [WrapOne(spec, os[0])] + Wrap(spec, os[1..])
  }

  /**
   * A group with specifier `inner` inside a group with specifier `outer` yields
   * the same commands as a single group whose specifier is `outer + " " + inner`.
   */
  lemma {:induction false} WrapNested(outer: string, inner: string, os: seq<Output>)
    ensures Wrap(outer, Wrap(inner, os)) == Wrap(outer + " " + inner, os)
  {
    if |os| > 0 {
      WrapOneNested(outer, inner, os[0]);
      assert Wrap(inner, os)[1..] == Wrap(inner, os[1..]);
      WrapNested(outer, inner, os[1..]);
    }
  }

  lemma WrapOneNested(outer: string, inner: string, o: Output)
    ensures WrapOne(outer, WrapOne(inner, o)) == WrapOne(outer + " " + inner, o)
  {
    match o
    case Cmd(v) =>
      assert outer + " " + (inner + " run " + v) == (outer + " " + inner) + " run " + v;
    case Exec(v) =>
      assert outer + " " + (inner + " " + v) == (outer + " " + inner) + " " + v;
    case Comment(_) =>
  }

  /**
   * Every non-comment line a group emits starts with a single `execute `
   * followed by the specifier: the inner text never carries its own `execute`.
   * Comment lines come out as they went in.
   */
  lemma GroupLines(spec: string, os: seq<Output>, i: int)
    requires 0 <= i < |os|
    ensures Line(Wrap(spec, os)[i])
         == if os[i].Comment? then os[i].value
            else "execute " + spec + " " + (if os[i].Cmd? then "run " + os[i].value else os[i].value)
  {
    var w := Wrap(spec, os)[i];
    assert w == WrapOne(spec, os[i]);
    if !os[i].Comment? {
      OneLine(spec, os[i]);
    }
  }

  lemma OneLine(spec: string, o: Output)
    requires !o.Comment?
    ensures Line(WrapOne(spec, o)) == "execute " + spec + " " + (if o.Cmd? then "run " + o.value else o.value)
  {
    if o.Cmd? {
      assert "execute " + (spec + " run " + o.value) == "execute " + spec + " " + ("run " + o.value);
    } else {
      assert "execute " + (spec + " " + o.value) == "execute " + spec + " " + o.value;
    }
  }
}
