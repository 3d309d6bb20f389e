/**
 * What the interpreter of msl/ast.py promises about blocks, groups, loops and
 * function files, stated over the model of the `Interpreter` module.
 */
module InterpreterFacts {
  import opened Results
  import opened Strings
  import opened Values
  import opened Scopes
  import opened Commands
  import Comments
  import Substitution
  import opened Interpreter

  /** Runs `ss` after a block result `first`, concatenating the commands. */
  function AndThen(first: Result<(State, seq<Output>)>, ss: seq<Stmt>, fuel: nat): Result<(State, seq<Output>)> {
    var (st1, os1) :- first;
    var (st2, os2) :- InterpretBlock(ss, st1, fuel);
    Ok((st2, os1 + os2))
  }

  /**
   * A block is its statements in order: running `ss1 + ss2` is running `ss1`,
   * then `ss2` from the state it left, with the commands concatenated; an error
   * in `ss1` is the block's error and `ss2` never runs.
   */
  lemma {:induction false} BlockConcatenates(ss1: seq<Stmt>, ss2: seq<Stmt>, st: State, fuel: nat)
    ensures InterpretBlock(ss1 + ss2, st, fuel) == AndThen(InterpretBlock(ss1, st, fuel), ss2, fuel)
    decreases |ss1|
  {
    if |ss1| == 0 {
      assert ss1 + ss2 == ss2;
      match InterpretBlock(ss2, st, fuel)
      case Ok((st2, os2)) => assert [] + os2 == os2;
      case Err(_) =>
    } else {
      assert (ss1 + ss2)[0] == ss1[0];
      assert (ss1 + ss2)[1..] == ss1[1..] + ss2;
      match Interpret(ss1[0], st, fuel)
      case Err(_) =>
      case Ok((st1, p)) =>
        BlockConcatenates(ss1[1..], ss2, st1, fuel);
        match InterpretBlock(ss1[1..], st1, fuel)
        case Err(_) =>
        case Ok((stm, osm)) =>
          match InterpretBlock(ss2, stm, fuel)
          case Err(_) =>
          case Ok((st2, os2)) =>
            assert Emitted(p) + (osm + os2) == (Emitted(p) + osm) + os2;
    }
  }

  /**
   * A block of one statement keeps that statement's commands: a command is
   * added, a list spliced in, a plain value (`NULL` included) dropped.
   */
  lemma BlockOfOne(s: Stmt, st: State, fuel: nat)
    ensures Interpret(s, st, fuel).Err? ==> InterpretBlock([s], st, fuel) == Err(Interpret(s, st, fuel).error)
    ensures Interpret(s, st, fuel).Ok? ==>
              InterpretBlock([s], st, fuel) == Ok((Interpret(s, st, fuel).value.0, Emitted(Interpret(s, st, fuel).value.1)))
    ensures Interpret(s, st, fuel).Ok? && Interpret(s, st, fuel).value.1.Val? ==> InterpretBlock([s], st, fuel).value.1 == []
  {
    assert [s][1..] == [];
    match Interpret(s, st, fuel)
    case Err(_) =>
    case Ok((st1, p)) => assert Emitted(p) + [] == Emitted(p);
  }

  /**
   * A group whose body is a single inner group yields the same result as one
   * group carrying both clause lists, outer clauses first.
   */
  lemma GroupNesting(outer: seq<Clause>, inner: seq<Clause>, body: seq<Stmt>, st: State, fuel: nat)
    requires |outer| >= 1 && |inner| >= 1
    ensures Interpret(Group(outer, [Group(inner, body)]), st, fuel) == Interpret(Group(outer + inner, body), st, fuel)
  {
    BlockOfOne(Group(inner, body), st, fuel);
    SpecConcat(outer, inner);
    match InterpretBlock(body, st, fuel)
    case Err(_) =>
    case Ok((st1, os)) =>
      WrapNested(SpecText(outer), SpecText(inner), os);
  }

  /**
   * A group emits one command per command of its body, in order: a plain
   * command becomes `execute <spec> run <cmd>`, an execute command gains the
   * specifier after `execute `, a comment is kept.
   */
  lemma GroupLineByLine(clauses: seq<Clause>, body: seq<Stmt>, st: State, fuel: nat, i: int)
    requires InterpretBlock(body, st, fuel).Ok?
    requires 0 <= i < |InterpretBlock(body, st, fuel).value.1|
    ensures Interpret(Group(clauses, body), st, fuel).Ok?
    ensures |Emitted(Interpret(Group(clauses, body), st, fuel).value.1)| == |InterpretBlock(body, st, fuel).value.1|
    ensures var o := InterpretBlock(body, st, fuel).value.1[i];
            Line(Emitted(Interpret(Group(clauses, body), st, fuel).value.1)[i])
            == if o.Comment? then o.value
               else "execute " + SpecText(clauses) + " " + (if o.Cmd? then "run " + o.value else o.value)
  {
    var os := InterpretBlock(body, st, fuel).value.1;
    GroupRuns(clauses, body, st, fuel);
    assert Emitted(Interpret(Group(clauses, body), st, fuel).value.1) == Wrap(SpecText(clauses), os);
    GroupLines(SpecText(clauses), os, i);
  }

  /** A group whose body runs emits its body's commands under its specifier. */
  lemma GroupRuns(clauses: seq<Clause>, body: seq<Stmt>, st: State, fuel: nat)
    requires InterpretBlock(body, st, fuel).Ok?
    ensures Interpret(Group(clauses, body), st, fuel)
         == Ok((InterpretBlock(body, st, fuel).value.0, Many(Wrap(SpecText(clauses), InterpretBlock(body, st, fuel).value.1))))
  {
  }

  /** A `for` loop whose initializer fails fails with that error, the rest never running. */
  lemma ForInitFails(init: Stmt, cond: Expr, step: Stmt, body: seq<Stmt>, st: State, fuel: nat)
    requires Interpret(init, st, fuel).Err?
    ensures Interpret(For(init, cond, step, body), st, fuel) == Err(Interpret(init, st, fuel).error)
  {
  }

  /** A `for` loop whose condition is false after the initializer emits nothing. */
  lemma ForConditionFalse(init: Stmt, cond: Expr, step: Stmt, body: seq<Stmt>, st: State, fuel: nat)
    requires Interpret(init, st, fuel).Ok?
    requires Eval(cond, Interpret(init, st, fuel).value.0.ctx).Ok?
    requires !Truthy(Eval(cond, Interpret(init, st, fuel).value.0.ctx).value)
    ensures Interpret(For(init, cond, step, body), st, fuel) == Ok((Interpret(init, st, fuel).value.0, Many([])))
  {
    var st1 := Interpret(init, st, fuel).value.0;
    ForRuns(init, cond, step, body, st, fuel, st1, Interpret(init, st, fuel).value.1);
    LoopStops(cond, Some(step), body, st1, fuel);
  }

  /** `os` in front of the commands of a block result. */
  function Prepend(os: seq<Output>, r: Result<(State, seq<Output>)>): Result<(State, seq<Output>)> {
    if r.Ok? then Ok((r.value.0, os + r.value.1)) else r
  }

  /**
   * One iteration of a `for`/`while` loop, with the condition true: an error in
   * the body or in the step is the loop's error; otherwise the output is the
   * body's commands followed by those of the remaining iterations, which start
   * from the state the step left.
   */
  lemma LoopUnrolls(cond: Expr, step: Option<Stmt>, body: seq<Stmt>, st: State, fuel: nat)
    requires Eval(cond, st.ctx).Ok? && Truthy(Eval(cond, st.ctx).value) && fuel > 0
    ensures InterpretBlock(body, st, fuel - 1).Err? ==>
              Loop(cond, step, body, st, fuel) == Err(InterpretBlock(body, st, fuel - 1).error)
    ensures InterpretBlock(body, st, fuel - 1).Ok? && Step(step, InterpretBlock(body, st, fuel - 1).value.0, fuel - 1).Err? ==>
              Loop(cond, step, body, st, fuel) == Err(Step(step, InterpretBlock(body, st, fuel - 1).value.0, fuel - 1).error)
    ensures InterpretBlock(body, st, fuel - 1).Ok? && Step(step, InterpretBlock(body, st, fuel - 1).value.0, fuel - 1).Ok? ==>
              Loop(cond, step, body, st, fuel)
              == Prepend(InterpretBlock(body, st, fuel - 1).value.1,
                         Loop(cond, step, body, Step(step, InterpretBlock(body, st, fuel - 1).value.0, fuel - 1).value, fuel - 1))
  {
  }

  /** An error in the loop's condition is the loop's error, whatever the fuel. */
  lemma LoopConditionFails(cond: Expr, step: Option<Stmt>, body: seq<Stmt>, st: State, fuel: nat)
    requires Eval(cond, st.ctx).Err?
    ensures Loop(cond, step, body, st, fuel) == Err(Eval(cond, st.ctx).error)
  {
  }

  /** `Extends` chains: a state extending one that extends `a` extends `a`. */
  lemma ExtendsTrans(a: State, b: State, c: State)
    requires Extends(a, b) && Extends(b, c)
    ensures Extends(a, c)
  {
    assert c.files[..|b.files|][..|a.files|] == c.files[..|a.files|];
  }

  /**
   * The function files form a write log: a statement that succeeds only
   * appends to it (a `FuncNode` adds its file at the end) and never swaps the
   * context's parent for another.
   */
  lemma {:induction false} InterpretKeeps(s: Stmt, st: State, fuel: nat)
    ensures Interpret(s, st, fuel).Ok? ==> Extends(st, Interpret(s, st, fuel).value.0)
    decreases fuel, s
  {
    match s
    case Func(quotedName, body) =>
      BlockKeeps(body, st, fuel);
      if InterpretBlock(body, st, fuel).Ok? {
        var st1 := InterpretBlock(body, st, fuel).value.0;
        var st2 := st1.(files := st1.files + [FuncFile(Unquote(quotedName), Serialize(InterpretBlock(body, st, fuel).value.1))]);
        assert st2.files[..|st1.files|] == st1.files;
        ExtendsTrans(st, st1, st2);
      }
    case Group(_, body) => BlockKeeps(body, st, fuel);
    case For(init, cond, step, body) =>
      InterpretKeeps(init, st, fuel);
      if Interpret(init, st, fuel).Ok? {
        var st1 := Interpret(init, st, fuel).value.0;
        LoopKeeps(cond, Some(step), body, st1, fuel);
        if Loop(cond, Some(step), body, st1, fuel).Ok? {
          ExtendsTrans(st, st1, Loop(cond, Some(step), body, st1, fuel).value.0);
        }
      }
    case While(cond, body) => LoopKeeps(cond, None, body, st, fuel);
    case ScoreInit(decl, _) => InterpretKeeps(decl, st, fuel);
    case _ =>
  }

  lemma {:induction false} BlockKeeps(ss: seq<Stmt>, st: State, fuel: nat)
    ensures InterpretBlock(ss, st, fuel).Ok? ==> Extends(st, InterpretBlock(ss, st, fuel).value.0)
    decreases fuel, ss
  {
    if |ss| > 0 {
      InterpretKeeps(ss[0], st, fuel);
      if Interpret(ss[0], st, fuel).Ok? {
        var st1 := Interpret(ss[0], st, fuel).value.0;
        BlockKeeps(ss[1..], st1, fuel);
        if InterpretBlock(ss[1..], st1, fuel).Ok? {
          ExtendsTrans(st, st1, InterpretBlock(ss[1..], st1, fuel).value.0);
        }
      }
    }
  }

  lemma {:induction false} StepKeeps(step: Option<Stmt>, st: State, fuel: nat)
    ensures Step(step, st, fuel).Ok? ==> Extends(st, Step(step, st, fuel).value)
    decreases fuel, step
  {
    if step.Some? {
      InterpretKeeps(step.value, st, fuel);
    }
  }

  lemma {:induction false} LoopKeeps(cond: Expr, step: Option<Stmt>, body: seq<Stmt>, st: State, fuel: nat)
    ensures Loop(cond, step, body, st, fuel).Ok? ==> Extends(st, Loop(cond, step, body, st, fuel).value.0)
    decreases fuel, body, 1
  {
    IterateKeeps(cond, step, body, st, fuel);
  }

  lemma {:induction false} IterateKeeps(cond: Expr, step: Option<Stmt>, body: seq<Stmt>, st: State, fuel: nat)
    ensures Iterate(cond, step, body, st, fuel).Ok? ==> Extends(st, Iterate(cond, step, body, st, fuel).value.0)
    decreases fuel, body, 0
  {
    if fuel > 0 {
      var b := InterpretBlock(body, st, fuel - 1);
      BlockKeeps(body, st, fuel - 1);
      if b.Ok? {
        var s := Step(step, b.value.0, fuel - 1);
        StepKeeps(step, b.value.0, fuel - 1);
        if s.Ok? {
          var l := Loop(cond, step, body, s.value, fuel - 1);
          LoopKeeps(cond, step, body, s.value, fuel - 1);
          if l.Ok? {
            ExtendsTrans(st, b.value.0, s.value);
            ExtendsTrans(st, s.value, l.value.0);
          }
        }
      }
    }
  }

  /** Running a program only appends to the files written before. */
  lemma RunKeeps(program: seq<Stmt>, st: State, fuel: nat)
    ensures Run(program, st, fuel).Ok? ==> Extends(st, Run(program, st, fuel).value.0)
  {
    BlockKeeps(program, st, fuel);
  }

  /** A result other than running out of fuel. */
  predicate Settled<T>(r: Result<T>) {
    r.Err? ==> !r.error.OutOfFuel?
  }

  /**
   * Fuel only bounds loops: a statement that finishes, or fails for any reason
   * but the fuel, gives the same result with more fuel.
   */
  lemma {:induction false} InterpretFuel(s: Stmt, st: State, f: nat, g: nat)
    requires f <= g
    ensures Settled(Interpret(s, st, f)) ==> Interpret(s, st, g) == Interpret(s, st, f)
    decreases f, s
  {
    match s
    case Func(_, body) => BlockFuel(body, st, f, g);
    case Group(_, body) => BlockFuel(body, st, f, g);
    case For(init, cond, step, body) =>
      InterpretFuel(init, st, f, g);
      if Interpret(init, st, f).Ok? {
        LoopFuel(cond, Some(step), body, Interpret(init, st, f).value.0, f, g);
      }
    case While(cond, body) => LoopFuel(cond, None, body, st, f, g);
    case ScoreInit(decl, _) => InterpretFuel(decl, st, f, g);
    case _ => SimpleFuel(s, st, f, g);
  }

  /** A statement with no nested statement does not look at the fuel. */
  lemma SimpleFuel(s: Stmt, st: State, f: nat, g: nat)
    requires Simple(s) && !s.ScoreInit?
    ensures Interpret(s, st, g) == Interpret(s, st, f)
  {
    assert InterpretSimple(s, st, g) == InterpretSimple(s, st, f);
  }

  lemma {:induction false} BlockFuel(ss: seq<Stmt>, st: State, f: nat, g: nat)
    requires f <= g
    ensures Settled(InterpretBlock(ss, st, f)) ==> InterpretBlock(ss, st, g) == InterpretBlock(ss, st, f)
    decreases f, ss
  {
    if |ss| > 0 {
      InterpretFuel(ss[0], st, f, g);
      if Interpret(ss[0], st, f).Ok? {
        BlockFuel(ss[1..], Interpret(ss[0], st, f).value.0, f, g);
      }
    }
  }

  lemma {:induction false} StepFuel(step: Option<Stmt>, st: State, f: nat, g: nat)
    requires f <= g
    ensures Settled(Step(step, st, f)) ==> Step(step, st, g) == Step(step, st, f)
    decreases f, step
  {
    if step.Some? {
      InterpretFuel(step.value, st, f, g);
    }
  }

  lemma {:induction false} LoopFuel(cond: Expr, step: Option<Stmt>, body: seq<Stmt>, st: State, f: nat, g: nat)
    requires f <= g
    ensures Settled(Loop(cond, step, body, st, f)) ==> Loop(cond, step, body, st, g) == Loop(cond, step, body, st, f)
    decreases f, body, 2
  {
    IterateFuel(cond, step, body, st, f, g);
  }

  lemma {:induction false} IterateFuel(cond: Expr, step: Option<Stmt>, body: seq<Stmt>, st: State, f: nat, g: nat)
    requires f <= g
    ensures Settled(Iterate(cond, step, body, st, f)) ==> Iterate(cond, step, body, st, g) == Iterate(cond, step, body, st, f)
    decreases f, body, 1
  {
    if f > 0 {
      var b := InterpretBlock(body, st, f - 1);
      if b.Err? {
        BodyFailsFuel(cond, step, body, st, f, g);
      } else if Step(step, b.value.0, f - 1).Err? {
        StepFailsFuel(cond, step, body, st, f, g);
      } else {
        NextPassFuel(cond, step, body, st, f, g);
      }
    }
  }

  /** A pass whose body fails fails alike with more fuel, unless the body ran out of fuel. */
  lemma {:induction false} BodyFailsFuel(cond: Expr, step: Option<Stmt>, body: seq<Stmt>, st: State, f: nat, g: nat)
    requires 0 < f <= g && InterpretBlock(body, st, f - 1).Err?
    ensures Settled(Iterate(cond, step, body, st, f)) ==> Iterate(cond, step, body, st, g) == Iterate(cond, step, body, st, f)
    decreases f, body, 0
  {
    var b := InterpretBlock(body, st, f - 1);
    assert Iterate(cond, step, body, st, f) == Err(b.error);
    if b.error != OutOfFuel {
      BlockFuel(body, st, f - 1, g - 1);
      assert Iterate(cond, step, body, st, g) == Err(b.error);
    }
  }

  /** A pass whose step fails fails alike with more fuel, unless the step ran out of fuel. */
  lemma {:induction false} StepFailsFuel(cond: Expr, step: Option<Stmt>, body: seq<Stmt>, st: State, f: nat, g: nat)
    requires 0 < f <= g && InterpretBlock(body, st, f - 1).Ok?
    requires Step(step, InterpretBlock(body, st, f - 1).value.0, f - 1).Err?
    ensures Settled(Iterate(cond, step, body, st, f)) ==> Iterate(cond, step, body, st, g) == Iterate(cond, step, body, st, f)
    decreases f, body, 0
  {
    BlockFuel(body, st, f - 1, g - 1);
    StepFuel(step, InterpretBlock(body, st, f - 1).value.0, f - 1, g - 1);
  }

  /** A pass whose body and step succeed gives the same result with more fuel when the rest of the loop does. */
  lemma {:induction false} NextPassFuel(cond: Expr, step: Option<Stmt>, body: seq<Stmt>, st: State, f: nat, g: nat)
    requires 0 < f <= g && InterpretBlock(body, st, f - 1).Ok?
    requires Step(step, InterpretBlock(body, st, f - 1).value.0, f - 1).Ok?
    ensures Settled(Iterate(cond, step, body, st, f)) ==> Iterate(cond, step, body, st, g) == Iterate(cond, step, body, st, f)
    decreases f, body, 0
  {
    var st1 := InterpretBlock(body, st, f - 1).value.0;
    BlockFuel(body, st, f - 1, g - 1);
    StepFuel(step, st1, f - 1, g - 1);
    LoopFuel(cond, step, body, Step(step, st1, f - 1).value, f - 1, g - 1);
  }

  /** A program that finishes gives the same result with more fuel. */
  lemma RunFuel(program: seq<Stmt>, st: State, f: nat, g: nat)
    requires f <= g && Run(program, st, f).Ok?
    ensures Run(program, st, g) == Run(program, st, f)
  {
    BlockFuel(program, st, f, g);
  }

  /**
   * The statements whose result does not depend on, nor change, the state:
   * commands with no `$(...)` placeholder, comments, and groups of such.
   */
  predicate Plain(s: Stmt)
    decreases s
  {
    match s
    case McCmd(text) => !Substitution.HasPlaceholder(text)
    case CommentStmt(_) => true
    case Group(_, body) => PlainBlock(body)
    case _ => false
  }

  predicate PlainBlock(ss: seq<Stmt>)
    decreases ss
  {
    forall i :: 0 <= i < |ss| ==> Plain(ss[i])
  }

  /** The commands a plain block produces. */
  function PlainOutput(ss: seq<Stmt>): seq<Output>
    decreases ss
  {
    if |ss| == 0 then []
    else
      var s := ss[0];
      var first := match s
        case McCmd(text) => [Cmd(text)]
        case CommentStmt(text) => [Comment(Comments.Render(text))]
        case Group(clauses, body) => Wrap(SpecText(clauses), PlainOutput(body))
        case _ => [];
      first + PlainOutput(ss[1..])
  }

  /** A plain block leaves the state alone and produces `PlainOutput`, whatever the fuel. */
  lemma {:induction false} PlainBlockRuns(ss: seq<Stmt>, st: State, fuel: nat)
    requires PlainBlock(ss)
    ensures InterpretBlock(ss, st, fuel) == Ok((st, PlainOutput(ss)))
    decreases ss
  {
    if |ss| > 0 {
      var s := ss[0];
      assert Plain(s);
      if s.Group? {
        PlainBlockRuns(s.body, st, fuel);
      } else {
        PlainStmtRuns(s, st, fuel);
      }
      assert PlainBlock(ss[1..]) by {
        forall i | 0 <= i < |ss[1..]| ensures Plain(ss[1..][i]) { assert ss[1..][i] == ss[i + 1]; }
      }
      PlainBlockRuns(ss[1..], st, fuel);
    }
  }

  /** A plain command or comment leaves the state alone and produces its one line. */
  lemma PlainStmtRuns(s: Stmt, st: State, fuel: nat)
    requires Plain(s) && !s.Group?
    ensures Interpret(s, st, fuel).Ok? && Interpret(s, st, fuel).value.0 == st
    ensures Emitted(Interpret(s, st, fuel).value.1) == PlainOutput([s])
  {
    assert Interpret(s, st, fuel) == InterpretSimple(s, st, fuel);
  }

  /** Writing the same variable twice keeps only the second value. */
  lemma SetVariableTwice(c: Context, name: string, v: Value, w: Value)
    ensures SetVariable(SetVariable(c, name, v), name, w) == SetVariable(c, name, w)
  {
    assert c.variables[name := v][name := w] == c.variables[name := w];
  }

  /** `i++` where `i` holds `j` and is no score. */
  lemma IncrementAt(i: string, ctx: Context, files: seq<FuncFile>, j: int, fuel: nat)
    requires !IsScore(ctx, i)
    ensures Interpret(Increment(i), State(SetVariable(ctx, i, VInt(j)), files), fuel)
         == Ok((State(SetVariable(ctx, i, VInt(j + 1)), files), Val(VNull)))
  {
    var c := SetVariable(ctx, i, VInt(j));
    SetVariableFrame(ctx, i, VInt(j), i);
    SetVariableTwice(ctx, i, VInt(j), VInt(j + 1));
    assert StepVariable(c, i, true) == Ok((SetVariable(ctx, i, VInt(j + 1)), Val(VNull)));
  }

  /** A loop whose condition is false stops at once, whatever the fuel left. */
  lemma LoopStops(cond: Expr, step: Option<Stmt>, body: seq<Stmt>, st: State, fuel: nat)
    requires Eval(cond, st.ctx).Ok? && !Truthy(Eval(cond, st.ctx).value)
    ensures Loop(cond, step, body, st, fuel) == Ok((st, []))
  {
  }

  /** `i = k` for a name that is no score binds the variable and emits nothing. */
  lemma AssignFresh(i: string, k: int, st: State, fuel: nat)
    requires !IsScore(st.ctx, i)
    ensures Interpret(Assign(i, IntLit(k)), st, fuel) == Ok((State(SetVariable(st.ctx, i, VInt(k)), st.files), Val(VNull)))
  {
    assert AssignValue(st.ctx, i, VInt(k)) == (SetVariable(st.ctx, i, VInt(k)), Val(VNull));
  }

  /** A `for` loop whose initializer succeeds is its loop, from the state the initializer left. */
  lemma ForRuns(init: Stmt, cond: Expr, step: Stmt, body: seq<Stmt>, st: State, fuel: nat, st1: State, p: Piece)
    requires Interpret(init, st, fuel) == Ok((st1, p))
    ensures Loop(cond, Some(step), body, st1, fuel).Ok? ==>
              Interpret(For(init, cond, step, body), st, fuel)
              == Ok((Loop(cond, Some(step), body, st1, fuel).value.0, Many(Loop(cond, Some(step), body, st1, fuel).value.1)))
    ensures Loop(cond, Some(step), body, st1, fuel).Err? ==>
              Interpret(For(init, cond, step, body), st, fuel) == Err(Loop(cond, Some(step), body, st1, fuel).error)
  {
  }

  /** `m` copies of `os`, one after another. */
  function Copies(os: seq<Output>, m: nat): seq<Output> {
    if m == 0 then [] else os + Copies(os, m - 1)
  }

  /** The counter's value decides a `i < n` test. */
  lemma CounterTest(i: string, k: int, n: int, ctx: Context)
    requires !IsScore(ctx, i)
    ensures Eval(Binary(Less, Var(i), IntLit(n)), SetVariable(ctx, i, VInt(k))) == Ok(VBool(k < n))
  {
    SetVariableFrame(ctx, i, VInt(k), i);
    assert IsVariable(SetVariable(ctx, i, VInt(k)), i);
  }

  /** The `i++` step of a counting loop moves the counter on by one. */
  lemma CounterStep(i: string, ctx: Context, files: seq<FuncFile>, k: int, fuel: nat)
    requires !IsScore(ctx, i)
    ensures Step(Some(Increment(i)), State(SetVariable(ctx, i, VInt(k)), files), fuel)
         == Ok(State(SetVariable(ctx, i, VInt(k + 1)), files))
  {
    IncrementAt(i, ctx, files, k, fuel);
  }

  /** One pass of a counting loop with `i == k < n`: the body's fixed text, then the loop from `i == k + 1`. */
  lemma CountPass(i: string, k: int, n: int, body: seq<Stmt>, ctx: Context, files: seq<FuncFile>, fuel: nat)
    requires k < n && !IsScore(ctx, i) && PlainBlock(body) && fuel > 0
    ensures Loop(Binary(Less, Var(i), IntLit(n)), Some(Increment(i)), body, State(SetVariable(ctx, i, VInt(k)), files), fuel)
         == Prepend(PlainOutput(body), Loop(Binary(Less, Var(i), IntLit(n)), Some(Increment(i)), body, State(SetVariable(ctx, i, VInt(k + 1)), files), fuel - 1))
  {
    var st := State(SetVariable(ctx, i, VInt(k)), files);
    CounterTest(i, k, n, ctx);
    PlainBlockRuns(body, st, fuel - 1);
    CounterStep(i, ctx, files, k, fuel - 1);
    LoopUnrolls(Binary(Less, Var(i), IntLit(n)), Some(Increment(i)), body, st, fuel);
  }

  /** A counting loop entered with `i == n` stops at once. */
  lemma CountDone(i: string, n: int, body: seq<Stmt>, ctx: Context, files: seq<FuncFile>, fuel: nat)
    requires !IsScore(ctx, i)
    ensures Loop(Binary(Less, Var(i), IntLit(n)), Some(Increment(i)), body, State(SetVariable(ctx, i, VInt(n)), files), fuel)
         == Ok((State(SetVariable(ctx, i, VInt(n)), files), []))
  {
    CounterTest(i, n, n, ctx);
    LoopStops(Binary(Less, Var(i), IntLit(n)), Some(Increment(i)), body, State(SetVariable(ctx, i, VInt(n)), files), fuel);
  }

  /** A pass in front of a counting loop that emits `n - k - 1` copies makes it emit `n - k`. */
  lemma CountMore(i: string, k: int, n: int, body: seq<Stmt>, ctx: Context, files: seq<FuncFile>, fuel: nat)
    requires k < n && !IsScore(ctx, i) && PlainBlock(body) && fuel > 0
    requires Loop(Binary(Less, Var(i), IntLit(n)), Some(Increment(i)), body, State(SetVariable(ctx, i, VInt(k + 1)), files), fuel - 1)
          == Ok((State(SetVariable(ctx, i, VInt(n)), files), Copies(PlainOutput(body), n - (k + 1))))
    ensures Loop(Binary(Less, Var(i), IntLit(n)), Some(Increment(i)), body, State(SetVariable(ctx, i, VInt(k)), files), fuel)
         == Ok((State(SetVariable(ctx, i, VInt(n)), files), Copies(PlainOutput(body), n - k)))
  {
    CountPass(i, k, n, body, ctx, files, fuel);
    assert Copies(PlainOutput(body), n - k) == PlainOutput(body) + Copies(PlainOutput(body), n - (k + 1));
  }

  /**
   * A counting loop `while i < n { body; i++ }` entered with `i == k <= n`,
   * whose body emits fixed text, emits that text `n - k` times and leaves
   * `i == n`, given one unit of fuel per pass.
   */
  lemma {:induction false} CountLoop(i: string, k: int, n: int, body: seq<Stmt>, ctx: Context, files: seq<FuncFile>, fuel: nat)
    requires k <= n && !IsScore(ctx, i) && PlainBlock(body) && fuel >= n - k
    ensures Loop(Binary(Less, Var(i), IntLit(n)), Some(Increment(i)), body, State(SetVariable(ctx, i, VInt(k)), files), fuel)
         == Ok((State(SetVariable(ctx, i, VInt(n)), files), Copies(PlainOutput(body), n - k)))
    decreases n - k
  {
    if k == n {
      CountDone(i, n, body, ctx, files, fuel);
    } else {
      CountLoop(i, k + 1, n, body, ctx, files, fuel - 1);
      CountMore(i, k, n, body, ctx, files, fuel);
    }
  }

  /**
   * `for (i = 0; i < n; i++) { body }` for a fresh `i` and a body with fixed
   * text emits that text `n` times (none when `n` is negative) and leaves the
   * counter at `n` (or 0), given `n` units of fuel.
   */
  lemma CountingFor(i: string, n: int, body: seq<Stmt>, st: State, fuel: nat)
    requires !IsScore(st.ctx, i) && PlainBlock(body) && fuel >= n
    ensures var m := if n < 0 then 0 else n;
      Interpret(For(Assign(i, IntLit(0)), Binary(Less, Var(i), IntLit(n)), Increment(i), body), st, fuel)
      == Ok((State(SetVariable(st.ctx, i, VInt(m)), st.files), Many(Copies(PlainOutput(body), m))))
  {
    var st1 := State(SetVariable(st.ctx, i, VInt(0)), st.files);
    AssignFresh(i, 0, st, fuel);
    ForRuns(Assign(i, IntLit(0)), Binary(Less, Var(i), IntLit(n)), Increment(i), body, st, fuel, st1, Val(VNull));
    if n < 0 {
      CounterTest(i, 0, n, st.ctx);
      LoopStops(Binary(Less, Var(i), IntLit(n)), Some(Increment(i)), body, st1, fuel);
    } else {
      CountLoop(i, 0, n, body, st.ctx, st.files, fuel);
    }
  }

  /**
   * `FuncNode` writes exactly one file, named by the unquoted name and holding
   * the body's commands joined by line breaks, and contributes nothing to the
   * enclosing block.
   */
  lemma FuncWritesFile(quotedName: string, body: seq<Stmt>, st: State, fuel: nat)
    requires InterpretBlock(body, st, fuel).Ok?
    ensures Interpret(Func(quotedName, body), st, fuel).Ok?
    ensures Interpret(Func(quotedName, body), st, fuel).value.0.files
         == InterpretBlock(body, st, fuel).value.0.files
            + [FuncFile(Unquote(quotedName), Serialize(InterpretBlock(body, st, fuel).value.1))]
    ensures Emitted(Interpret(Func(quotedName, body), st, fuel).value.1) == []
  {
  }

  /**
   * The file a `func` writes is its body's commands, one per line: when no
   * command spans two lines, splitting the written text at line breaks gives
   * back the body's commands in order.
   */
  lemma FuncFileLines(quotedName: string, body: seq<Stmt>, st: State, fuel: nat)
    requires InterpretBlock(body, st, fuel).Ok?
    requires |InterpretBlock(body, st, fuel).value.1| > 0
    requires forall o :: o in InterpretBlock(body, st, fuel).value.1 ==> '\n' !in Line(o)
    ensures Interpret(Func(quotedName, body), st, fuel).Ok?
    ensures var files := Interpret(Func(quotedName, body), st, fuel).value.0.files;
      var os := InterpretBlock(body, st, fuel).value.1;
      |files| > 0 && files[|files| - 1].name == Unquote(quotedName)
      && |Split(files[|files| - 1].text, '\n')| == |os|
      && forall i :: 0 <= i < |os| ==> Split(files[|files| - 1].text, '\n')[i] == Line(os[i])
  {
    var os := InterpretBlock(body, st, fuel).value.1;
    FuncWritesFile(quotedName, body, st, fuel);
    assert forall i :: 0 <= i < |os| ==> '\n' !in Line(os[i]);
    SerializeSplits(os);
  }

  /**
   * `&&` and `||` do not short-circuit: the right operand is evaluated even when
   * the left one decides the result, so an unknown name on the right fails.
   */
  lemma NoShortCircuit(name: string)
    ensures Eval(Binary(And, BoolLit(false), Var(name)), Empty) == Err(NameError("variable or score '" + name + "' not found"))
    ensures Eval(Binary(Or, BoolLit(true), Var(name)), Empty) == Err(NameError("variable or score '" + name + "' not found"))
  {
    assert !IsVariable(Empty, name) && !IsScore(Empty, name);
  }

  /** The selector group `as ("@e[distance=..2]"), at ("@s") { say hi }`. */
  function SayHiGroup(): Stmt {
    Group(SayHiClauses(), [McCmd("say hi")])
  }

  function SayHiClauses(): seq<Clause> {
    [Clause("as", "\"@e[distance=..2]\""), Clause("at", "\"@s\"")]
  }

  lemma SayHiSpec()
    ensures SpecText(SayHiClauses()) == "as @e[distance=..2] at @s"
  {
    var clauses := SayHiClauses();
    SayHiClauseTexts();
    var texts := seq(|clauses|, k requires 0 <= k < |clauses| => ClauseText(clauses[k]));
    assert texts == ["as @e[distance=..2]", "at @s"];
    JoinCons("as @e[distance=..2]", ["at @s"], " ");
  }

  lemma SayHiClauseTexts()
    ensures ClauseText(Clause("as", "\"@e[distance=..2]\"")) == "as @e[distance=..2]"
    ensures ClauseText(Clause("at", "\"@s\"")) == "at @s"
  {
    SayHiTargets();
  }

  lemma SayHiTargets()
    ensures Unquote("\"@e[distance=..2]\"") == "@e[distance=..2]"
    ensures Unquote("\"@s\"") == "@s"
  {
  }

  lemma SayHiPlain()
    ensures PlainBlock([SayHiGroup()])
  {
    Substitution.NoDollarNoPlaceholder("say hi");
    assert PlainBlock([McCmd("say hi")]);
    assert Plain(SayHiGroup());
  }

  lemma SayHiWrapped()
    ensures Wrap(SpecText(SayHiClauses()), [Cmd("say hi")]) == [Exec("as @e[distance=..2] at @s run say hi")]
  {
    SayHiSpec();
    assert "as @e[distance=..2] at @s" + " run " + "say hi" == "as @e[distance=..2] at @s run say hi";
    assert WrapOne(SpecText(SayHiClauses()), Cmd("say hi")) == Exec("as @e[distance=..2] at @s run say hi");
  }

  lemma SayHiGroupOutput()
    ensures PlainBlock([SayHiGroup()])
    ensures PlainOutput([SayHiGroup()]) == [Exec("as @e[distance=..2] at @s run say hi")]
  {
    SayHiPlain();
    SayHiWrapped();
    Substitution.NoDollarNoPlaceholder("say hi");
    assert PlainOutput([McCmd("say hi")]) == [Cmd("say hi")];
  }

  /**
   * The program `as ("@e[distance=..2]"), at ("@s") { say hi }` compiles, from
   * any state, to the single command `execute as @e[distance=..2] at @s run say hi`
   * and changes nothing.
   */
  lemma SayHiRuns(st: State, fuel: nat)
    ensures Run([SayHiGroup()], st, fuel) == Ok((st, [Exec("as @e[distance=..2] at @s run say hi")]))
  {
    SayHiGroupOutput();
    PlainBlockRuns([SayHiGroup()], st, fuel);
  }

  /**
   * `score n <objective> <player>`: a fresh name is recorded in the current
   * context and nothing is emitted; a name already a score is refused.
   */
  lemma ScoreDeclRuns(n: string, o: string, p: string, st: State, fuel: nat)
    ensures !IsScore(st.ctx, n) ==>
              Interpret(ScoreDecl(n, o, p), st, fuel) == Ok((State(AddScore(st.ctx, n, Score(o, p)), st.files), Val(VNull)))
    ensures IsScore(st.ctx, n) ==>
              Interpret(ScoreDecl(n, o, p), st, fuel) == Err(NameError("unable to redeclare score '" + n + "'"))
  {
  }

  /**
   * `score n <objective> <player> = e`: the declaration comes first, then `e`
   * is evaluated in the context that holds the new score, and the result is
   * one `scoreboard players set <player> <objective> <value>` command.
   */
  lemma ScoreInitRuns(n: string, o: string, p: string, e: Expr, st: State, fuel: nat)
    ensures IsScore(st.ctx, n) ==>
              Interpret(ScoreInit(ScoreDecl(n, o, p), e), st, fuel) == Err(NameError("unable to redeclare score '" + n + "'"))
    ensures var c := AddScore(st.ctx, n, Score(o, p));
            !IsScore(st.ctx, n) && Eval(e, c).Err? ==>
              Interpret(ScoreInit(ScoreDecl(n, o, p), e), st, fuel) == Err(Eval(e, c).error)
    ensures var c := AddScore(st.ctx, n, Score(o, p));
            !IsScore(st.ctx, n) && Eval(e, c).Ok? ==>
              Interpret(ScoreInit(ScoreDecl(n, o, p), e), st, fuel)
              == Ok((State(c, st.files), Single(Cmd("scoreboard players set " + p + " " + o + " " + Show(Eval(e, c).value)))))
  {
    ScoreDeclRuns(n, o, p, st, fuel);
    if !IsScore(st.ctx, n) {
      var c := AddScore(st.ctx, n, Score(o, p));
      AddScoreFrame(st.ctx, n, Score(o, p), n);
      assert Holder(c, n) == p + " " + o;
      if Eval(e, c).Ok? {
        var v := Show(Eval(e, c).value);
        assert "scoreboard players set " + (p + " " + o) + " " + v == "scoreboard players set " + p + " " + o + " " + v;
      }
    }
  }
}
