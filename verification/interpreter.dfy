/**
 * The compile-time interpreter of msl/ast.py: `interpret` of every node kind.
 *
 * Expressions compute values in a context; statements change the context, write
 * function files and produce Minecraft commands. `for` and `while` are unrolled
 * while their condition holds; the source puts no bound on that, so the model
 * spends one unit of fuel per iteration and reports `OutOfFuel` when it runs out.
 */
module Interpreter {
  import opened Results
  import opened Strings
  import opened Values
  import opened Scopes
  import opened Commands
  import Comments
  import Substitution

  /** The expression nodes: literals, variable access, binary and unary operators. */
  datatype Expr =
    | IntLit(n: int)                          // IntegerNode
    | BoolLit(b: bool)                        // BooleanNode
    | StrLit(quoted: string)                  // StringNode, still with its quotes
    | Var(name: string)                       // VariableAccessNode
    | Binary(op: BinOp, left: Expr, right: Expr)
    | Unary(uop: UnOp, operand: Expr)

  /** `ScoreOpLeftNode`, `ScoreOpRightNode`, `ScoreOpSwapNode`. */
  datatype ScoreOpKind = KeepLess | KeepGreater | Swap

  /** `SelfAddNode`, `SelfSubNode`, `SelfMultNode`, `SelfDivNode`. */
  datatype SelfOpKind = AddTo | SubFrom | MulBy | DivBy

  /** The statement nodes. Function, group and loop bodies are blocks. */
  datatype Stmt =
    | CommentStmt(text: string)                                        // CommentNode
    | Func(quotedName: string, body: seq<Stmt>)                        // FuncNode
    | ScoreDecl(name: string, objective: string, player: string)       // ScoreDeclNode
    | ScoreInit(decl: Stmt, value: Expr)                               // ScoreInitNode
    | Group(clauses: seq<Clause>, body: seq<Stmt>)                     // GroupNode
    | McCmd(text: string)                                              // McCmdNode
    | Assign(name: string, value: Expr)                                // VariableAssignNode
    | Increment(name: string)                                          // VariableIncrementNode
    | Decrement(name: string)                                          // VariableDecrementNode
    | ScoreOp(kind: ScoreOpKind, target: string, source: string)
    | SelfOp(selfKind: SelfOpKind, target: string, operand: Expr)
    | ExprStmt(e: Expr)                                                // an expression used as a statement
    | For(init: Stmt, cond: Expr, step: Stmt, body: seq<Stmt>)         // ForNode
    | While(cond: Expr, body: seq<Stmt>)                               // WhileNode

  /** A function file `FuncNode` writes: its name and its serialised commands. */
  datatype FuncFile = FuncFile(name: string, text: string)

  /** The context and the function files written so far. */
  datatype State = State(ctx: Context, files: seq<FuncFile>)

  /**
   * What a node's `interpret` succeeds with: a plain value (including `NULL`), a
   * single command, or a `MinecraftCommandList`.
   */
  datatype Piece = Val(v: Value) | Single(o: Output) | Many(os: seq<Output>)

  /** What a block keeps of a statement's result: commands are added, lists spliced in, values dropped. */
  function Emitted(p: Piece): seq<Output> {
    match p
    case Val(_) => []
    case Single(o) => [o]
    case Many(os) => os
  }

  /** The write log of `before` is a prefix of that of `after`, and the parent of the context is kept. */
  predicate Extends(before: State, after: State) {
    |before.files| <= |after.files| && after.files[..|before.files|] == before.files
    && after.ctx.parent == before.ctx.parent
  }

  function NotFound(name: string): Error {
    NameError("variable or score '" + name + "' not found")
  }

  /** `VariableAccessNode`: a variable's value, else a score's own name, else a `NameError`. */
  function Lookup(ctx: Context, name: string): (r: Result<Value>)
    ensures IsVariable(ctx, name) ==> r == Ok(GetVariable(ctx, name).value)
    ensures !IsVariable(ctx, name) && IsScore(ctx, name) ==> r == Ok(VStr(name))
    ensures r.Err? <==> !IsVariable(ctx, name) && !IsScore(ctx, name)
    ensures r.Err? ==> r.error == NotFound(name)
  {
    match GetVariable(ctx, name)
    case Some(v) => Ok(v)
    case None => if IsScore(ctx, name) then Ok(VStr(name)) else Err(NotFound(name))
  }

  function Eval(e: Expr, ctx: Context): (r: Result<Value>)
  {
    match e
    case IntLit(n) => Ok(VInt(n))
    case BoolLit(b) => Ok(VBool(b))
    case StrLit(q) => Ok(VStr(Unquote(q)))
    case Var(name) => Lookup(ctx, name)
    case Binary(op, left, right) =>
      var l :- Eval(left, ctx);
      var r :- Eval(right, ctx);
      Apply(op, l, r)
    case Unary(op, operand) =>
      var v :- Eval(operand, ctx);
      ApplyUnary(op, v)
  }

  /** Both operands are evaluated, left first, before the operator is applied. */
  lemma EvalOrder(op: BinOp, left: Expr, right: Expr, ctx: Context)
    ensures Eval(left, ctx).Err? ==> Eval(Binary(op, left, right), ctx) == Eval(left, ctx)
    ensures Eval(left, ctx).Ok? && Eval(right, ctx).Err? ==> Eval(Binary(op, left, right), ctx) == Eval(right, ctx)
    ensures Eval(left, ctx).Ok? && Eval(right, ctx).Ok? ==>
      Eval(Binary(op, left, right), ctx) == Apply(op, Eval(left, ctx).value, Eval(right, ctx).value)
  {
  }

  /** `getScore` as the f-strings print it: `None None` for a name that is not a score. */
  function ScoreNames(ctx: Context, name: string): (r: (string, string))
    ensures IsScore(ctx, name) ==> r == (GetScore(ctx, name).value.objective, GetScore(ctx, name).value.player)
    ensures !IsScore(ctx, name) ==> r == ("None", "None")
  {
    match GetScore(ctx, name)
    case Some(s) => (s.objective, s.player)
    case None => ("None", "None")
  }

  /** `<player> <objective>`, the order every scoreboard command uses. */
  function Holder(ctx: Context, name: string): string {
    var (objective, player) := ScoreNames(ctx, name);
    player + " " + objective
  }

  /**
   * `ScoreDeclNode`: a fresh name records the objective and the player in the
   * current context and produces nothing; a name already a score anywhere in
   * the chain is refused.
   */
  function DeclareScore(ctx: Context, name: string, objective: string, player: string): (r: Result<Context>)
    ensures r.Err? <==> IsScore(ctx, name)
    ensures r.Err? ==> r.error == NameError("unable to redeclare score '" + name + "'")
    ensures r.Ok? ==> GetScore(r.value, name) == Some(Score(objective, player))
    ensures r.Ok? ==> forall n :: n != name ==> GetScore(r.value, n) == GetScore(ctx, n)
    ensures r.Ok? ==> forall n :: GetVariable(r.value, n) == GetVariable(ctx, n)
    ensures r.Ok? ==> r.value.parent == ctx.parent
  {
    if IsScore(ctx, name) then Err(NameError("unable to redeclare score '" + name + "'"))
    else
      var c := AddScore(ctx, name, Score(objective, player));
      assert forall n :: GetScore(c, n) == GetScore(ctx, n) || n == name by {
        forall n { AddScoreFrame(ctx, name, Score(objective, player), n); }
      }
      assert forall n :: GetVariable(c, n) == GetVariable(ctx, n) by {
        forall n { AddScoreFrame(ctx, name, Score(objective, player), n); }
      }
      AddScoreFrame(ctx, name, Score(objective, player), name);
      Ok(c)
  }

  /**
   * `VariableAssignNode`: the score test comes first. A score receives a
   * `scoreboard players` command (`operation ... =` from another score when the
   * value is a string naming one, `set` otherwise); any other name becomes a
   * variable of the current context.
   */
  function AssignValue(ctx: Context, name: string, v: Value): (r: (Context, Piece))
    ensures IsScore(ctx, name) ==> r.0 == ctx && r.1.Single? && r.1.o.Cmd?
    ensures IsScore(ctx, name) && v.VStr? ==>
              r.1 == Single(Cmd("scoreboard players operation " + Holder(ctx, name) + " = " + Holder(ctx, v.s)))
    ensures IsScore(ctx, name) && !v.VStr? ==>
              r.1 == Single(Cmd("scoreboard players set " + Holder(ctx, name) + " " + Show(v)))
    ensures !IsScore(ctx, name) ==> r.1 == Val(VNull) && GetVariable(r.0, name) == Some(v)
    ensures !IsScore(ctx, name) ==> forall n :: n != name ==> GetVariable(r.0, n) == GetVariable(ctx, n)
    ensures forall n :: GetScore(r.0, n) == GetScore(ctx, n)
    ensures r.0.parent == ctx.parent
  {
    if IsScore(ctx, name) then
      if v.VStr? then (ctx, Single(Cmd("scoreboard players operation " + Holder(ctx, name) + " = " + Holder(ctx, v.s))))
      else (ctx, Single(Cmd("scoreboard players set " + Holder(ctx, name) + " " + Show(v))))
    else
      var c := SetVariable(ctx, name, v);
      assert forall n :: GetScore(c, n) == GetScore(ctx, n) && (n != name ==> GetVariable(c, n) == GetVariable(ctx, n)) by {
        forall n { SetVariableFrame(ctx, name, v, n); }
      }
      SetVariableFrame(ctx, name, v, name);
      (c, Val(VNull))
  }

  /**
   * `VariableIncrementNode` (`up`) and `VariableDecrementNode`: the variable test
   * comes first. A variable holding a number changes by exactly one and nothing
   * else changes; a score gets `scoreboard players add|remove <player> <objective> 1`;
   * an unknown name is a `NameError`.
   */
  function StepVariable(ctx: Context, name: string, up: bool): (r: Result<(Context, Piece)>)
    ensures IsVariable(ctx, name) && Number(GetVariable(ctx, name).value).Some? ==>
              r.Ok? && r.value.1 == Val(VNull)
              && GetVariable(r.value.0, name) == Some(VInt(Number(GetVariable(ctx, name).value).value + (if up then 1 else -1)))
              && (forall n :: n != name ==> GetVariable(r.value.0, n) == GetVariable(ctx, n))
              && (forall n :: GetScore(r.value.0, n) == GetScore(ctx, n))
    ensures IsVariable(ctx, name) && Number(GetVariable(ctx, name).value).None? ==> r.Err? && r.error.TypeFault?
    ensures !IsVariable(ctx, name) && IsScore(ctx, name) ==>
              r == Ok((ctx, Single(Cmd("scoreboard players " + (if up then "add " else "remove ") + Holder(ctx, name) + " 1"))))
    ensures !IsVariable(ctx, name) && !IsScore(ctx, name) ==> r == Err(NotFound(name))
    ensures r.Ok? ==> r.value.0.parent == ctx.parent
  {
    match GetVariable(ctx, name)
    case Some(v) =>
      var w :- Apply(if up then Add else Sub, v, VInt(1));
      var c := SetVariable(ctx, name, w);
      assert forall n :: GetScore(c, n) == GetScore(ctx, n) && (n != name ==> GetVariable(c, n) == GetVariable(ctx, n)) by {
        forall n { SetVariableFrame(ctx, name, w, n); }
      }
      SetVariableFrame(ctx, name, w, name);
      Ok((c, Val(VNull)))
    case None =>
      if IsScore(ctx, name) then
        Ok((ctx, Single(Cmd("scoreboard players " + (if up then "add " else "remove ") + Holder(ctx, name) + " 1"))))
      else Err(NotFound(name))
  }

  function ScoreOpSymbol(kind: ScoreOpKind): string {
    match kind
    case KeepLess => "<"
    case KeepGreater => ">"
    case Swap => "><"
  }

  /**
   * `ScoreOpLeftNode` and its siblings: both names must be scores, the target
   * being checked first; the command applies the operator to the two holders.
   */
  function ScoreOperation(ctx: Context, kind: ScoreOpKind, target: string, source: string): (r: Result<Output>)
    ensures r.Ok? <==> IsScore(ctx, target) && IsScore(ctx, source)
    ensures !IsScore(ctx, target) ==> r == Err(NameError("score '" + target + "' not found"))
    ensures IsScore(ctx, target) && !IsScore(ctx, source) ==> r == Err(NameError("score '" + source + "' not found"))
    ensures r.Ok? ==> r.value == Cmd("scoreboard players operation " + Holder(ctx, target) + " "
                                     + ScoreOpSymbol(kind) + " " + Holder(ctx, source))
  {
    if !IsScore(ctx, target) then Err(NameError("score '" + target + "' not found"))
    else if !IsScore(ctx, source) then Err(NameError("score '" + source + "' not found"))
    else Ok(Cmd("scoreboard players operation " + Holder(ctx, target) + " " + ScoreOpSymbol(kind) + " " + Holder(ctx, source)))
  }

  function SelfOpSymbol(kind: SelfOpKind): string {
    match kind
    case AddTo => "+="
    case SubFrom => "-="
    case MulBy => "*="
    case DivBy => "/="
  }

  function SelfOpBinary(kind: SelfOpKind): BinOp {
    match kind
    case AddTo => Add
    case SubFrom => Sub
    case MulBy => Mul
    case DivBy => Div
  }

  /**
   * `SelfAddNode`, `SelfSubNode`, `SelfMultNode`, `SelfDivNode` with the operand
   * already evaluated. The variable test comes first: a variable is combined
   * with the operand by the Python operator. On a score, a string operand
   * names another score (`operation <op>=`); a non-string operand is added or
   * removed as a constant, and refused with a `ValueError` by `*=` and `/=`.
   */
  function SelfOperation(ctx: Context, kind: SelfOpKind, name: string, v: Value): (r: Result<(Context, Piece)>)
    ensures IsVariable(ctx, name) ==>
              (r.Ok? <==> Apply(SelfOpBinary(kind), GetVariable(ctx, name).value, v).Ok?)
    ensures IsVariable(ctx, name) && r.Ok? ==>
              r.value.1 == Val(VNull)
              && GetVariable(r.value.0, name) == Some(Apply(SelfOpBinary(kind), GetVariable(ctx, name).value, v).value)
              && (forall n :: n != name ==> GetVariable(r.value.0, n) == GetVariable(ctx, n))
    ensures kind == DivBy && IsVariable(ctx, name) ==> r.Err?
    ensures !IsVariable(ctx, name) && IsScore(ctx, name) && v.VStr? ==>
              r == Ok((ctx, Single(Cmd("scoreboard players operation " + Holder(ctx, name) + " "
                                       + SelfOpSymbol(kind) + " " + Holder(ctx, v.s)))))
    ensures !IsVariable(ctx, name) && IsScore(ctx, name) && !v.VStr? && kind == AddTo ==>
              r == Ok((ctx, Single(Cmd("scoreboard players add " + Holder(ctx, name) + " " + Show(v)))))
    ensures !IsVariable(ctx, name) && IsScore(ctx, name) && !v.VStr? && kind == SubFrom ==>
              r == Ok((ctx, Single(Cmd("scoreboard players remove " + Holder(ctx, name) + " " + Show(v)))))
    ensures !IsVariable(ctx, name) && IsScore(ctx, name) && !v.VStr? && kind == MulBy ==>
              r == Err(ValueError("cannot multiply '" + Show(v) + "' to score '" + name + "'"))
    ensures !IsVariable(ctx, name) && IsScore(ctx, name) && !v.VStr? && kind == DivBy ==>
              r == Err(ValueError("cannot divide score '" + name + "' by '" + Show(v) + "'"))
    ensures !IsVariable(ctx, name) && !IsScore(ctx, name) ==> r == Err(NotFound(name))
    ensures r.Ok? ==> r.value.0.parent == ctx.parent && forall n :: GetScore(r.value.0, n) == GetScore(ctx, n)
  {
    match GetVariable(ctx, name)
    case Some(current) =>
      var w :- Apply(SelfOpBinary(kind), current, v);
      var c := SetVariable(ctx, name, w);
      assert forall n :: GetScore(c, n) == GetScore(ctx, n) && (n != name ==> GetVariable(c, n) == GetVariable(ctx, n)) by {
        forall n { SetVariableFrame(ctx, name, w, n); }
      }
      SetVariableFrame(ctx, name, w, name);
      Ok((c, Val(VNull)))
    case None =>
      if !IsScore(ctx, name) then Err(NotFound(name))
      else if v.VStr? then
        Ok((ctx, Single(Cmd("scoreboard players operation " + Holder(ctx, name) + " " + SelfOpSymbol(kind) + " " + Holder(ctx, v.s)))))
      else
        match kind
        case AddTo => Ok((ctx, Single(Cmd("scoreboard players add " + Holder(ctx, name) + " " + Show(v)))))
        case SubFrom => Ok((ctx, Single(Cmd("scoreboard players remove " + Holder(ctx, name) + " " + Show(v)))))
        case MulBy => Err(ValueError("cannot multiply '" + Show(v) + "' to score '" + name + "'"))
        case DivBy => Err(ValueError("cannot divide score '" + name + "' by '" + Show(v) + "'"))
  }

  /** Replaces the context, keeping the written files. */
  function WithContext(st: State, c: Context): State {
    st.(ctx := c)
  }

  /** `interpret` of one statement: the nesting statements here, the others in `InterpretSimple`. */
  function Interpret(s: Stmt, st: State, fuel: nat): (r: Result<(State, Piece)>)
    decreases fuel, s
  {
    match s
    case Func(quotedName, body) =>
      var (st1, os) :- InterpretBlock(body, st, fuel);
      Ok((st1.(files := st1.files + [FuncFile(Unquote(quotedName), Serialize(os))]), Val(VNull)))
    case Group(clauses, body) =>
      var (st1, os) :- InterpretBlock(body, st, fuel);
      Ok((st1, Many(Wrap(SpecText(clauses), os))))
    case For(init, cond, step, body) =>
      var (st1, _) :- Interpret(init, st, fuel);
      var (st2, os) :- Loop(cond, Some(step), body, st1, fuel);
      Ok((st2, Many(os)))
    case While(cond, body) =>
      var (st1, os) :- Loop(cond, None, body, st, fuel);
      Ok((st1, Many(os)))
    case _ => InterpretSimple(s, st, fuel)
  }

  /** The score a `ScoreInit` sets: the name its declaration declares. */
  function DeclaredName(decl: Stmt): string {
    if decl.ScoreDecl? then decl.name else ""
  }

  /** A statement with no nested block of its own. */
  predicate Simple(s: Stmt) {
    !(s.Func? || s.Group? || s.For? || s.While?)
  }

  /**
   * `interpret` of a statement with no body: a comment, a declaration, a
   * command or an expression. A `ScoreInit` runs its declaration statement
   * first, as a statement of its own.
   */
  function InterpretSimple(s: Stmt, st: State, fuel: nat): (r: Result<(State, Piece)>)
    requires Simple(s)
    decreases fuel, s, 0
  {
    match s
    case CommentStmt(text) => Ok((st, Single(Comment(Comments.Render(text)))))
    case ScoreDecl(name, objective, player) =>
      var c :- DeclareScore(st.ctx, name, objective, player);
      Ok((WithContext(st, c), Val(VNull)))
    case ScoreInit(decl, value) =>
      var (st1, _) :- Interpret(decl, st, fuel);
      var v :- Eval(value, st1.ctx);
      Ok((st1, Single(Cmd("scoreboard players set " + Holder(st1.ctx, DeclaredName(decl)) + " " + Show(v)))))
    case McCmd(text) =>
      var t :- Substitution.Substitute(text, st.ctx);
      Ok((st, Single(Cmd(t))))
    case Assign(name, value) =>
      var v :- Eval(value, st.ctx);
      var (c, p) := AssignValue(st.ctx, name, v);
      Ok((WithContext(st, c), p))
    case Increment(name) =>
      var (c, p) :- StepVariable(st.ctx, name, true);
      Ok((WithContext(st, c), p))
    case Decrement(name) =>
      var (c, p) :- StepVariable(st.ctx, name, false);
      Ok((WithContext(st, c), p))
    case ScoreOp(kind, target, source) =>
      var o :- ScoreOperation(st.ctx, kind, target, source);
      Ok((st, Single(o)))
    case SelfOp(kind, target, operand) =>
      var v :- Eval(operand, st.ctx);
      var (c, p) :- SelfOperation(st.ctx, kind, target, v);
      Ok((WithContext(st, c), p))
    case ExprStmt(e) =>
      var v :- Eval(e, st.ctx);
      Ok((st, Val(v)))
  }

  /**
   * `BlockNode.interpret`: the statements in order, each one's commands
   * appended; the first error ends the block.
   */
  function InterpretBlock(ss: seq<Stmt>, st: State, fuel: nat): (r: Result<(State, seq<Output>)>)
    decreases fuel, ss
  {
    if |ss| == 0 then Ok((st, []))
    else
      var (st1, p) :- Interpret(ss[0], st, fuel);
      var (st2, rest) :- InterpretBlock(ss[1..], st1, fuel);
      Ok((st2, Emitted(p) + rest))
  }

  /**
   * The `while condition:` loop of `ForNode` and `WhileNode`, the condition not
   * yet evaluated: while it is truthy, the body runs, then the step (whose
   * result is discarded), then the condition again. Each iteration costs one
   * unit of fuel.
   */
  function Loop(cond: Expr, step: Option<Stmt>, body: seq<Stmt>, st: State, fuel: nat): (r: Result<(State, seq<Output>)>)
    decreases fuel, body, 1
  {
    var c :- Eval(cond, st.ctx);
    if !Truthy(c) then Ok((st, [])) else Iterate(cond, step, body, st, fuel)
  }

  /** One pass through a loop whose condition held: the body, the step, then the loop again. */
  function Iterate(cond: Expr, step: Option<Stmt>, body: seq<Stmt>, st: State, fuel: nat): (r: Result<(State, seq<Output>)>)
    decreases fuel, body, 0
  {
    if fuel == 0 then Err(OutOfFuel)
    else
      var (st1, os) :- InterpretBlock(body, st, fuel - 1);
      var st2 :- Step(step, st1, fuel - 1);
      var (st3, rest) :- Loop(cond, step, body, st2, fuel - 1);
      Ok((st3, os + rest))
  }

  /** The loop's step, if it has one, run for its effect on the state; its result is discarded. */
  function Step(step: Option<Stmt>, st: State, fuel: nat): (r: Result<State>)
    decreases fuel, step
  {
    if step.None? then Ok(st)
    else
      var (st1, _) :- Interpret(step.value, st, fuel);
      Ok(st1)
  }

  /** `ProgramNode.interpret`: the program's block, from the given state. */
  function Run(program: seq<Stmt>, st: State, fuel: nat): (r: Result<(State, seq<Output>)>)
  {
    InterpretBlock(program, st, fuel)
  }
}
