/**
 * Compile-time values of the interpreter in msl/ast.py and the Python operators
 * its expression nodes apply to them.
 *
 * The interpreter stores whatever Python value an expression produces. Within the
 * model these are ints, bools, strings and the `NULL` singleton (floats are left
 * out, so `/`, whose result is a float or a `ZeroDivisionError`, is
 * reported as unsupported). Python treats `bool` as a subclass of `int`, so `True + 1 == 2` and
 * `"ab" * True == "ab"`; an operator applied to operands it does not support
 * raises `TypeError`, which nothing in the interpreter catches.
 */
module Values {
  import opened Results
  import opened Strings

  datatype Value = VInt(i: int) | VBool(b: bool) | VStr(s: string) | VNull

  /** Python truthiness; `NullValue` defines neither `__bool__` nor `__len__`, so NULL is true. */
  predicate Truthy(v: Value) {
    match v
    case VInt(i) => i != 0
    case VBool(b) => b
    case VStr(s) => |s| > 0
    case VNull => true
  }

  /** Python's `str(v)`, as f-strings and `re.sub` replacements print it. */
  function Show(v: Value): string {
    match v
    case VInt(i) => IntToString(i)
    case VBool(b) => if b then "True" else "False"
    case VStr(s) => s
    case VNull => "null"
  }

  /** The integer a value stands for in arithmetic, when it stands for one. */
  function Number(v: Value): Option<int> {
    match v
    case VInt(i) => Some(i)
    case VBool(b) => Some(if b then 1 else 0)
    case _ => None
  }

  /** Python's `==` between two values. */
  predicate Equal(l: Value, r: Value) {
    if Number(l).Some? && Number(r).Some? then Number(l).value == Number(r).value
    else if l.VStr? && r.VStr? then l.s == r.s
    else l.VNull? && r.VNull?
  }

  /** The binary operator nodes, by the operator they apply (`BinaryLENode` applies `<`). */
  datatype BinOp = Mul | Div | Add | Sub | Less | Greater | LessEq | GreaterEq | Eq | NotEq | And | Or

  datatype UnOp = Plus | Minus | Not

  function Compare(op: BinOp, l: Value, r: Value): Result<Value>
    requires op == Less || op == Greater || op == LessEq || op == GreaterEq
  {
    if Number(l).Some? && Number(r).Some? then
      var a, b := Number(l).value, Number(r).value;
      Ok(VBool(match op
        case Less => a < b
        case Greater => a > b
        case LessEq => a <= b
        case GreaterEq => a >= b))
    else if l.VStr? && r.VStr? then
      var a, b := l.s, r.s;
      Ok(VBool(match op
        case Less => LexLess(a, b)
        case Greater => LexLess(b, a)
        case LessEq => LexLess(a, b) || a == b
        case GreaterEq => LexLess(b, a) || a == b))
    else Err(TypeFault("comparison"))
  }

  /** `left <op> right` with both operands already evaluated. */
  function Apply(op: BinOp, l: Value, r: Value): (res: Result<Value>)
    ensures op == And ==> res.Ok? && (res.value == l || res.value == r)
                          && (Truthy(res.value) <==> Truthy(l) && Truthy(r))
    ensures op == Or ==> res.Ok? && (res.value == l || res.value == r)
                         && (Truthy(res.value) <==> Truthy(l) || Truthy(r))
    ensures op == Eq || op == NotEq ==> res.Ok? && res.value == VBool(Equal(l, r) == (op == Eq))
    ensures (op == Add || op == Sub || op == Mul) && Number(l).Some? && Number(r).Some? ==>
              res.Ok? && res.value.VInt?
    ensures Number(l).Some? && Number(r).Some? ==>
              (op == Add ==> res == Ok(VInt(Number(l).value + Number(r).value)))
              && (op == Sub ==> res == Ok(VInt(Number(l).value - Number(r).value)))
              && (op == Mul ==> res == Ok(VInt(Number(l).value * Number(r).value)))
    ensures op == Add && l.VStr? && r.VStr? ==> res == Ok(VStr(l.s + r.s))
    ensures op == Add && l.VStr? != r.VStr? ==> res.Err?
    ensures op == Mul && l.VStr? && Number(r).Some? ==> res == Ok(VStr(Repeat(l.s, Number(r).value)))
    ensures op == Mul && Number(l).Some? && r.VStr? ==> res == Ok(VStr(Repeat(r.s, Number(l).value)))
    ensures op == Mul && l.VStr? && r.VStr? ==> res == Err(TypeFault("*"))
    ensures op == Div ==> res.Err?
  {
    match op
    case And => Ok(if Truthy(l) then r else l)
    case Or => Ok(if Truthy(l) then l else r)
    case Eq => Ok(VBool(Equal(l, r)))
    case NotEq => Ok(VBool(!Equal(l, r)))
    case Add =>
      if Number(l).Some? && Number(r).Some? then Ok(VInt(Number(l).value + Number(r).value))
      else if l.VStr? && r.VStr? then Ok(VStr(l.s + r.s))
      else Err(TypeFault("+"))
    case Sub =>
      if Number(l).Some? && Number(r).Some? then Ok(VInt(Number(l).value - Number(r).value))
      else Err(TypeFault("-"))
    case Mul =>
      if Number(l).Some? && Number(r).Some? then Ok(VInt(Number(l).value * Number(r).value))
      else if l.VStr? && Number(r).Some? then Ok(VStr(Repeat(l.s, Number(r).value)))
      else if Number(l).Some? && r.VStr? then Ok(VStr(Repeat(r.s, Number(l).value)))
      else Err(TypeFault("*"))
    case Div =>
      if Number(l).Some? && Number(r).Some? then Err(Unsupported("/"))
      else Err(TypeFault("/"))
    case _ => Compare(op, l, r)
  }

  /** `<op> operand` with the operand already evaluated. */
  function ApplyUnary(op: UnOp, v: Value): (res: Result<Value>)
    ensures op == Not ==> res == Ok(VBool(!Truthy(v)))
    ensures op != Not ==> (res.Ok? <==> Number(v).Some?)
    ensures op == Plus && Number(v).Some? ==> res == Ok(VInt(Number(v).value))
    ensures op == Minus && Number(v).Some? ==> res == Ok(VInt(-Number(v).value))
  {
    match op
    case Not => Ok(VBool(!Truthy(v)))
    case Plus => if Number(v).Some? then Ok(VInt(Number(v).value)) else Err(TypeFault("unary +"))
    case Minus => if Number(v).Some? then Ok(VInt(-Number(v).value)) else Err(TypeFault("unary -"))
  }

  predicate IsComparison(op: BinOp) {
    op == Less || op == Greater || op == LessEq || op == GreaterEq
  }

  /**
   * A comparison is defined exactly between two numbers (bools counting as 0
   * and 1) or two strings, and then gives a bool; numbers compare by value.
   */
  lemma ComparisonDefined(op: BinOp, l: Value, r: Value)
    requires IsComparison(op)
    ensures Apply(op, l, r).Ok? <==> (Number(l).Some? && Number(r).Some?) || (l.VStr? && r.VStr?)
    ensures Apply(op, l, r).Ok? ==> Apply(op, l, r).value.VBool?
    ensures Apply(op, l, r).Err? ==> Apply(op, l, r).error == TypeFault("comparison")
    ensures Number(l).Some? && Number(r).Some? && op == Less ==>
              Apply(op, l, r) == Ok(VBool(Number(l).value < Number(r).value))
  {
  }

  /** `a > b` is `b < a`, and `a >= b` is `b <= a`. */
  lemma ComparisonMirror(l: Value, r: Value)
    ensures Apply(Greater, l, r) == Apply(Less, r, l)
    ensures Apply(GreaterEq, l, r) == Apply(LessEq, r, l)
  {
  }

  /** `a <= b` is `a < b or a == b`, for numbers and for strings alike. */
  lemma LessEqIsLessOrEqual(l: Value, r: Value)
    ensures Apply(LessEq, l, r).Ok? <==> Apply(Less, l, r).Ok?
    ensures Apply(LessEq, l, r).Ok? ==>
              Apply(LessEq, l, r) == Ok(VBool(Apply(Less, l, r).value.b || Equal(l, r)))
  {
  }

  /** Two comparable values are ordered one way, equal, or ordered the other way, and only one of these. */
  lemma ComparisonTrichotomy(l: Value, r: Value)
    requires Apply(Less, l, r).Ok?
    ensures Apply(Less, r, l).Ok?
    ensures var lt, gt := Apply(Less, l, r).value.b, Apply(Less, r, l).value.b;
      (lt || Equal(l, r) || gt) && !(lt && Equal(l, r)) && !(gt && Equal(l, r)) && !(lt && gt)
  {
    if l.VStr? && r.VStr? {
      LexTrichotomy(l.s, r.s);
    }
  }

  /** Unary minus is subtraction from zero, and applying it twice gives the number back. */
  lemma NegationIsSubtraction(v: Value)
    requires Number(v).Some?
    ensures ApplyUnary(Minus, v) == Apply(Sub, VInt(0), v)
    ensures ApplyUnary(Minus, ApplyUnary(Minus, v).value) == ApplyUnary(Plus, v)
  {
  }

  /** On numbers, `a - b` is `a + (-b)`, and `+` and `*` do not depend on operand order. */
  lemma ArithmeticLaws(l: Value, r: Value)
    requires Number(l).Some? && Number(r).Some?
    ensures Apply(Sub, l, r) == Apply(Add, l, ApplyUnary(Minus, r).value)
    ensures Apply(Add, l, r) == Apply(Add, r, l)
    ensures Apply(Mul, l, r) == Apply(Mul, r, l)
  {
  }
}
