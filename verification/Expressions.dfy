/** Numeric evaluation of layout expressions: the recursive evaluator, the compiled plans
    that replace it, and two's-complement bit operations. */
module Expressions {
  import opened Wrappers

  datatype Value = I(n: int) | B(b: bool)

  datatype Bit = BitAnd | BitOr | BitXor

  datatype BinaryFn =
    | Eq | Ne | Lt | Le | Gt | Ge
    | And | Or
    | Bits(bit: Bit)
    | Add | Sub | Mul | FloorDivide | Remainder
    | TrueDivide | Power

  datatype UnaryFn = Not | Invert | Pos | Neg

  datatype Operator = BinaryOp(f: BinaryFn) | UnaryOp(g: UnaryFn) | CallOp(name: string)

  datatype Expr =
    | Constant(value: Value)
    | Symbol(name: string)
    | Node(op: Operator, operands: seq<Expr>)

  /** How an integer result is stored: exactly, or in 64 bits. */
  type Norm = int -> int

  const MIN: int := -0x8000_0000_0000_0000
  const MAX: int := 0x7fff_ffff_ffff_ffff

  function Exact(n: int): int {
    n
  }

  function Wrap(n: int): int {
    (n - MIN) % 0x1_0000_0000_0000_0000 + MIN
  }

  // ----- bits of integers of any sign -----

  function OnBits(f: Bit, x: bool, y: bool): bool {
    match f
    case BitAnd => x && y
    case BitOr => x || y
    case BitXor => x != y
  }

  function Magnitude(x: int): nat {
    if x >= 0 then x else -x - 1
  }

  lemma {:induction false} Halve(x: int)
    ensures Magnitude(x / 2) == Magnitude(x) / 2 && x == 2 * (x / 2) + x % 2
  {
  }

  /** A bit operation on two integers in two's complement of unbounded width. */
  function BitOp(f: Bit, x: int, y: int): int
    decreases Magnitude(x) + Magnitude(y)
  {
    if Magnitude(x) == 0 && Magnitude(y) == 0 then if OnBits(f, x == -1, y == -1) then -1 else 0
    else
      Halve(x);
      Halve(y);
      2 * BitOp(f, x / 2, y / 2) + if OnBits(f, x % 2 == 1, y % 2 == 1) then 1 else 0
  }

  function Power2(n: nat): (p: int)
    ensures p > 0
  {
    if n == 0 then 1 else 2 * Power2(n - 1)
  }

  function BitLength(x: nat): nat {
    if x == 0 then 0 else 1 + BitLength(x / 2)
  }

  // ----- evaluation -----

  function Truth(v: Value): bool {
    match v
    case I(n) => n != 0
    case B(b) => b
  }

  function AsInt(v: Value): int {
    match v
    case I(n) => n
    case B(b) => if b then 1 else 0
  }

  function Quotient(x: int, y: int): int {
    if y == 0 then 0 else if y > 0 then x / y else (-x) / (-y)
  }

  function Compare(f: BinaryFn, x: int, y: int): bool {
    match f
    case Eq => x == y
    case Ne => x != y
    case Lt => x < y
    case Le => x <= y
    case Gt => x > y
    case _ => x >= y
  }

  function Arithmetic(f: BinaryFn, x: int, y: int): Option<int> {
    match f
    case Add => Some(x + y)
    case Sub => Some(x - y)
    case Mul => Some(x * y)
    case FloorDivide => Some(Quotient(x, y))
    case Remainder => Some(if y == 0 then 0 else x - Quotient(x, y) * y)
    case _ => None
  }

  /** A binary operator; None stands for results outside integers and truth values. */
  function Apply2(f: BinaryFn, x: Value, y: Value, norm: Norm): Option<Value> {
    match f
    case Eq | Ne | Lt | Le | Gt | Ge => Some(B(Compare(f, AsInt(x), AsInt(y))))
    case And => Some(B(Truth(x) && Truth(y)))
    case Or => Some(B(Truth(x) || Truth(y)))
    case Bits(bit) =>
      if x.B? && y.B? then Some(B(OnBits(bit, x.b, y.b)))
      else Some(I(norm(BitOp(bit, AsInt(x), AsInt(y)))))
    case _ =>
      if x.I? && y.I? then
        match Arithmetic(f, x.n, y.n)
        case None => None
        case Some(n) => Some(I(norm(n)))
      else None
  }

  function Apply1(g: UnaryFn, x: Value, norm: Norm): Option<Value> {
    match g
    case Not => Some(B(!Truth(x)))
    case Invert => if x.B? then Some(B(!x.b)) else Some(I(norm(-x.n - 1)))
    case Pos => if x.I? then Some(x) else None
    case Neg => if x.I? then Some(I(norm(-x.n))) else None
  }

  function CallFn(name: string, values: seq<Value>, norm: Norm): Option<Value> {
    if |values| == 2 && values[0].I? && values[1].I? then
      var (x, y) := (values[0].n, values[1].n);
      if name == "Min" || name == "min" || name == "minimum" then Some(I(if y < x then y else x))
      else if name == "Max" || name == "max" || name == "maximum" then Some(I(if y > x then y else x))
      else if name == "cdiv" && y != 0 then Some(I(norm(-Quotient(-x, y))))
      else None
    else if |values| == 1 && values[0].I? then
      var x := values[0].n;
      if name == "abs" then Some(I(norm(if x < 0 then -x else x)))
      else if name == "int" || name == "ceil" || name == "floor" || name == "ceiling" then Some(I(x))
      else if name == "next_power_of_2" then Some(I(norm(if x <= 0 then 0 else Power2(BitLength(x - 1)))))
      else None
    else None
  }

  function ApplyOperator(op: Operator, values: seq<Value>, norm: Norm): Option<Value> {
    match op
    case BinaryOp(f) => if |values| == 2 then Apply2(f, values[0], values[1], norm) else None
    case UnaryOp(g) => if |values| == 1 then Apply1(g, values[0], norm) else None
    case CallOp(name) => CallFn(name, values, norm)
  }

  /** `_evaluate`: the reference evaluator. */
  function Evaluate(e: Expr, symbols: map<string, Value>, norm: Norm): Option<Value>
    decreases e, 1, 0
  {
    match e
    case Constant(value) => Some(value)
    case Symbol(name) => if name in symbols then Some(symbols[name]) else None
    case Node(op, operands) =>
      match EvaluateAll(e, operands, symbols, norm)
      case None => None
      case Some(values) => ApplyOperator(op, values, norm)
  }

  function EvaluateAll(ghost parent: Expr, operands: seq<Expr>, symbols: map<string, Value>,
          norm: Norm): Option<seq<Value>>
    requires forall i :: 0 <= i < |operands| ==> operands[i] < parent
    decreases parent, 0, |operands|
  {
    if operands == [] then Some([])
    else
      match Evaluate(operands[0], symbols, norm)
      case None => None
      case Some(v) =>
        match EvaluateAll(parent, operands[1..], symbols, norm)
        case None => None
        case Some(rest) => Some([v] + rest)
  }

  // ----- compiled plans -----

  datatype Plan =
    | PConstant(value: Value)
    | PSymbol(name: string)
    | PBinary(f: BinaryFn, left: Plan, right: Plan)
    | PUnary(g: UnaryFn, operand: Plan)
    | PEvaluate(expression: Expr)

  /** `_build_expression`: binary and unary operators of the right arity are compiled;
      everything else falls back to the evaluator. */
  function Build(e: Expr): Plan {
    match e
    case Constant(value) => PConstant(value)
    case Symbol(name) => PSymbol(name)
    case Node(op, operands) =>
      if op.BinaryOp? && |operands| == 2 then PBinary(op.f, Build(operands[0]), Build(operands[1]))
      else if op.UnaryOp? && |operands| == 1 then PUnary(op.g, Build(operands[0]))
      else PEvaluate(e)
  }

  function Run(p: Plan, symbols: map<string, Value>, norm: Norm): Option<Value> {
    match p
    case PConstant(value) => Some(value)
    case PSymbol(name) => if name in symbols then Some(symbols[name]) else None
    case PBinary(f, left, right) =>
      (match Run(left, symbols, norm)
       case None => None
       case Some(x) =>
         match Run(right, symbols, norm)
         case None => None
         case Some(y) => Apply2(f, x, y, norm))
    case PUnary(g, operand) =>
      (match Run(operand, symbols, norm)
       case None => None
       case Some(x) => Apply1(g, x, norm))
    case PEvaluate(e) => Evaluate(e, symbols, norm)
  }

  lemma {:induction false} BothOperands(e: Expr, operands: seq<Expr>, symbols: map<string, Value>, norm: Norm)
    requires |operands| == 2 && operands[0] < e && operands[1] < e
    ensures var x, y := Evaluate(operands[0], symbols, norm), Evaluate(operands[1], symbols, norm);
            EvaluateAll(e, operands, symbols, norm) == if x.Some? && y.Some? then Some([x.value, y.value]) else None
  {
    var tail := operands[1..];
    assert tail[0] == operands[1] && tail[1..] == [];
    assert EvaluateAll(e, tail[1..], symbols, norm) == Some([]);
    var x, y := Evaluate(operands[0], symbols, norm), Evaluate(operands[1], symbols, norm);
    if y.Some? {
      assert [y.value] + [] == [y.value];
      assert EvaluateAll(e, tail, symbols, norm) == Some([y.value]);
      assert x.Some? ==> [x.value] + [y.value] == [x.value, y.value];
    } else {
      assert EvaluateAll(e, tail, symbols, norm) == None;
    }
  }

  /** Compiling an expression preserves its value, for every expression and environment. */
  lemma {:induction false} CompiledPlansAgree(e: Expr, symbols: map<string, Value>, norm: Norm)
    ensures Run(Build(e), symbols, norm) == Evaluate(e, symbols, norm)
  {
    if e.Node? {
      if e.op.BinaryOp? && |e.operands| == 2 {
        var left, right := e.operands[0], e.operands[1];
        CompiledPlansAgree(left, symbols, norm);
        CompiledPlansAgree(right, symbols, norm);
        BothOperands(e, e.operands, symbols, norm);
      } else if e.op.UnaryOp? && |e.operands| == 1 {
        CompiledPlansAgree(e.operands[0], symbols, norm);
        assert EvaluateAll(e, e.operands[1..], symbols, norm) == Some([]);
      }
    }
  }

  // ----- an evaluation reads only the symbols it mentions -----

  function Symbols(e: Expr): set<string> {
    match e
    case Constant(_) => {}
    case Symbol(name) => {name}
    case Node(_, operands) => set i, s | 0 <= i < |operands| && s in Symbols(operands[i]) :: s
  }

  ghost predicate AgreeOn(names: set<string>, a: map<string, Value>, b: map<string, Value>) {
    forall s :: s in names ==> (s in a <==> s in b) && (s in a ==> a[s] == b[s])
  }

  lemma {:induction false} EvaluateLocal(e: Expr, a: map<string, Value>, b: map<string, Value>, norm: Norm)
    requires AgreeOn(Symbols(e), a, b)
    ensures Evaluate(e, a, norm) == Evaluate(e, b, norm)
    decreases e, 1, 0
  {
    if e.Node? {
      EvaluateAllLocal(e, e.operands, a, b, norm);
    }
  }

  lemma {:induction false} EvaluateAllLocal(parent: Expr, operands: seq<Expr>, a: map<string, Value>,
          b: map<string, Value>, norm: Norm)
    requires forall i :: 0 <= i < |operands| ==> operands[i] < parent && AgreeOn(Symbols(operands[i]), a, b)
    ensures EvaluateAll(parent, operands, a, norm) == EvaluateAll(parent, operands, b, norm)
    decreases parent, 0, |operands|
  {
    if operands != [] {
      EvaluateLocal(operands[0], a, b, norm);
      EvaluateAllLocal(parent, operands[1..], a, b, norm);
    }
  }
}
