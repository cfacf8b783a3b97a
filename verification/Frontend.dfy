/** Kernel bodies, their direct meaning, and the syntax-directed lowering of
    `frontend/python.py` from parsed statements to structured SSA. */
module Frontend {
  import opened Wrappers
  import opened Ssa
  import opened Interpreter

  // ----- parsed kernel bodies -----

  datatype Operator =
    | BinaryOperator(op: BinaryOp)
    | UnaryOperator(uop: UnaryOp)
    | Conditional
    | MatMult
    | TransposeAttribute
    | SubscriptRead
    | ShapeRead(dim: int)

  datatype Expr = Literal(value: int) | Name(id: string) | Apply(operator: Operator, args: seq<Expr>)

  datatype Stmt =
    | Assign(target: string, value: Expr)
    | AssignAt(target: string, value: Expr, indices: seq<Expr>)
    | AugAssign(target: string, op: BinaryOp, value: Expr)
    | ForRange(target: string, bounds: seq<Expr>, body: seq<Stmt>, orelse: seq<Stmt>)
    | IfElse(test: Expr, body: seq<Stmt>, orelse: seq<Stmt>)
    | Evaluate(value: Expr)
    | Pass

  // ----- direct meaning -----

  /** `entry` holds the kernel's arguments and shape symbols; `params` are the names
      whose assignment stores into the argument instead of rebinding the name. */
  datatype Kernel = Kernel(params: set<string>, symbols: set<string>, entry: Env, ctx: Context)

  type NameTable = map<string, Val>

  /** What an operator makes of its operands. References are read first, but for what is
      indexed or asked for its shape. */
  function Operate(operator: Operator, args: seq<Val>, ctx: Context, mem: Memory): Outcome<Val> {
    match operator
    case BinaryOperator(op) =>
      if |args| != 2 then Failure(RuntimeFault)
      else
        var left :- Materialize(args[0], ctx, mem);
        var right :- Materialize(args[1], ctx, mem);
        Elementwise(op, left, right)
    case UnaryOperator(op) =>
      if |args| != 1 then Failure(RuntimeFault)
      else
        var operand :- Materialize(args[0], ctx, mem);
        Success(MapUnary(op, operand))
    case Conditional =>
      if |args| != 3 then Failure(RuntimeFault)
      else
        var test :- Materialize(args[0], ctx, mem);
        var chosen :- Materialize(args[1], ctx, mem);
        var other :- Materialize(args[2], ctx, mem);
        Where(test, chosen, other)
    case MatMult =>
      if |args| < 2 then Failure(RuntimeFault)
      else
        var left :- Materialize(args[0], ctx, mem);
        var right :- Materialize(args[1], ctx, mem);
        if left.Tile? && right.Tile? && left.tile.cols == right.tile.rows
        then Success(Tile(Product(left.tile, right.tile)))
        else Failure(RuntimeFault)
    case TransposeAttribute =>
      if |args| == 0 then Failure(RuntimeFault)
      else
        var operand :- Materialize(args[0], ctx, mem);
        if operand.Tile? then Success(Tile(Transposed(operand.tile))) else Failure(RuntimeFault)
    case SubscriptRead =>
      if |args| != 3 then Failure(RuntimeFault)
      else
        var row :- ScalarOf(args[1], ctx, mem);
        var col :- ScalarOf(args[2], ctx, mem);
        ExtractAt(args[0], row, col, false, ctx, mem)
    case ShapeRead(dim) => if |args| == 0 then Failure(RuntimeFault) else ExtentAt(args[0], dim, ctx)
  }

  function EvalExpr(k: Kernel, e: Expr, names: NameTable, mem: Memory): Outcome<Val>
    decreases e, 0
  {
    match e
    case Literal(value) => Success(Num(value))
    case Name(id) =>
      if id in names then Success(names[id])
      else if id in k.symbols && id in k.entry then Success(k.entry[id])
      else Failure(MissingName)
    case Apply(operator, args) =>
      var vals :- EvalExprs(k, args, names, mem);
      Operate(operator, vals, k.ctx, mem)
  }

  function EvalExprs(k: Kernel, es: seq<Expr>, names: NameTable, mem: Memory): (r: Outcome<seq<Val>>)
    ensures r.Success? ==> |r.value| == |es|
    decreases es, 0
  {
    if es == [] then Success([])
    else
      var v :- EvalExpr(k, es[0], names, mem);
      var rest :- EvalExprs(k, es[1..], names, mem);
      Success([v] + rest)
  }

  function Scalars(vals: seq<Val>, ctx: Context, mem: Memory): (r: Outcome<seq<int>>)
    ensures r.Success? ==> |r.value| == |vals|
  {
    if vals == [] then Success([])
    else
      var first :- ScalarOf(vals[0], ctx, mem);
      var rest :- Scalars(vals[1..], ctx, mem);
      Success([first] + rest)
  }

  /** Start, stop and step of `range(stop)`, `range(start, stop)` or `range(start, stop, step)`. */
  function RangeOf(k: Kernel, bounds: seq<Expr>, names: NameTable, mem: Memory): (r: Outcome<(int, int, int)>)
    ensures r.Success? ==> r.value.2 != 0
  {
    if |bounds| == 0 || |bounds| > 3 then Failure(RuntimeFault)
    else
      var vals :- EvalExprs(k, bounds, names, mem);
      var given :- Scalars(vals, k.ctx, mem);
      var start := if |given| == 1 then 0 else given[0];
      var stop := if |given| == 1 then given[0] else given[1];
      var step := if |given| == 3 then given[2] else 1;
      if step == 0 then Failure(RuntimeFault) else Success((start, stop, step))
  }

  const PLAIN_STORE := Operation(Store, [], [], NO_ATTRS, [])

  function StoreParam(k: Kernel, target: Val, value: Val, indices: seq<Val>, mem: Memory): Outcome<Memory> {
    StoreOperation(PLAIN_STORE, [value, target], indices, k.ctx, mem)
  }

  function RunStmt(k: Kernel, s: Stmt, names: NameTable, mem: Memory): Outcome<(NameTable, Memory)>
    decreases s, 0
  {
    match s
    case Assign(target, value) =>
      var v :- EvalExpr(k, value, names, mem);
      if target in k.params then
        if target !in k.entry then Failure(MissingName)
        else
          var after :- StoreParam(k, k.entry[target], v, [], mem);
          Success((names, after))
      else Success((names[target := v], mem))
    case AssignAt(target, value, indices) =>
      var v :- EvalExpr(k, value, names, mem);
      var destination :- EvalExpr(k, Name(target), names, mem);
      var at :- EvalExprs(k, indices, names, mem);
      var after :- StoreParam(k, destination, v, at, mem);
      Success((names, after))
    case AugAssign(target, op, value) =>
      if target !in names then Failure(MissingName)
      else
        var v :- EvalExpr(k, value, names, mem);
        var result :- Operate(BinaryOperator(op), [names[target], v], k.ctx, mem);
        Success((names[target := result], mem))
    case ForRange(target, bounds, body, orelse) =>
      var (start, stop, step) :- RangeOf(k, bounds, names, mem);
      var looped :- RunLoop(k, target, body, names, mem, start, step, RangeLength(start, stop, step));
      RunStmts(k, orelse, looped.0, looped.1)
    case IfElse(test, body, orelse) =>
      var v :- EvalExpr(k, test, names, mem);
      var condition :- ScalarOf(v, k.ctx, mem);
      RunStmts(k, if condition != 0 then body else orelse, names, mem)
    case Evaluate(value) =>
      var _ :- EvalExpr(k, value, names, mem);
      Success((names, mem))
    case Pass => Success((names, mem))
  }

  function RunLoop(k: Kernel, target: string, body: seq<Stmt>, names: NameTable, mem: Memory, i: int, step: int,
          count: nat): Outcome<(NameTable, Memory)>
    decreases body, 1, count
  {
    if count == 0 then Success((names, mem))
    else
      var next :- RunStmts(k, body, names[target := Num(i)], mem);
      RunLoop(k, target, body, next.0, next.1, i + step, step, count - 1)
  }

  function RunStmts(k: Kernel, stmts: seq<Stmt>, names: NameTable, mem: Memory): Outcome<(NameTable, Memory)>
    decreases stmts, 0
  {
    if stmts == [] then Success((names, mem))
    else
      var next :- RunStmt(k, stmts[0], names, mem);
      RunStmts(k, stmts[1..], next.0, next.1)
  }

  // ----- names a statement may rebind -----

  function Record(names: seq<string>, name: string): seq<string> {
    if name in names then names else names + [name]
  }

  function AssignedIn(s: Stmt, names: seq<string>): seq<string>
    decreases s, 0
  {
    match s
    case Assign(target, _) => Record(names, target)
    case AssignAt(_, _, _) => names
    case AugAssign(target, _, _) => Record(names, target)
    case ForRange(target, _, body, orelse) => AssignedInAll(orelse, AssignedInAll(body, Record(names, target)))
    case IfElse(_, body, orelse) => AssignedInAll(orelse, AssignedInAll(body, names))
    case Evaluate(_) => names
    case Pass => names
  }

  function AssignedInAll(stmts: seq<Stmt>, names: seq<string>): seq<string>
    decreases stmts, 0
  {
    if stmts == [] then names else AssignedInAll(stmts[1..], AssignedIn(stmts[0], names))
  }

  /** `_assigned_names`: first-occurrence order, nested loops and branches included. */
  function AssignedNames(stmts: seq<Stmt>): seq<string> {
    AssignedInAll(stmts, [])
  }

  // ----- lowering -----

  /** The opcode that an operator is lowered to. */
  function OpcodeOf(operator: Operator): Opcode {
    match operator
    case BinaryOperator(op) => Binary(op)
    case UnaryOperator(op) => Unary(op)
    case Conditional => Select
    case MatMult => MatMul
    case TransposeAttribute => Transpose
    case SubscriptRead => Extract(false)
    case ShapeRead(dim) => ShapeDim(dim)
  }

  /** The three operands that a `range(...)` is lowered to. */
  function RangeBounds(bounds: seq<Expr>): Option<(Expr, Expr, Expr)> {
    if |bounds| == 1 then Some((Literal(0), bounds[0], Literal(1)))
    else if |bounds| == 2 then Some((bounds[0], bounds[1], Literal(1)))
    else if |bounds| == 3 then Some((bounds[0], bounds[1], bounds[2]))
    else None
  }

  datatype LowerError = UnknownValue | UnknownAugTarget | UnsupportedRange

  /** Result types are decided by rules that see only operand types. */
  datatype Typing = Typing(rule: (Opcode, seq<Type>) -> Type)

  datatype Builder = Builder(params: seq<string>, symbols: set<string>, tensorTypes: map<string, Type>, typing: Typing)

  type ValueTable = m: map<string, Value> | forall name :: name in m ==> m[name].name == name

  /** The builder's mutable fields: named values, outputs in first-store order, and
      the next temporary index. */
  datatype State = State(values: ValueTable, outputs: seq<Value>, temps: nat)

  type Bindings = map<string, Value>

  const SYMBOL_INDEX := Type(IndexKind, [], Some(IndexInt))
  const PLAIN_TENSOR := Type(TensorKind, [], None)

  function Temp(st: State, t: Type, hint: Option<string>): (Value, State) {
    var name := if hint.None? then "%" + Digits(st.temps) else "%" + hint.value + "_" + Digits(st.temps);
    (Value(name, t), State(st.values[name := Value(name, t)], st.outputs, st.temps + 1))
  }

  function Temps(st: State, names: seq<string>, env: Bindings): (r: (seq<Value>, State))
    requires forall name :: name in names ==> name in env
    ensures |r.0| == |names|
    ensures st.values.Keys <= r.1.values.Keys
    decreases |names|
  {
    if names == [] then ([], st)
    else
      var (value, next) := Temp(st, env[names[0]].typ, Some(names[0]));
      var (rest, last) := Temps(next, names[1..], env);
      ([value] + rest, last)
  }

  function NamedValue(st: State, name: string, default: Type): (Value, State) {
    if name in st.values then (st.values[name], st)
    else (Value(name, default), st.(values := st.values[name := Value(name, default)]))
  }

  function DeclaredType(b: Builder, name: string): Type {
    if name in b.tensorTypes then b.tensorTypes[name] else PLAIN_TENSOR
  }

  datatype LoweredExpr = LoweredExpr(ops: seq<Operation>, value: Value, st: State)
  datatype LoweredExprs = LoweredExprs(ops: seq<Operation>, values: seq<Value>, st: State)
  datatype Lowered = Lowered(ops: seq<Operation>, env: Bindings, st: State)

  function Emit(opcode: Opcode, operands: seq<string>, t: Type, st: State): LoweredExpr {
    var (result, next) := Temp(st, t, None);
    LoweredExpr([Operation(opcode, operands, [result], NO_ATTRS, [])], result, next)
  }

  function TypesOf(values: seq<Value>): seq<Type> {
    seq(|values|, i requires 0 <= i < |values| => values[i].typ)
  }

  function LowerName(b: Builder, id: string, env: Bindings, st: State): Result<(Value, State), LowerError> {
    if id in env then Success((env[id], st))
    else if id in b.symbols then Success(NamedValue(st, id, SYMBOL_INDEX))
    else Failure(UnknownValue)
  }

  function LowerExpr(b: Builder, e: Expr, env: Bindings, st: State): (r: Result<LoweredExpr, LowerError>)
    ensures r.Success? ==> st.values.Keys <= r.value.st.values.Keys
    decreases e, 0
  {
    match e
    case Literal(value) => Success(Emit(Constant(value), [], SCALAR_INT, st))
    case Name(id) =>
      var found :- LowerName(b, id, env, st);
      Success(LoweredExpr([], found.0, found.1))
    case Apply(operator, args) =>
      if operator == UnaryOperator(Neg) && |args| == 1 && args[0].Literal? then
        Success(Emit(Constant(-args[0].value), [], SCALAR_INT, st))
      else
        var lowered :- LowerExprs(b, args, env, st);
        var opcode := OpcodeOf(operator);
        var emitted := Emit(opcode, Ssa.Names(lowered.values), b.typing.rule(opcode, TypesOf(lowered.values)),
            lowered.st);
        Success(LoweredExpr(lowered.ops + emitted.ops, emitted.value, emitted.st))
  }

  function LowerExprs(b: Builder, es: seq<Expr>, env: Bindings, st: State): (r: Result<LoweredExprs, LowerError>)
    ensures r.Success? ==> |r.value.values| == |es|
    ensures r.Success? ==> st.values.Keys <= r.value.st.values.Keys
    decreases es, 0
  {
    if es == [] then Success(LoweredExprs([], [], st))
    else
      var first :- LowerExpr(b, es[0], env, st);
      var rest :- LowerExprs(b, es[1..], env, first.st);
      Success(LoweredExprs(first.ops + rest.ops, [first.value] + rest.values, rest.st))
  }

  /** `_ensure_bool_condition`: an untyped scalar condition becomes boolean, also in
      every binding that denotes it. */
  function EnsureBool(value: Value, env: Bindings, st: State): (r: (Value, Bindings, State))
    ensures r.0.name == value.name
    ensures r.1.Keys == env.Keys && forall x :: x in env ==> r.1[x].name == env[x].name
  {
    if value.typ.dtype == Some(Bool) || value.typ.kind != ScalarKind
        || value.typ.dtype !in {None, Some(Symbolic)} then (value, env, st)
    else
      var replacement := Value(value.name, Type(ScalarKind, value.typ.shape, Some(Bool)));
      (replacement,
       map x | x in env :: if env[x].name == value.name then replacement else env[x],
       st.(values := st.values[value.name := replacement]))
  }

  function AddOutput(st: State, output: Value): State {
    if output in st.outputs then st else st.(outputs := st.outputs + [output])
  }

  function StoreTo(value: string, destination: string, indices: seq<string>): Operation {
    Operation(Store, [value, destination], [], NO_ATTRS.(indices := indices), [])
  }

  function YieldOf(names: seq<string>, env: Bindings): Operation
    requires forall name :: name in names ==> name in env
  {
    Operation(Yield, seq(|names|, i requires 0 <= i < |names| => env[names[i]].name), [], NO_ATTRS, [])
  }

  function Rebind(names: seq<string>, values: seq<Value>, env: Bindings): (r: Bindings)
    requires |names| == |values|
    ensures r.Keys == env.Keys + set name | name in names
    ensures forall x :: x in env && x !in names ==> r[x] == env[x]
    decreases |names|
  {
    if names == [] then env
    else
      assert names == [names[0]] + names[1..];
      Rebind(names[1..], values[1..], env[names[0] := values[0]])
  }

  /** The assigned names that are already bound, in order. */
  function Carried(touched: seq<string>, env: Bindings): (r: seq<string>)
    ensures forall name :: name in r <==> name in touched && name in env
  {
    if touched == [] then []
    else if touched[0] in env then [touched[0]] + Carried(touched[1..], env)
    else Carried(touched[1..], env)
  }

  function LoopArguments(names: seq<string>, env: Bindings): (r: seq<Value>)
    requires forall name :: name in names ==> name in env
    ensures |r| == |names|
  {
    seq(|names|, i requires 0 <= i < |names| => Value("%" + names[i] + "_iter", env[names[i]].typ))
  }

  function NamesIn(names: seq<string>, env: Bindings): (r: seq<string>)
    requires forall name :: name in names ==> name in env
    ensures |r| == |names|
    ensures forall i :: 0 <= i < |names| ==> r[i] == env[names[i]].name
  {
    seq(|names|, i requires 0 <= i < |names| => env[names[i]].name)
  }

  /** Inside a loop the target denotes the induction argument and a carried name its
      loop-carried argument. */
  function LoopBindings(target: string, carried: seq<string>, env: Bindings): Bindings
    requires forall name :: name in carried ==> name in env
  {
    Rebind(carried, LoopArguments(carried, env), env[target := Value("%" + target, INDEX)])
  }

  function LoopRegion(target: string, carried: seq<string>, env: Bindings, inner: Lowered): Block
    requires forall name :: name in carried ==> name in env && name in inner.env
  {
    Block([Value("%" + target, INDEX)] + LoopArguments(carried, env), inner.ops + [YieldOf(carried, inner.env)])
  }

  function LoopOperation(target: string, carried: seq<string>, env: Bindings, limits: seq<Value>, inner: Lowered,
          results: seq<Value>): Operation
    requires forall name :: name in carried ==> name in env && name in inner.env
  {
    var args := LoopArguments(carried, env);
    Operation(For, Ssa.Names(limits) + NamesIn(carried, env), results,
              NO_ATTRS.(induction := "%" + target,
                        iterArgs := seq(|carried|, i requires 0 <= i < |carried| =>
                            IterArg(carried[i], env[carried[i]].name, args[i].name))),
              [LoopRegion(target, carried, env, inner)])
  }

  /** Without touched names a branch yields nothing and a missing `else` has no region. */
  function BranchOperation(flag: string, touched: seq<string>, results: seq<Value>, thenBranch: Lowered,
          elseBranch: Lowered, hasElse: bool): Operation
    requires forall name :: name in touched ==> name in thenBranch.env && name in elseBranch.env
  {
    var regions :=
      if touched == [] then
        if hasElse then [Block([], thenBranch.ops), Block([], elseBranch.ops)] else [Block([], thenBranch.ops)]
      else
        [Block([], thenBranch.ops + [YieldOf(touched, thenBranch.env)]),
            Block([], elseBranch.ops + [YieldOf(touched, elseBranch.env)])];
    Operation(If, [flag], results, NO_ATTRS, regions)
  }

  function LowerStmt(b: Builder, s: Stmt, env: Bindings, st: State): (r: Result<Lowered, LowerError>)
    ensures r.Success? ==> env.Keys <= r.value.env.Keys && st.values.Keys <= r.value.st.values.Keys
    decreases s, 0
  {
    match s
    case Assign(target, value) =>
      var v :- LowerExpr(b, value, env, st);
      if target in b.params then
        var (output, named) := NamedValue(v.st, target, DeclaredType(b, target));
        Success(Lowered(v.ops + [StoreTo(v.value.name, output.name, [])], env, AddOutput(named, output)))
      else Success(Lowered(v.ops, env[target := v.value], v.st))
    case AssignAt(target, value, indices) =>
      var v :- LowerExpr(b, value, env, st);
      var destination :- LowerName(b, target, env, v.st);
      var at :- LowerExprs(b, indices, env, AddOutput(destination.1, destination.0));
      Success(Lowered(v.ops + (at.ops + [StoreTo(v.value.name, destination.0.name, Ssa.Names(at.values))]), env, at.st))
    case AugAssign(target, op, value) =>
      if target !in env then Failure(UnknownAugTarget)
      else
        var v :- LowerExpr(b, value, env, st);
        var emitted := Emit(Binary(op), [env[target].name, v.value.name], env[target].typ, v.st);
        Success(Lowered(v.ops + emitted.ops, env[target := emitted.value], emitted.st))
    case ForRange(target, bounds, body, orelse) =>
      var range := RangeBounds(bounds);
      if range.None? then Failure(UnsupportedRange)
      else
        var limits :- LowerExprs(b, [range.value.0, range.value.1, range.value.2], env, st);
        var carried := Carried(AssignedNames(body), env);
        var inner :- LowerStmts(b, body, LoopBindings(target, carried, env), limits.st);
        var (results, last) := Temps(inner.st, carried, env);
        Success(Lowered(limits.ops + [LoopOperation(target, carried, env, limits.values, inner, results)],
            Rebind(carried, results, env), last))
    case IfElse(test, body, orelse) =>
      var condition :- LowerExpr(b, test, env, st);
      var (flag, env1, st1) := EnsureBool(condition.value, env, condition.st);
      var touched := Carried(AssignedNames(body + orelse), env1);
      var thenBranch :- LowerStmts(b, body, env1, st1);
      var elseBranch :- LowerStmts(b, orelse, env1, thenBranch.st);
      var (results, last) := Temps(elseBranch.st, touched, env1);
      Success(Lowered(condition.ops
          + [BranchOperation(flag.name, touched, results, thenBranch, elseBranch, orelse != [])],
                      Rebind(touched, results, env1), last))
    case Evaluate(value) =>
      var v :- LowerExpr(b, value, env, st);
      Success(Lowered(v.ops, env, v.st))
    case Pass => Success(Lowered([], env, st))
  }

  function LowerStmts(b: Builder, stmts: seq<Stmt>, env: Bindings, st: State): (r: Result<Lowered, LowerError>)
    ensures r.Success? ==> env.Keys <= r.value.env.Keys && st.values.Keys <= r.value.st.values.Keys
    decreases stmts, 0
  {
    if stmts == [] then Success(Lowered([], env, st))
    else
      var first :- LowerStmt(b, stmts[0], env, st);
      var rest :- LowerStmts(b, stmts[1..], first.env, first.st);
      Success(Lowered(first.ops + rest.ops, rest.env, rest.st))
  }

  /** The constructor's loop over parameter names. */
  function EntryState(b: Builder, params: seq<string>, st: State, env: Bindings): (Bindings, State)
    decreases |params|
  {
    if params == [] then (env, st)
    else
      var (value, next) := NamedValue(st, params[0], DeclaredType(b, params[0]));
      EntryState(b, params[1..], next, env[params[0] := value])
  }

  function ParamValues(params: seq<string>, values: map<string, Value>): (r: seq<Value>)
  {
    if params == [] then []
    else (if params[0] in values then [values[params[0]]] else []) + ParamValues(params[1..], values)
  }

  function LowerKernel(b: Builder, body: seq<Stmt>): Result<Program, LowerError> {
    var (env, st) := EntryState(b, b.params, State(map[], [], 0), map[]);
    var lowered :- LowerStmts(b, body, env, st);
    Success(Program(ParamValues(b.params, lowered.st.values), lowered.st.outputs, [Block([], lowered.ops)], b.symbols))
  }
}
