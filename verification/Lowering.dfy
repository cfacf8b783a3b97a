/** What lowered code means: running the SSA of an accepted kernel body leaves the same
    buffers, and the same value for every name still bound, as running its statements with
    the scopes that the lowering gives to names. */
module Lowering {
  import opened Wrappers
  import opened Ssa
  import opened Interpreter
  import opened Scoping
  import opened Frontend
  import opened ScopedMeaning

  // ----- running concatenated operations -----

  ghost predicate NoYield(ops: seq<Operation>) {
    forall op :: op in ops ==> !op.opcode.Yield?
  }

  lemma {:induction false} ScopedConcat(a: seq<Operation>, b: seq<Operation>, visible: set<string>)
    requires NoYield(a) && ScopedOperations(a + b, visible)
    ensures ScopedOperations(a, visible)
    ensures ScopedOperations(b, FinallyVisible(a, visible))
    ensures FinallyVisible(a + b, visible) == FinallyVisible(b, FinallyVisible(a, visible))
    decreases |a|
  {
    hide ScopedOperation;
    if a == [] {
      assert a + b == b;
    } else {
      assert (a + b)[0] == a[0] && (a + b)[1..] == a[1..] + b;
      ScopedConcat(a[1..], b, visible + NameSet(a[0].results));
    }
  }

  lemma {:induction false} VisibleGrows(ops: seq<Operation>, visible: set<string>)
    ensures visible <= FinallyVisible(ops, visible)
    decreases |ops|
  {
    if ops != [] {
      VisibleGrows(ops[1..], visible + NameSet(ops[0].results));
    }
  }

  lemma {:induction false} ExecConcat(a: seq<Operation>, b: seq<Operation>, env: Env, mem: Memory, ctx: Context)
    requires NoYield(a)
    ensures match ExecOperations(a, env, mem, ctx)
            case Success(done) => ExecOperations(a + b, env, mem, ctx) == ExecOperations(b, done.env, done.mem, ctx)
            case Failure(fault) => ExecOperations(a + b, env, mem, ctx) == Failure(fault)
    decreases |a|
  {
    hide ExecOperation;
    if a == [] {
      assert a + b == b;
    } else {
      assert (a + b)[0] == a[0] && (a + b)[1..] == a[1..] + b;
      var done := ExecOperation(a[0], env, mem, ctx);
      if done.Success? {
        ExecConcat(a[1..], b, BindValues(a[0].results, done.value.0, env), done.value.1, ctx);
      }
    }
  }

  lemma {:induction false} BindValuesAt(values: seq<Value>, vals: seq<Val>, env: Env, i: nat)
    requires DistinctNames(values) && |vals| >= |values| && i < |values|
    ensures values[i].name in BindValues(values, vals, env)
    ensures BindValues(values, vals, env)[values[i].name] == vals[i]
    decreases i
  {
    if i > 0 {
      BindValuesAt(values[1..], vals[1..], env[values[0].name := vals[0]], i - 1);
    } else {
      assert forall v :: v in values[1..] ==> v.name != values[0].name;
    }
  }

  // ----- the relation between the two runs -----

  /** `names` is the state of the direct run, `env` of the SSA run; `bindings` says
      which SSA value denotes each name, and every such value is in `visible`. */
  ghost predicate Related(k: Kernel, bindings: Bindings, names: NameTable, env: Env, visible: set<string>) {
    && visible <= env.Keys
    && k.symbols + k.params <= visible
    && (forall x :: x in k.symbols + k.params ==> x in k.entry && env[x] == k.entry[x])
    && (forall x :: x in bindings ==> bindings[x].name in visible && x in names && env[bindings[x].name] == names[x])
    && names.Keys == bindings.Keys
  }

  lemma {:induction false} RelatedKept(k: Kernel, bindings: Bindings, names: NameTable, env: Env, visible: set<string>,
          after: Env, wider: set<string>)
    requires Related(k, bindings, names, env, visible)
    requires Keeps(visible, env, after) && visible <= wider <= after.Keys
    ensures Related(k, bindings, names, after, wider)
  {
  }

  /** Running `ops` succeeds without touching memory and leaves `expected` where `value` says,
      or both runs fail. */
  ghost predicate Produces(r: Outcome<Val>, x: Outcome<Finish>, ops: seq<Operation>, value: Value, visible: set<string>,
          env: Env, mem: Memory) {
    match r
    case Failure(_) => x.Failure?
    case Success(v) =>
      && x.Success? && x.value.mem == mem
      && Keeps(visible, env, x.value.env)
      && FinallyVisible(ops, visible) <= x.value.env.Keys
      && value.name in FinallyVisible(ops, visible)
      && x.value.env[value.name] == v
  }

  ghost predicate ProducesAll(r: Outcome<seq<Val>>, x: Outcome<Finish>, ops: seq<Operation>, values: seq<Value>,
          visible: set<string>, env: Env, mem: Memory) {
    match r
    case Failure(_) => x.Failure?
    case Success(vals) =>
      && x.Success? && x.value.mem == mem
      && Keeps(visible, env, x.value.env)
      && FinallyVisible(ops, visible) <= x.value.env.Keys
      && |vals| == |values|
      && forall i :: 0 <= i < |values| ==>
          values[i].name in FinallyVisible(ops, visible) && x.value.env[values[i].name] == vals[i]
  }

  ghost predicate Matches(k: Kernel, b: Builder) {
    b.symbols == k.symbols && forall x :: x in b.params <==> x in k.params
  }

  // ----- expressions -----

  function Primitive(opcode: Opcode, args: seq<Val>, ctx: Context, mem: Memory): Outcome<Val> {
    Compute(Operation(opcode, [], [], NO_ATTRS, []), args, ctx, mem)
  }

  /** The opcode of an operator computes what the operator means. */
  lemma {:induction false} OpcodeComputes(operator: Operator, args: seq<Val>, ctx: Context, mem: Memory)
    ensures Primitive(OpcodeOf(operator), args, ctx, mem) == Operate(operator, args, ctx, mem)
  {
    hide Materialize, ScalarOf, Elementwise, MapUnary, Where, Product, Transposed, ExtractAt, ExtentAt;
  }

  lemma {:induction false} ExprHasNoYield(b: Builder, e: Expr, env: Bindings, st: State)
    requires LowerExpr(b, e, env, st).Success?
    ensures NoYield(LowerExpr(b, e, env, st).value.ops)
    decreases e, 0
  {
    hide LowerExprs, Temp;
    if e.Apply? && !(e.operator == UnaryOperator(Neg) && |e.args| == 1 && e.args[0].Literal?) {
      ExprsHaveNoYield(b, e.args, env, st);
    }
  }

  lemma {:induction false} ExprsHaveNoYield(b: Builder, es: seq<Expr>, env: Bindings, st: State)
    requires LowerExprs(b, es, env, st).Success?
    ensures NoYield(LowerExprs(b, es, env, st).value.ops)
    decreases es, 0
  {
    if es != [] {
      ExprHasNoYield(b, es[0], env, st);
      ExprsHaveNoYield(b, es[1..], env, LowerExpr(b, es[0], env, st).value.st);
    }
  }

  lemma {:induction false} ExecSingle(op: Operation, env: Env, mem: Memory, ctx: Context, visible: set<string>)
    requires !op.opcode.Yield?
    ensures match ExecOperation(op, env, mem, ctx)
            case Failure(fault) => ExecOperations([op], env, mem, ctx) == Failure(fault)
            case Success(done) =>
              ExecOperations([op], env, mem, ctx) ==
              Success(Finish([], BindValues(op.results, done.0, env), done.1))
    ensures FinallyVisible([op], visible) == visible + NameSet(op.results)
  {
    hide ExecOperation;
    assert [op][1..] == [];
    assert FinallyVisible([op], visible) == FinallyVisible([op][1..], visible + NameSet(op.results));
    var done := ExecOperation(op, env, mem, ctx);
    if done.Success? {
      assert ExecOperations([op][1..], BindValues(op.results, done.value.0, env), done.value.1, ctx)
          == Success(Finish([], BindValues(op.results, done.value.0, env), done.value.1));
    }
  }

  /** One emitted operation whose operands hold `args` computes the primitive of `args`. */
  lemma {:induction false} EmittedComputes(opcode: Opcode, operands: seq<string>, args: seq<Val>, t: Type, st: State,
          env: Env, mem: Memory, ctx: Context, visible: set<string>)
    requires !opcode.For? && !opcode.If? && !opcode.Store? && !opcode.Yield?
    requires visible <= env.Keys && |operands| == |args|
    requires forall i :: 0 <= i < |args| ==> operands[i] in visible && env[operands[i]] == args[i]
    requires ScopedOperations(Emit(opcode, operands, t, st).ops, visible)
    ensures var lowered := Emit(opcode, operands, t, st);
            Produces(Primitive(opcode, args, ctx, mem), ExecOperations(lowered.ops, env, mem, ctx), lowered.ops,
                lowered.value, visible, env, mem)
  {
    hide Compute, ScopedOperations, ExecOperations, FinallyVisible;
    var lowered := Emit(opcode, operands, t, st);
    var op := lowered.ops[0];
    assert lowered.ops == [op] && op.results == [lowered.value];
    EmittedScoped(op, lowered.value, visible);
    EmittedRuns(op, operands, args, env, mem, ctx);
    ComputeIgnoresResults(opcode, operands, [lowered.value], args, ctx, mem);
    hide ExecOperation;
    ExecSingle(op, env, mem, ctx, visible);
    var value := Compute(op, args, ctx, mem);
    if value.Success? {
      assert BindValues(op.results, [value.value], env) == env[lowered.value.name := value.value];
    }
  }

  lemma {:induction false} EmittedRuns(op: Operation, operands: seq<string>, args: seq<Val>, env: Env, mem: Memory,
          ctx: Context)
    requires !op.opcode.For? && !op.opcode.If? && !op.opcode.Store? && !op.opcode.Yield?
    requires op.operands == operands && |op.results| == 1 && |operands| == |args|
    requires forall i :: 0 <= i < |args| ==> operands[i] in env && env[operands[i]] == args[i]
    ensures
      var value := Compute(op, args, ctx, mem);
      ExecOperation(op, env, mem, ctx) == if value.Success? then Success(([value.value], mem)) else Failure(value.error)
  {
    hide Compute;
    var found := Lookup(operands, env);
    assert found.Success? && found.value == args;
  }

  lemma {:induction false} EmittedScoped(op: Operation, value: Value, visible: set<string>)
    requires op.results == [value] && ScopedOperations([op], visible)
    ensures NameSet(op.results) == {value.name} && value.name !in visible
  {
    assert value in op.results && value.name in NameSet(op.results);
  }

  lemma {:induction false} ComputeIgnoresResults(opcode: Opcode, operands: seq<string>, results: seq<Value>,
          args: seq<Val>, ctx: Context, mem: Memory)
    ensures Compute(Operation(opcode, operands, results, NO_ATTRS, []), args, ctx, mem) ==
        Primitive(opcode, args, ctx, mem)
  {
  }

  lemma {:induction false} ExprCorrect(k: Kernel, b: Builder, e: Expr, bindings: Bindings, st: State, names: NameTable,
          env: Env, mem: Memory, visible: set<string>)
    requires Matches(k, b) && LowerExpr(b, e, bindings, st).Success?
    requires ScopedOperations(LowerExpr(b, e, bindings, st).value.ops, visible)
    requires Related(k, bindings, names, env, visible)
    ensures var lowered := LowerExpr(b, e, bindings, st).value;
            Produces(EvalExpr(k, e, names, mem), ExecOperations(lowered.ops, env, mem, k.ctx), lowered.ops,
                lowered.value, visible, env, mem)
    decreases e, 0
  {
    hide ScopedOperation, ExecOperation, ScopedOperations, ExecOperations, EvalExprs, LowerExprs, Produces,
        FinallyVisible;
    match e {
      case Literal(value) =>
        EmittedComputes(Constant(value), [], [], SCALAR_INT, st, env, mem, k.ctx, visible);
      case Name(id) =>
        NameCorrect(k, b, id, bindings, st, names, env, mem, visible);
      case Apply(operator, args) =>
        if operator == UnaryOperator(Neg) && |args| == 1 && args[0].Literal? {
          NegatedLiteral(k, args[0].value, names, mem);
          assert args == [Literal(args[0].value)];
          EmittedComputes(Constant(-args[0].value), [], [], SCALAR_INT, st, env, mem, k.ctx, visible);
        } else {
          ApplyCorrect(k, b, operator, args, bindings, st, names, env, mem, visible);
        }
    }
  }

  lemma {:induction false} NameCorrect(k: Kernel, b: Builder, id: string, bindings: Bindings, st: State,
          names: NameTable, env: Env, mem: Memory, visible: set<string>)
    requires Matches(k, b) && LowerName(b, id, bindings, st).Success?
    requires Related(k, bindings, names, env, visible)
    ensures Produces(EvalExpr(k, Name(id), names, mem), ExecOperations([], env, mem, k.ctx), [],
        LowerName(b, id, bindings, st).value.0, visible, env, mem)
  {
  }

  lemma {:induction false} NegatedLiteral(k: Kernel, value: int, names: NameTable, mem: Memory)
    ensures EvalExpr(k, Apply(UnaryOperator(Neg), [Literal(value)]), names, mem) == Success(Num(-value))
    ensures Primitive(Constant(-value), [], k.ctx, mem) == Success(Num(-value))
  {
    var args := [Literal(value)];
    assert EvalExpr(k, args[0], names, mem) == Success(Num(value));
    var rest := EvalExprs(k, args[1..], names, mem);
    assert rest == Success([]);
    assert EvalExprs(k, args, names, mem) == Success([Num(value)] + rest.value);
  }

  lemma {:induction false} ApplyCorrect(k: Kernel, b: Builder, operator: Operator, args: seq<Expr>, bindings: Bindings,
          st: State, names: NameTable, env: Env, mem: Memory, visible: set<string>)
    requires Matches(k, b)
    requires !(operator == UnaryOperator(Neg) && |args| == 1 && args[0].Literal?)
    requires LowerExpr(b, Apply(operator, args), bindings, st).Success?
    requires ScopedOperations(LowerExpr(b, Apply(operator, args), bindings, st).value.ops, visible)
    requires Related(k, bindings, names, env, visible)
    ensures var lowered := LowerExpr(b, Apply(operator, args), bindings, st).value;
            Produces(EvalExpr(k, Apply(operator, args), names, mem), ExecOperations(lowered.ops, env, mem, k.ctx),
                lowered.ops, lowered.value, visible, env, mem)
    decreases args, 1
  {
    hide ScopedOperations, ExecOperations, Compute, FinallyVisible, EvalExprs, LowerExprs, Matches, Related, TypesOf,
        Emit, LowerName;
    var inner := LowerExprs(b, args, bindings, st).value;
    var opcode := OpcodeOf(operator);
    var t := b.typing.rule(opcode, TypesOf(inner.values));
    var operands := Ssa.Names(inner.values);
    var last := Emit(opcode, operands, t, inner.st);
    ExprsHaveNoYield(b, args, bindings, st);
    ScopedConcat(inner.ops, last.ops, visible);
    ExecConcat(inner.ops, last.ops, env, mem, k.ctx);
    ExprsCorrect(k, b, args, bindings, st, names, env, mem, visible);
    var done := ExecOperations(inner.ops, env, mem, k.ctx);
    var vals := EvalExprs(k, args, names, mem);
    if vals.Success? {
      VisibleGrows(inner.ops, visible);
      OpcodeComputes(operator, vals.value, k.ctx, mem);
      EmittedComputes(opcode, operands, vals.value, t, inner.st, done.value.env, mem, k.ctx,
          FinallyVisible(inner.ops, visible));
    }
  }

  lemma {:induction false} ProducesCons(v: Val, first: Finish, ops1: seq<Operation>, value: Value, vals: seq<Val>,
          x: Outcome<Finish>, ops2: seq<Operation>, values: seq<Value>, ops: seq<Operation>, visible: set<string>,
          env: Env, mem: Memory)
    requires FinallyVisible(ops, visible) == FinallyVisible(ops2, FinallyVisible(ops1, visible))
    requires visible <= FinallyVisible(ops1, visible) <= FinallyVisible(ops, visible)
    requires Produces(Success(v), Success(first), ops1, value, visible, env, mem)
    requires ProducesAll(Success(vals), x, ops2, values, FinallyVisible(ops1, visible), first.env, mem)
    ensures ProducesAll(Success([v] + vals), x, ops, [value] + values, visible, env, mem)
  {
    assert Keeps(visible, env, x.value.env);
    forall i | 0 <= i < |[value] + values|
      ensures ([value] + values)[i].name in FinallyVisible(ops, visible)
      ensures x.value.env[([value] + values)[i].name] == ([v] + vals)[i]
    {
      if i > 0 {
        assert ([value] + values)[i] == values[i - 1] && ([v] + vals)[i] == vals[i - 1];
      }
    }
  }

  lemma {:induction false} ExprsCorrect(k: Kernel, b: Builder, es: seq<Expr>, bindings: Bindings, st: State,
          names: NameTable, env: Env, mem: Memory, visible: set<string>)
    requires Matches(k, b) && LowerExprs(b, es, bindings, st).Success?
    requires ScopedOperations(LowerExprs(b, es, bindings, st).value.ops, visible)
    requires Related(k, bindings, names, env, visible)
    ensures var lowered := LowerExprs(b, es, bindings, st).value;
            ProducesAll(EvalExprs(k, es, names, mem), ExecOperations(lowered.ops, env, mem, k.ctx), lowered.ops,
                lowered.values, visible, env, mem)
    decreases es, 0
  {
    hide ScopedOperation, ExecOperation, ScopedOperations;
    if es != [] {
      var first := LowerExpr(b, es[0], bindings, st).value;
      var rest := LowerExprs(b, es[1..], bindings, first.st).value;
      ExprHasNoYield(b, es[0], bindings, st);
      ScopedConcat(first.ops, rest.ops, visible);
      ExecConcat(first.ops, rest.ops, env, mem, k.ctx);
      ExprCorrect(k, b, es[0], bindings, st, names, env, mem, visible);
      hide LowerExpr, EvalExpr;
      var v := EvalExpr(k, es[0], names, mem);
      if v.Success? {
        var done := ExecOperations(first.ops, env, mem, k.ctx).value;
        var middle := FinallyVisible(first.ops, visible);
        VisibleGrows(first.ops, visible);
        VisibleGrows(rest.ops, middle);
        RelatedKept(k, bindings, names, env, visible, done.env, middle);
        ExprsCorrect(k, b, es[1..], bindings, first.st, names, done.env, mem, middle);
        var vals := EvalExprs(k, es[1..], names, mem);
        if vals.Success? {
          ProducesCons(v.value, done, first.ops, first.value, vals.value,
              ExecOperations(rest.ops, done.env, mem, k.ctx), rest.ops, rest.values,
                       first.ops + rest.ops, visible, env, mem);
        }
      }
    }
  }

  // ----- names a statement touches -----

  ghost function Touches(s: Stmt): set<string>
    decreases s, 0
  {
    match s
    case Assign(target, _) => {target}
    case AugAssign(target, _, _) => {target}
    case ForRange(target, _, body, orelse) => {target} + TouchesAll(body) + TouchesAll(orelse)
    case IfElse(_, body, orelse) => TouchesAll(body) + TouchesAll(orelse)
    case _ => {}
  }

  ghost function TouchesAll(stmts: seq<Stmt>): set<string>
    decreases stmts, 0
  {
    if stmts == [] then {} else Touches(stmts[0]) + TouchesAll(stmts[1..])
  }

  lemma {:induction false} AssignedInIsTouched(s: Stmt, names: seq<string>)
    requires Distinct(names)
    ensures Distinct(AssignedIn(s, names)) && Elements(AssignedIn(s, names)) == Elements(names) + Touches(s)
    decreases s, 0
  {
    match s {
      case ForRange(target, _, body, orelse) =>
        var first := Record(names, target);
        assert Distinct(first) && Elements(first) == Elements(names) + {target};
        AssignedInAllIsTouched(body, first);
        AssignedInAllIsTouched(orelse, AssignedInAll(body, first));
      case IfElse(_, body, orelse) =>
        AssignedInAllIsTouched(body, names);
        AssignedInAllIsTouched(orelse, AssignedInAll(body, names));
      case _ =>
    }
  }

  lemma {:induction false} AssignedInAllIsTouched(stmts: seq<Stmt>, names: seq<string>)
    requires Distinct(names)
    ensures Distinct(AssignedInAll(stmts, names))
    ensures Elements(AssignedInAll(stmts, names)) == Elements(names) + TouchesAll(stmts)
    decreases stmts, 0
  {
    if stmts != [] {
      AssignedInIsTouched(stmts[0], names);
      AssignedInAllIsTouched(stmts[1..], AssignedIn(stmts[0], names));
    }
  }

  lemma {:induction false} TouchesConcat(a: seq<Stmt>, b: seq<Stmt>)
    ensures TouchesAll(a + b) == TouchesAll(a) + TouchesAll(b)
    decreases |a|
  {
    if a == [] {
      assert a + b == b;
    } else {
      assert (a + b)[0] == a[0] && (a + b)[1..] == a[1..] + b;
      TouchesConcat(a[1..], b);
    }
  }

  lemma {:induction false} CarriedDistinct(names: seq<string>, env: Bindings)
    requires Distinct(names)
    ensures Distinct(Carried(names, env))
    decreases |names|
  {
    if names != [] {
      CarriedDistinct(names[1..], env);
      var rest := Carried(names[1..], env);
      assert forall name :: name in rest ==> name in names[1..];
      forall i, j | 0 <= i < j < |Carried(names, env)|
        ensures Carried(names, env)[i] != Carried(names, env)[j]
      {
        if names[0] in env && i == 0 {
          assert rest[j - 1] in names[1..];
        }
      }
    }
  }

  /** The carried names of a region: distinct, and exactly the touched names already bound. */
  lemma {:induction false} CarriedMeans(stmts: seq<Stmt>, env: Bindings)
    ensures var carried := Carried(AssignedNames(stmts), env);
            Distinct(carried) && forall x :: x in carried <==> x in TouchesAll(stmts) && x in env
  {
    AssignedInAllIsTouched(stmts, []);
    CarriedDistinct(AssignedNames(stmts), env);
    assert forall x :: x in AssignedNames(stmts) <==> x in Elements(AssignedNames(stmts));
  }

  // ----- what statements bind -----

  /** Names a statement leaves bound in its own scope. */
  ghost function Binds(s: Stmt, params: set<string>): set<string> {
    match s
    case Assign(target, _) => if target in params then {} else {target}
    case AugAssign(target, _, _) => {target}
    case _ => {}
  }

  lemma {:induction false} LoopBinds(k: Kernel, b: Builder, s: Stmt, bindings: Bindings, st: State)
    requires s.ForRange? && LowerStmt(b, s, bindings, st).Success?
    ensures LowerStmt(b, s, bindings, st).value.env.Keys == bindings.Keys + Binds(s, k.params)
    ensures NoYield(LowerStmt(b, s, bindings, st).value.ops)
  {
    hide LowerExpr, LowerExprs, LowerStmts, AssignedNames;
    var range := RangeBounds(s.bounds).value;
    ExprsHaveNoYield(b, [range.0, range.1, range.2], bindings, st);
    CarriedMeans(s.body, bindings);
  }

  lemma {:induction false} BranchBinds(k: Kernel, b: Builder, s: Stmt, bindings: Bindings, st: State)
    requires s.IfElse? && LowerStmt(b, s, bindings, st).Success?
    ensures LowerStmt(b, s, bindings, st).value.env.Keys == bindings.Keys + Binds(s, k.params)
    ensures NoYield(LowerStmt(b, s, bindings, st).value.ops)
  {
    hide LowerExpr, LowerExprs, LowerStmts, AssignedNames;
    ExprHasNoYield(b, s.test, bindings, st);
    var condition := LowerExpr(b, s.test, bindings, st).value;
    CarriedMeans(s.body + s.orelse, EnsureBool(condition.value, bindings, condition.st).1);
  }

  lemma {:induction false} LoweredBinds(k: Kernel, b: Builder, s: Stmt, bindings: Bindings, st: State)
    requires Matches(k, b) && LowerStmt(b, s, bindings, st).Success?
    ensures LowerStmt(b, s, bindings, st).value.env.Keys == bindings.Keys + Binds(s, k.params)
    ensures NoYield(LowerStmt(b, s, bindings, st).value.ops)
    decreases s, 0
  {
    hide LowerExpr, LowerExprs, LowerStmts, Carried, AssignedNames;
    match s {
      case ForRange(_, _, _, _) => LoopBinds(k, b, s, bindings, st);
      case IfElse(_, _, _) => BranchBinds(k, b, s, bindings, st);
      case AssignAt(target, value, indices) =>
        ExprHasNoYield(b, value, bindings, st);
        var v := LowerExpr(b, value, bindings, st).value;
        var destination := LowerName(b, target, bindings, v.st).value;
        ExprsHaveNoYield(b, indices, bindings, AddOutput(destination.1, destination.0));
      case Assign(_, value) => ExprHasNoYield(b, value, bindings, st);
      case AugAssign(_, _, value) => ExprHasNoYield(b, value, bindings, st);
      case Evaluate(value) => ExprHasNoYield(b, value, bindings, st);
      case Pass =>
    }
  }

  lemma {:induction false} LoweredAllHaveNoYield(k: Kernel, b: Builder, stmts: seq<Stmt>, bindings: Bindings, st: State)
    requires Matches(k, b) && LowerStmts(b, stmts, bindings, st).Success?
    ensures NoYield(LowerStmts(b, stmts, bindings, st).value.ops)
    decreases |stmts|
  {
    hide LowerStmt;
    if stmts != [] {
      LoweredBinds(k, b, stmts[0], bindings, st);
      var first := LowerStmt(b, stmts[0], bindings, st).value;
      LoweredAllHaveNoYield(k, b, stmts[1..], first.env, first.st);
    }
  }

  // ----- merging region results -----

  lemma {:induction false} RebindAt(names: seq<string>, values: seq<Value>, env: Bindings, i: nat)
    requires Distinct(names) && |names| == |values| && i < |names|
    ensures names[i] in Rebind(names, values, env) && Rebind(names, values, env)[names[i]] == values[i]
    decreases i
  {
    if i > 0 {
      RebindAt(names[1..], values[1..], env[names[0] := values[0]], i - 1);
    } else {
      assert forall n :: n in names[1..] ==> n != names[0];
    }
  }

  /** Binding `results` to `vals` for the touched names keeps the relation. */
  lemma {:induction false} Merge(k: Kernel, touched: seq<string>, results: seq<Value>, vals: seq<Val>,
          bindings: Bindings, names: NameTable, after: NameTable, env: Env, visible: set<string>)
    requires Related(k, bindings, names, env, visible)
    requires Distinct(touched) && DistinctNames(results) && |touched| == |results| == |vals|
    requires NameSet(results) !! visible
    requires forall i :: 0 <= i < |touched| ==> touched[i] in after && after[touched[i]] == vals[i]
    requires forall x :: x in bindings && x !in touched ==> x in after && after[x] == names[x]
    requires after.Keys == bindings.Keys + Elements(touched)
    ensures Related(k, Rebind(touched, results, bindings), after, BindValues(results, vals, env),
        visible + NameSet(results))
    ensures Keeps(visible, env, BindValues(results, vals, env))
  {
    var merged, bound := Rebind(touched, results, bindings), BindValues(results, vals, env);
    forall x | x in merged
      ensures merged[x].name in visible + NameSet(results) && x in after && bound[merged[x].name] == after[x]
    {
      if x in touched {
        var i :| 0 <= i < |touched| && touched[i] == x;
        RebindAt(touched, results, bindings, i);
        BindValuesAt(results, vals, env, i);
        assert results[i] in results;
      }
    }
  }

  // ----- statements -----

  /** Either both runs fail, or both succeed with the same memory and related bindings. */
  ghost predicate Simulates(k: Kernel, r: Outcome<(NameTable, Memory)>, x: Outcome<Finish>, ops: seq<Operation>,
          bindings: Bindings, visible: set<string>, env: Env) {
    match r
    case Failure(_) => x.Failure?
    case Success(after) =>
      && x.Success? && x.value.mem == after.1
      && Keeps(visible, env, x.value.env)
      && Related(k, bindings, after.0, x.value.env, FinallyVisible(ops, visible))
  }

  /** What every step of the proof assumes of the place where lowered code runs. */
  ghost predicate Ready(k: Kernel, b: Builder, bindings: Bindings, names: NameTable, env: Env, visible: set<string>,
          ops: seq<Operation>) {
    && Matches(k, b)
    && Related(k, bindings, names, env, visible)
    && ScopedOperations(ops, visible)
  }

  lemma {:induction false} StoreIsPlain(op: Operation, args: seq<Val>, indices: seq<Val>, ctx: Context, mem: Memory)
    requires |args| == 2 && op.attrs.decomposition.NotDecomposed?
    ensures StoreOperation(op, args, indices, ctx, mem) == StoreOperation(PLAIN_STORE, args, indices, ctx, mem)
  {
  }

  /** One store operation does what the direct store does. */
  lemma {:induction false} StoreCorrect(k: Kernel, value: string, destination: string, indices: seq<string>,
          vals: seq<Val>, bindings: Bindings, names: NameTable, env: Env, mem: Memory, visible: set<string>)
    requires Related(k, bindings, names, env, visible)
    requires value in visible && destination in visible && |indices| == |vals|
    requires forall i :: 0 <= i < |indices| ==> indices[i] in visible && env[indices[i]] == vals[i]
    ensures var ops := [StoreTo(value, destination, indices)];
            match StoreParam(k, env[destination], env[value], vals, mem)
            case Failure(_) => ExecOperations(ops, env, mem, k.ctx).Failure?
            case Success(after) => ExecOperations(ops, env, mem, k.ctx) == Success(Finish([], env, after))
    ensures FinallyVisible([StoreTo(value, destination, indices)], visible) == visible
  {
    hide StoreOperation;
    var op := StoreTo(value, destination, indices);
    var args := Lookup(op.operands, env);
    assert args.Success? && args.value == [env[value], env[destination]];
    var at := Lookup(indices, env);
    assert at.Success? && at.value == vals;
    StoreIsPlain(op, args.value, vals, k.ctx, mem);
    var after := StoreOperation(op, args.value, vals, k.ctx, mem);
    assert ExecOperation(op, env, mem, k.ctx) == if after.Success? then Success(([], after.value))
        else Failure(after.error);
    assert [op][1..] == [];
    assert visible + NameSet(op.results) == visible;
    assert BindValues(op.results, [], env) == env;
    assert FinallyVisible([op], visible) == FinallyVisible([op][1..], visible + NameSet(op.results));
  }

  /** After `prefix` has run from `env` to `reached`, the rest of the operations starts
      in a related state. */
  ghost predicate Reaches(k: Kernel, prefix: seq<Operation>, rest: seq<Operation>, bindings: Bindings, names: NameTable,
          env: Env, mem: Memory, visible: set<string>, reached: Env, wider: set<string>) {
    && wider == FinallyVisible(prefix, visible)
    && visible <= wider
    && Keeps(visible, env, reached)
    && Related(k, bindings, names, reached, wider)
    && ScopedOperations(rest, wider)
    && FinallyVisible(prefix + rest, visible) == FinallyVisible(rest, wider)
    && ExecOperations(prefix + rest, env, mem, k.ctx) == ExecOperations(rest, reached, mem, k.ctx)
  }

  lemma {:induction false} ExprThen(k: Kernel, b: Builder, e: Expr, bindings: Bindings, st: State, rest: seq<Operation>,
          names: NameTable, env: Env, mem: Memory, visible: set<string>)
    returns (reached: Env, wider: set<string>)
    requires LowerExpr(b, e, bindings, st).Success?
    requires Ready(k, b, bindings, names, env, visible, LowerExpr(b, e, bindings, st).value.ops + rest)
    ensures var lowered := LowerExpr(b, e, bindings, st).value;
            match EvalExpr(k, e, names, mem)
            case Failure(_) => ExecOperations(lowered.ops + rest, env, mem, k.ctx).Failure?
            case Success(v) =>
              && Reaches(k, lowered.ops, rest, bindings, names, env, mem, visible, reached, wider)
              && lowered.value.name in wider && reached[lowered.value.name] == v
  {
    hide LowerExpr, EvalExpr, ScopedOperations, ExecOperations;
    var lowered := LowerExpr(b, e, bindings, st).value;
    wider := FinallyVisible(lowered.ops, visible);
    reached := env;
    ExprHasNoYield(b, e, bindings, st);
    ScopedConcat(lowered.ops, rest, visible);
    ExecConcat(lowered.ops, rest, env, mem, k.ctx);
    VisibleGrows(lowered.ops, visible);
    ExprCorrect(k, b, e, bindings, st, names, env, mem, visible);
    if EvalExpr(k, e, names, mem).Success? {
      reached := ExecOperations(lowered.ops, env, mem, k.ctx).value.env;
      RelatedKept(k, bindings, names, env, visible, reached, wider);
    }
  }

  lemma {:induction false} ExprsThen(k: Kernel, b: Builder, es: seq<Expr>, bindings: Bindings, st: State,
          rest: seq<Operation>, names: NameTable, env: Env, mem: Memory, visible: set<string>)
    returns (reached: Env, wider: set<string>)
    requires LowerExprs(b, es, bindings, st).Success?
    requires Ready(k, b, bindings, names, env, visible, LowerExprs(b, es, bindings, st).value.ops + rest)
    ensures var lowered := LowerExprs(b, es, bindings, st).value;
            match EvalExprs(k, es, names, mem)
            case Failure(_) => ExecOperations(lowered.ops + rest, env, mem, k.ctx).Failure?
            case Success(vals) =>
              && Reaches(k, lowered.ops, rest, bindings, names, env, mem, visible, reached, wider)
              && |vals| == |lowered.values|
              && forall i :: 0 <= i < |vals| ==>
                  lowered.values[i].name in wider && reached[lowered.values[i].name] == vals[i]
  {
    hide LowerExprs, EvalExprs, ScopedOperations, ExecOperations;
    var lowered := LowerExprs(b, es, bindings, st).value;
    wider := FinallyVisible(lowered.ops, visible);
    reached := env;
    ExprsHaveNoYield(b, es, bindings, st);
    ScopedConcat(lowered.ops, rest, visible);
    ExecConcat(lowered.ops, rest, env, mem, k.ctx);
    VisibleGrows(lowered.ops, visible);
    ExprsCorrect(k, b, es, bindings, st, names, env, mem, visible);
    if EvalExprs(k, es, names, mem).Success? {
      reached := ExecOperations(lowered.ops, env, mem, k.ctx).value.env;
      RelatedKept(k, bindings, names, env, visible, reached, wider);
    }
  }

  /** A prefix that reaches a related state followed by a rest that simulates. */
  lemma {:induction false} ReachThenSimulate(k: Kernel, prefix: seq<Operation>, rest: seq<Operation>,
          bindings: Bindings, names: NameTable, env: Env, mem: Memory, visible: set<string>, reached: Env,
          wider: set<string>, r: Outcome<(NameTable, Memory)>, after: Bindings)
    requires Reaches(k, prefix, rest, bindings, names, env, mem, visible, reached, wider)
    requires Simulates(k, r, ExecOperations(rest, reached, mem, k.ctx), rest, after, wider, reached)
    ensures Simulates(k, r, ExecOperations(prefix + rest, env, mem, k.ctx), prefix + rest, after, visible, env)
  {
    hide ExecOperations, ScopedOperations;
  }

  lemma {:induction false} BindName(k: Kernel, bindings: Bindings, names: NameTable, env: Env, visible: set<string>,
          x: string, value: Value, v: Val)
    requires Related(k, bindings, names, env, visible) && value.name in visible && env[value.name] == v
    ensures Related(k, bindings[x := value], names[x := v], env, visible)
  {
  }

  lemma {:induction false} StoreAssignCorrect(k: Kernel, b: Builder, s: Stmt, bindings: Bindings, st: State,
          names: NameTable, env: Env, mem: Memory, visible: set<string>)
    requires s.Assign? && s.target in b.params && LowerStmt(b, s, bindings, st).Success?
    requires Ready(k, b, bindings, names, env, visible, LowerStmt(b, s, bindings, st).value.ops)
    ensures var lowered := LowerStmt(b, s, bindings, st).value;
            Simulates(k, ScopedStmt(k, s, names, mem), ExecOperations(lowered.ops, env, mem, k.ctx), lowered.ops,
                lowered.env, visible, env)
  {
    hide LowerExpr, EvalExpr, StoreOperation, ExecOperations, ScopedOperations, DeclaredType, AddOutput,
        LoopOperation, Back;
    var v := LowerExpr(b, s.value, bindings, st).value;
    var store := [StoreTo(v.value.name, s.target, [])];
    assert LowerStmt(b, s, bindings, st).value.ops == v.ops + store;
    var reached, wider := ExprThen(k, b, s.value, bindings, st, store, names, env, mem, visible);
    var value := EvalExpr(k, s.value, names, mem);
    if value.Success? {
      assert s.target in k.entry;
      StoreCorrect(k, v.value.name, s.target, [], [], bindings, names, reached, mem, wider);
      ReachThenSimulate(k, v.ops, store, bindings, names, env, mem, visible, reached, wider,
          ScopedStmt(k, s, names, mem), bindings);
    }
  }

  lemma {:induction false} AssignCorrect(k: Kernel, b: Builder, s: Stmt, bindings: Bindings, st: State,
          names: NameTable, env: Env, mem: Memory, visible: set<string>)
    requires s.Assign? && LowerStmt(b, s, bindings, st).Success?
    requires Ready(k, b, bindings, names, env, visible, LowerStmt(b, s, bindings, st).value.ops)
    ensures var lowered := LowerStmt(b, s, bindings, st).value;
            Simulates(k, ScopedStmt(k, s, names, mem), ExecOperations(lowered.ops, env, mem, k.ctx), lowered.ops,
                lowered.env, visible, env)
  {
    hide LowerExpr, EvalExpr, StoreOperation, ExecOperation, ScopedOperations, Related;
    if s.target in b.params {
      StoreAssignCorrect(k, b, s, bindings, st, names, env, mem, visible);
    } else {
      var v := LowerExpr(b, s.value, bindings, st).value;
      assert v.ops + [] == v.ops;
      var reached, wider := ExprThen(k, b, s.value, bindings, st, [], names, env, mem, visible);
      var value := EvalExpr(k, s.value, names, mem);
      if value.Success? {
        BindName(k, bindings, names, reached, wider, s.target, v.value, value.value);
      }
    }
  }

  /** The indices and the store of an indexed assignment, once its value is known. */
  lemma {:induction false} IndexedStoreCorrect(k: Kernel, b: Builder, indices: seq<Expr>, value: string,
          destination: string, bindings: Bindings, st: State, names: NameTable, env: Env, mem: Memory,
          visible: set<string>)
    requires LowerExprs(b, indices, bindings, st).Success? && value in visible && destination in visible
    requires var at := LowerExprs(b, indices, bindings, st).value;
             Ready(k, b, bindings, names, env, visible, at.ops + [StoreTo(value, destination, Ssa.Names(at.values))])
    ensures var at := LowerExprs(b, indices, bindings, st).value;
            var ops := at.ops + [StoreTo(value, destination, Ssa.Names(at.values))];
            var vals := EvalExprs(k, indices, names, mem);
            var r := if vals.Failure? then Failure(vals.error) else
                     (var after := StoreParam(k, env[destination], env[value], vals.value, mem);
                      if after.Failure? then Failure(after.error) else Success((names, after.value)));
            Simulates(k, r, ExecOperations(ops, env, mem, k.ctx), ops, bindings, visible, env)
  {
    hide LowerExprs, EvalExprs, StoreOperation, ExecOperations, ScopedOperations, FinallyVisible;
    var at := LowerExprs(b, indices, bindings, st).value;
    var store := [StoreTo(value, destination, Ssa.Names(at.values))];
    var reached, wider := ExprsThen(k, b, indices, bindings, st, store, names, env, mem, visible);
    var vals := EvalExprs(k, indices, names, mem);
    if vals.Success? {
      StoreCorrect(k, value, destination, Ssa.Names(at.values), vals.value, bindings, names, reached, mem, wider);
      var after := StoreParam(k, env[destination], env[value], vals.value, mem);
      var r := if after.Failure? then Failure(after.error) else Success((names, after.value));
      ReachThenSimulate(k, at.ops, store, bindings, names, env, mem, visible, reached, wider, r, bindings);
    }
  }

  lemma {:induction false} AssignAtCorrect(k: Kernel, b: Builder, s: Stmt, bindings: Bindings, st: State,
          names: NameTable, env: Env, mem: Memory, visible: set<string>)
    requires s.AssignAt? && LowerStmt(b, s, bindings, st).Success?
    requires Ready(k, b, bindings, names, env, visible, LowerStmt(b, s, bindings, st).value.ops)
    ensures var lowered := LowerStmt(b, s, bindings, st).value;
            Simulates(k, ScopedStmt(k, s, names, mem), ExecOperations(lowered.ops, env, mem, k.ctx), lowered.ops,
                lowered.env, visible, env)
  {
    hide LowerExpr, LowerExprs, EvalExprs, StoreOperation, ExecOperations, ScopedOperations, FinallyVisible;
    var v := LowerExpr(b, s.value, bindings, st).value;
    var destination := LowerName(b, s.target, bindings, v.st).value;
    var st1 := AddOutput(destination.1, destination.0);
    var at := LowerExprs(b, s.indices, bindings, st1).value;
    var rest := at.ops + [StoreTo(v.value.name, destination.0.name, Ssa.Names(at.values))];
    var reached, wider := ExprThen(k, b, s.value, bindings, st, rest, names, env, mem, visible);
    if EvalExpr(k, s.value, names, mem).Success? {
      TargetDenotes(k, b, s.target, bindings, v.st, names, reached, mem, wider);
      hide Related;
      IndexedStoreCorrect(k, b, s.indices, v.value.name, destination.0.name, bindings, st1, names, reached, mem, wider);
      ReachThenSimulate(k, v.ops, rest, bindings, names, env, mem, visible, reached, wider,
          ScopedStmt(k, s, names, mem), bindings);
    }
  }

  lemma {:induction false} TargetDenotes(k: Kernel, b: Builder, id: string, bindings: Bindings, st: State,
          names: NameTable, env: Env, mem: Memory, visible: set<string>)
    requires Matches(k, b) && LowerName(b, id, bindings, st).Success?
    requires Related(k, bindings, names, env, visible)
    ensures var value := LowerName(b, id, bindings, st).value.0;
            value.name in visible && value.name in env && EvalExpr(k, Name(id), names, mem) == Success(env[value.name])
  {
  }

  lemma {:induction false} AugAssignCorrect(k: Kernel, b: Builder, s: Stmt, bindings: Bindings, st: State,
          names: NameTable, env: Env, mem: Memory, visible: set<string>)
    requires s.AugAssign? && LowerStmt(b, s, bindings, st).Success?
    requires Ready(k, b, bindings, names, env, visible, LowerStmt(b, s, bindings, st).value.ops)
    ensures var lowered := LowerStmt(b, s, bindings, st).value;
            Simulates(k, ScopedStmt(k, s, names, mem), ExecOperations(lowered.ops, env, mem, k.ctx), lowered.ops,
                lowered.env, visible, env)
  {
    hide LowerExpr, EvalExpr, Primitive, ExecOperations, ScopedOperations, FinallyVisible;
    var v := LowerExpr(b, s.value, bindings, st).value;
    var current := bindings[s.target];
    var operands := [current.name, v.value.name];
    var last := Emit(Binary(s.op), operands, current.typ, v.st);
    var reached, wider := ExprThen(k, b, s.value, bindings, st, last.ops, names, env, mem, visible);
    var value := EvalExpr(k, s.value, names, mem);
    if value.Success? {
      var args := [names[s.target], value.value];
      EmittedComputes(Binary(s.op), operands, args, current.typ, v.st, reached, mem, k.ctx, wider);
      OpcodeComputes(BinaryOperator(s.op), args, k.ctx, mem);
      VisibleGrows(last.ops, wider);
      if Primitive(Binary(s.op), args, k.ctx, mem).Success? {
        var after := ExecOperations(last.ops, reached, mem, k.ctx).value.env;
        RelatedKept(k, bindings, names, reached, wider, after, FinallyVisible(last.ops, wider));
        BindName(k, bindings, names, after, FinallyVisible(last.ops, wider), s.target, last.value,
            Primitive(Binary(s.op), args, k.ctx, mem).value);
      }
      ReachThenSimulate(k, v.ops, last.ops, bindings, names, env, mem, visible, reached, wider,
          ScopedStmt(k, s, names, mem), bindings[s.target := last.value]);
    }
  }

  // ----- regions -----

  ghost function ValuesOf(touched: seq<string>, names: NameTable): seq<Val>
    requires forall x :: x in touched ==> x in names
  {
    seq(|touched|, i requires 0 <= i < |touched| => names[touched[i]])
  }

  lemma {:induction false} YieldDelivers(k: Kernel, touched: seq<string>, bindings: Bindings, names: NameTable,
          env: Env, mem: Memory, visible: set<string>)
    requires Related(k, bindings, names, env, visible)
    requires forall x :: x in touched ==> x in bindings
    ensures ExecOperations([YieldOf(touched, bindings)], env, mem, k.ctx) ==
        Success(Finish(ValuesOf(touched, names), env, mem))
  {
    var op := YieldOf(touched, bindings);
    forall name | name in op.operands
      ensures name in env
    {
      var i :| 0 <= i < |op.operands| && op.operands[i] == name;
      assert touched[i] in touched;
    }
    var found := Lookup(op.operands, env);
    forall i | 0 <= i < |touched|
      ensures found.value[i] == ValuesOf(touched, names)[i]
    {
      assert touched[i] in touched;
    }
    assert found.value == ValuesOf(touched, names);
  }

  /** A region that yields the touched names delivers their values after the statements. */
  lemma {:induction false} RegionCorrect(k: Kernel, b: Builder, stmts: seq<Stmt>, touched: seq<string>,
          bindings: Bindings, st: State, names: NameTable, env: Env, mem: Memory, visible: set<string>)
    requires LowerStmts(b, stmts, bindings, st).Success? && forall x :: x in touched ==> x in bindings
    requires Ready(k, b, bindings, names, env, visible,
        LowerStmts(b, stmts, bindings, st).value.ops + [YieldOf(touched, LowerStmts(b, stmts, bindings, st).value.env)])
    ensures var inner := LowerStmts(b, stmts, bindings, st).value;
            var x := ExecOperations(inner.ops + [YieldOf(touched, inner.env)], env, mem, k.ctx);
            match ScopedStmts(k, stmts, names, mem)
            case Failure(_) => x.Failure?
            case Success(after) =>
              && (forall t :: t in touched ==> t in after.0)
              && x.Success? && x.value.mem == after.1 && x.value.yielded == ValuesOf(touched, after.0)
    decreases stmts, 1
  {
    hide LowerStmts, ScopedStmts, ScopedOperations, ExecOperations;
    var inner := LowerStmts(b, stmts, bindings, st).value;
    var last := [YieldOf(touched, inner.env)];
    LoweredAllHaveNoYield(k, b, stmts, bindings, st);
    ScopedConcat(inner.ops, last, visible);
    ExecConcat(inner.ops, last, env, mem, k.ctx);
    StmtsCorrect(k, b, stmts, bindings, st, names, env, mem, visible);
    var after := ScopedStmts(k, stmts, names, mem);
    if after.Success? {
      var done := ExecOperations(inner.ops, env, mem, k.ctx).value;
      YieldDelivers(k, touched, inner.env, after.value.0, done.env, done.mem, FinallyVisible(inner.ops, visible));
    }
  }

  /** Between iterations: the carried values are the carried names, the other names
      are as before the loop. */
  ghost predicate LoopState(bindings: Bindings, carried: seq<string>, before: NameTable, names: NameTable,
          vals: seq<Val>) {
    && |vals| == |carried| && names.Keys == bindings.Keys
    && (forall i :: 0 <= i < |carried| ==> carried[i] in names && names[carried[i]] == vals[i])
    && (forall x :: x in bindings && x !in carried ==> x in names && x in before && names[x] == before[x])
  }

  /** A loop and what its body was lowered to. */
  ghost predicate LoopSetup(k: Kernel, b: Builder, target: string, body: seq<Stmt>, carried: seq<string>,
          bindings: Bindings, st: State, inner: Lowered, region: Block) {
    && Matches(k, b)
    && carried == Carried(AssignedNames(body), bindings)
    && LowerStmts(b, body, LoopBindings(target, carried, bindings), st) == Success(inner)
    && (forall name :: name in carried ==> name in inner.env)
    && region == LoopRegion(target, carried, bindings, inner)
  }

  /** The induction value is bound to its argument. */
  lemma {:induction false} InductionBinds(k: Kernel, bindings: Bindings, before: NameTable, env: Env,
          visible: set<string>, args: seq<Value>, i: int)
    requires Related(k, bindings, before, env, visible) && args != [] && NameSet(args) !! visible && DistinctNames(args)
    ensures var local := env[args[0].name := Num(i)];
            && Related(k, bindings, before, local, visible + {args[0].name}) && DistinctNames(args[1..])
            && NameSet(args[1..]) !! visible + {args[0].name}
            && visible + {args[0].name} + NameSet(args[1..]) == visible + NameSet(args)
  {
    var rest := args[1..];
    assert args[0] in args && args[0].name in NameSet(args) && args == [args[0]] + rest;
    RelatedKept(k, bindings, before, env, visible, env[args[0].name := Num(i)], visible + {args[0].name});
    forall m, n | 0 <= m < n < |rest|
      ensures rest[m].name != rest[n].name
    {
      assert rest[m] == args[m + 1] && rest[n] == args[n + 1];
    }
    forall v | v in rest
      ensures v.name != args[0].name && v in args
    {
      var n :| 0 <= n < |rest| && rest[n] == v;
      assert args[n + 1] == v;
    }
  }

  /** Entering an iteration: the induction value and the carried values are bound. A target
      that is carried denotes its carried value. */
  lemma {:induction false} IterationStarts(k: Kernel, target: string, body: seq<Stmt>, carried: seq<string>,
          args: seq<Value>, bindings: Bindings, before: NameTable, names: NameTable, env: Env, visible: set<string>,
          vals: seq<Val>, i: int)
    requires Related(k, bindings, before, env, visible)
    requires LoopState(bindings, carried, before, names, vals)
    requires Distinct(carried) && carried == Carried(AssignedNames(body), bindings)
    requires args == [Value("%" + target, INDEX)] + LoopArguments(carried, bindings)
    requires DistinctNames(args) && NameSet(args) !! visible
    ensures Related(k, LoopBindings(target, carried, bindings), Entered(target, body, names, i),
        BindValues(args, [Num(i)] + vals, env), visible + NameSet(args))
  {
    hide Related, LoopState, Distinct, DistinctNames, NameSet, AssignedNames, Carried;
    var rest, inside, wider := args[1..], env[args[0].name := Num(i)], visible + {args[0].name};
    InductionBinds(k, bindings, before, env, visible, args, i);
    assert rest == LoopArguments(carried, bindings) && ([Num(i)] + vals)[1..] == vals;
    assert BindValues(args, [Num(i)] + vals, env) == BindValues(rest, vals, inside);
    hide BindValues;
    if target in carried {
      TargetCarried(k, target, body, carried, rest, args[0], bindings, before, names, inside, wider, vals, i);
    } else {
      TargetFresh(k, target, body, carried, rest, args[0], bindings, before, names, inside, wider, vals, i);
    }
  }

  lemma {:induction false} TargetCarried(k: Kernel, target: string, body: seq<Stmt>, carried: seq<string>,
          rest: seq<Value>, induction: Value, bindings: Bindings, before: NameTable, names: NameTable, env: Env,
          visible: set<string>, vals: seq<Val>, i: int)
    requires Related(k, bindings, before, env, visible) && LoopState(bindings, carried, before, names, vals)
    requires Distinct(carried) && carried == Carried(AssignedNames(body), bindings) && target in carried
    requires rest == LoopArguments(carried, bindings) && induction == Value("%" + target, INDEX) && DistinctNames(rest)
    requires NameSet(rest) !! visible
    ensures Related(k, LoopBindings(target, carried, bindings), Entered(target, body, names, i),
        BindValues(rest, vals, env), visible + NameSet(rest))
  {
    assert Entered(target, body, names, i) == names;
    assert names.Keys == bindings.Keys + Elements(carried);
    hide Related, BindValues, Distinct, DistinctNames, NameSet, AssignedNames;
    RebindOver(carried, rest, bindings, target, induction);
    Merge(k, carried, rest, vals, bindings, before, names, env, visible);
  }

  lemma {:induction false} TargetFresh(k: Kernel, target: string, body: seq<Stmt>, carried: seq<string>,
          rest: seq<Value>, induction: Value, bindings: Bindings, before: NameTable, names: NameTable, env: Env,
          visible: set<string>, vals: seq<Val>, i: int)
    requires Related(k, bindings, before, env, visible) && LoopState(bindings, carried, before, names, vals)
    requires Distinct(carried) && carried == Carried(AssignedNames(body), bindings) && target !in carried
    requires rest == LoopArguments(carried, bindings) && induction == Value("%" + target, INDEX) && DistinctNames(rest)
    requires NameSet(rest) !! visible
    requires induction.name in visible && env[induction.name] == Num(i)
    ensures Related(k, LoopBindings(target, carried, bindings), Entered(target, body, names, i),
        BindValues(rest, vals, env), visible + NameSet(rest))
  {
    var entered := names[target := Num(i)];
    assert Entered(target, body, names, i) == entered;
    assert entered.Keys == bindings[target := induction].Keys + Elements(carried);
    BindName(k, bindings, before, env, visible, target, induction, Num(i));
    hide Related, BindValues, Distinct, DistinctNames, NameSet, AssignedNames;
    Merge(k, carried, rest, vals, bindings[target := induction], before[target := Num(i)], entered, env, visible);
  }

  /** A name that is rebound may have been bound to anything. */
  lemma {:induction false} RebindOver(names: seq<string>, values: seq<Value>, env: Bindings, x: string, v: Value)
    requires |names| == |values| && x in names
    ensures Rebind(names, values, env[x := v]) == Rebind(names, values, env)
    decreases |names|
  {
    if names[0] == x {
      assert env[x := v][names[0] := values[0]] == env[names[0] := values[0]];
    } else {
      assert env[x := v][names[0] := values[0]] == env[names[0] := values[0]][x := v];
      assert names == [names[0]] + names[1..];
      RebindOver(names[1..], values[1..], env[names[0] := values[0]], x, v);
    }
  }

  lemma {:induction false} IterationEnds(body: seq<Stmt>, carried: seq<string>, bindings: Bindings, before: NameTable,
          names: NameTable, after: NameTable, vals: seq<Val>)
    requires carried == Carried(AssignedNames(body), bindings)
    requires LoopState(bindings, carried, before, names, vals)
    requires forall x :: x in carried ==> x in after
    ensures LoopState(bindings, carried, before, Back(names, after, AssignedNames(body)), ValuesOf(carried, after))
  {
    hide AssignedNames;
    forall i | 0 <= i < |carried|
      ensures carried[i] in names && carried[i] in AssignedNames(body)
    {
      assert carried[i] in carried;
    }
  }

  /** One iteration of both loops. */
  lemma {:induction false} IterationCorrect(k: Kernel, b: Builder, target: string, body: seq<Stmt>,
          carried: seq<string>, bindings: Bindings, st: State, inner: Lowered, region: Block, before: NameTable,
          names: NameTable, env: Env, mem: Memory, visible: set<string>, vals: seq<Val>, i: int)
    requires LoopSetup(k, b, target, body, carried, bindings, st, inner, region)
    requires Related(k, bindings, before, env, visible) && LoopState(bindings, carried, before, names, vals)
    requires ScopedBlock(region, visible)
    ensures var x := ExecOperations(region.operations, BindValues(region.args, [Num(i)] + vals, env), mem, k.ctx);
            match ScopedStmts(k, body, Entered(target, body, names, i), mem)
            case Failure(_) => x.Failure?
            case Success(after) =>
              x.Success? && x.value.mem == after.1
              && LoopState(bindings, carried, before, Back(names, after.0, AssignedNames(body)), x.value.yielded)
    decreases body, 2
  {
    hide ScopedStmts, LowerStmts, ScopedOperations, ExecOperations, Related, BindValues, LoopState;
    CarriedMeans(body, bindings);
    hide TouchesAll, AssignedNames;
    var entered := Entered(target, body, names, i);
    IterationStarts(k, target, body, carried, region.args, bindings, before, names, env, visible, vals, i);
    var local := BindValues(region.args, [Num(i)] + vals, env);
    RegionCorrect(k, b, body, carried, LoopBindings(target, carried, bindings), st, entered, local, mem,
        visible + NameSet(region.args));
    var next := ScopedStmts(k, body, entered, mem);
    if next.Success? {
      IterationEnds(body, carried, bindings, before, names, next.value.0, vals);
    }
  }

  lemma {:induction false} LoopCorrect(k: Kernel, b: Builder, target: string, body: seq<Stmt>, carried: seq<string>,
          bindings: Bindings, st: State, inner: Lowered, region: Block, before: NameTable, names: NameTable, env: Env,
          mem: Memory, visible: set<string>, vals: seq<Val>, i: int, step: int, count: nat)
    requires LoopSetup(k, b, target, body, carried, bindings, st, inner, region)
    requires Related(k, bindings, before, env, visible) && LoopState(bindings, carried, before, names, vals)
    requires ScopedBlock(region, visible)
    ensures var x := ExecLoop(region, env, mem, k.ctx, vals, i, step, count);
            match ScopedLoop(k, target, body, names, mem, i, step, count)
            case Failure(_) => x.Failure?
            case Success(after) =>
              x.Success? && x.value.1 == after.1
              && LoopState(bindings, carried, before, after.0, x.value.0)
    decreases body, 3, count
  {
    hide LoopSetup, ScopedStmts, ScopedBlock, ExecOperations, Related, BindValues, LoopState;
    if count > 0 {
      IterationCorrect(k, b, target, body, carried, bindings, st, inner, region, before, names, env, mem, visible, vals,
          i);
      var next := ScopedStmts(k, body, Entered(target, body, names, i), mem);
      if next.Success? {
        var done := ExecOperations(region.operations, BindValues(region.args, [Num(i)] + vals, env), mem, k.ctx).value;
        LoopCorrect(k, b, target, body, carried, bindings, st, inner, region, before,
            Back(names, next.value.0, AssignedNames(body)), env, next.value.1, visible, done.yielded, i + step, step,
            count - 1);
      }
    }
  }

  lemma {:induction false} StmtsCorrect(k: Kernel, b: Builder, stmts: seq<Stmt>, bindings: Bindings, st: State,
          names: NameTable, env: Env, mem: Memory, visible: set<string>)
    requires LowerStmts(b, stmts, bindings, st).Success?
    requires Ready(k, b, bindings, names, env, visible, LowerStmts(b, stmts, bindings, st).value.ops)
    ensures var lowered := LowerStmts(b, stmts, bindings, st).value;
            Simulates(k, ScopedStmts(k, stmts, names, mem), ExecOperations(lowered.ops, env, mem, k.ctx), lowered.ops,
                lowered.env, visible, env)
    decreases stmts, 0
  {
    hide LowerStmt, ScopedStmt, ExecOperation, ScopedOperation, NameSet;
    if stmts != [] {
      var first := LowerStmt(b, stmts[0], bindings, st).value;
      var rest := LowerStmts(b, stmts[1..], first.env, first.st).value;
      LoweredBinds(k, b, stmts[0], bindings, st);
      ScopedConcat(first.ops, rest.ops, visible);
      ExecConcat(first.ops, rest.ops, env, mem, k.ctx);
      VisibleGrows(first.ops, visible);
      hide ExecOperations, ScopedOperations;
      StmtCorrect(k, b, stmts[0], bindings, st, names, env, mem, visible);
      var next := ScopedStmt(k, stmts[0], names, mem);
      if next.Success? {
        var done := ExecOperations(first.ops, env, mem, k.ctx).value;
        var middle := FinallyVisible(first.ops, visible);
        StmtsCorrect(k, b, stmts[1..], first.env, first.st, next.value.0, done.env, next.value.1, middle);
      }
    }
  }

  lemma {:induction false} StmtCorrect(k: Kernel, b: Builder, s: Stmt, bindings: Bindings, st: State, names: NameTable,
          env: Env, mem: Memory, visible: set<string>)
    requires LowerStmt(b, s, bindings, st).Success?
    requires Ready(k, b, bindings, names, env, visible, LowerStmt(b, s, bindings, st).value.ops)
    ensures var lowered := LowerStmt(b, s, bindings, st).value;
            Simulates(k, ScopedStmt(k, s, names, mem), ExecOperations(lowered.ops, env, mem, k.ctx), lowered.ops,
                lowered.env, visible, env)
    decreases s, 3
  {
    hide LowerExpr;
    match s {
      case Assign(_, _) => AssignCorrect(k, b, s, bindings, st, names, env, mem, visible);
      case AssignAt(_, _, _) => AssignAtCorrect(k, b, s, bindings, st, names, env, mem, visible);
      case AugAssign(_, _, _) => AugAssignCorrect(k, b, s, bindings, st, names, env, mem, visible);
      case ForRange(_, _, _, _) => ForCorrect(k, b, s, bindings, st, names, env, mem, visible);
      case IfElse(_, _, _) => IfCorrect(k, b, s, bindings, st, names, env, mem, visible);
      case Evaluate(value) => EvaluateCorrect(k, b, s, bindings, st, names, env, mem, visible);
      case Pass =>
    }
  }

  lemma {:induction false} EvaluateCorrect(k: Kernel, b: Builder, s: Stmt, bindings: Bindings, st: State,
          names: NameTable, env: Env, mem: Memory, visible: set<string>)
    requires s.Evaluate? && LowerStmt(b, s, bindings, st).Success?
    requires Ready(k, b, bindings, names, env, visible, LowerStmt(b, s, bindings, st).value.ops)
    ensures var lowered := LowerStmt(b, s, bindings, st).value;
            Simulates(k, ScopedStmt(k, s, names, mem), ExecOperations(lowered.ops, env, mem, k.ctx), lowered.ops,
                lowered.env, visible, env)
  {
    hide LowerExpr, EvalExpr, ScopedOperations;
    var v := LowerExpr(b, s.value, bindings, st).value;
    assert v.ops + [] == v.ops;
    var reached, wider := ExprThen(k, b, s.value, bindings, st, [], names, env, mem, visible);
  }

  lemma {:induction false} LoweredFor(b: Builder, s: Stmt, bindings: Bindings, st: State)
    returns (limits: LoweredExprs, carried: seq<string>, inner: Lowered, results: seq<Value>)
    requires s.ForRange? && LowerStmt(b, s, bindings, st).Success?
    ensures RangeBounds(s.bounds).Some?
    ensures var r := RangeBounds(s.bounds).value; LowerExprs(b, [r.0, r.1, r.2], bindings, st) == Success(limits)
    ensures carried == Carried(AssignedNames(s.body), bindings) && |results| == |carried|
    ensures forall name :: name in carried ==> name in bindings && name in inner.env
    ensures LowerStmts(b, s.body, LoopBindings(s.target, carried, bindings), limits.st) == Success(inner)
    ensures LowerStmt(b, s, bindings, st).value.ops == limits.ops
        + [LoopOperation(s.target, carried, bindings, limits.values, inner, results)]
    ensures LowerStmt(b, s, bindings, st).value.env == Rebind(carried, results, bindings)
  {
    hide LowerExprs, LowerStmts;
    var r := RangeBounds(s.bounds).value;
    limits := LowerExprs(b, [r.0, r.1, r.2], bindings, st).value;
    carried := Carried(AssignedNames(s.body), bindings);
    inner := LowerStmts(b, s.body, LoopBindings(s.target, carried, bindings), limits.st).value;
    results := Temps(inner.st, carried, bindings).0;
    assert LowerStmt(b, s, bindings, st).value.ops == limits.ops
        + [LoopOperation(s.target, carried, bindings, limits.values, inner, results)];
  }

  /** The operands of the loop operation hold the three bounds and the carried names. */
  lemma {:induction false} LoopOperands(k: Kernel, target: string, carried: seq<string>, bindings: Bindings,
          limits: seq<Value>, inner: Lowered, results: seq<Value>, bounds: seq<Val>, names: NameTable, env: Env,
          visible: set<string>)
    requires Related(k, bindings, names, env, visible)
    requires forall name :: name in carried ==> name in bindings && name in inner.env
    requires |limits| == |bounds| == 3
    requires forall i :: 0 <= i < 3 ==> limits[i].name in visible && env[limits[i].name] == bounds[i]
    ensures var args := Lookup(LoopOperation(target, carried, bindings, limits, inner, results).operands, env);
            args.Success? && |args.value| >= 3 && args.value[0] == bounds[0] && args.value[1] == bounds[1]
                && args.value[2] == bounds[2]
            && args.value[3..] == ValuesOf(carried, names)
  {
    var operands := LoopOperation(target, carried, bindings, limits, inner, results).operands;
    forall i | 0 <= i < |operands|
      ensures operands[i] in env
      ensures env[operands[i]] == if i < 3 then bounds[i] else ValuesOf(carried, names)[i - 3]
    {
      if i >= 3 {
        assert carried[i - 3] in carried;
      }
    }
    var args := Lookup(operands, env).value;
    assert args[3..] == ValuesOf(carried, names);
  }

  lemma {:induction false} SingleScoped(op: Operation, visible: set<string>)
    requires ScopedOperations([op], visible)
    ensures ScopedOperation(op, visible)
  {
  }

  lemma {:induction false} ResultsPass(op: Operation, vals: seq<Val>)
    requires |vals| == |op.results|
    ensures RegionResults(op, vals) == Success(vals)
  {
    if |vals| == 1 {
      assert vals == [vals[0]];
    }
  }

  lemma {:induction false} ForCorrect(k: Kernel, b: Builder, s: Stmt, bindings: Bindings, st: State, names: NameTable,
          env: Env, mem: Memory, visible: set<string>)
    requires s.ForRange? && LowerStmt(b, s, bindings, st).Success?
    requires Ready(k, b, bindings, names, env, visible, LowerStmt(b, s, bindings, st).value.ops)
    ensures var lowered := LowerStmt(b, s, bindings, st).value;
            Simulates(k, ScopedStmt(k, s, names, mem), ExecOperations(lowered.ops, env, mem, k.ctx), lowered.ops,
                lowered.env, visible, env)
    decreases s, 0
  {
    hide LowerStmt, LowerStmts, LowerExprs, EvalExprs, ExecOperations, ScopedOperations, RangeBounds, FinallyVisible,
        RunStmt;
    var limits, carried, inner, results := LoweredFor(b, s, bindings, st);
    var loop := LoopOperation(s.target, carried, bindings, limits.values, inner, results);
    var r := RangeBounds(s.bounds).value;
    var bounds := [r.0, r.1, r.2];
    var reached, wider := ExprsThen(k, b, bounds, bindings, st, [loop], names, env, mem, visible);
    var vals := EvalExprs(k, bounds, names, mem);
    BoundsMean(k, s.bounds, names, mem);
    if vals.Success? {
      var region := LoopRegion(s.target, carried, bindings, inner);
      assert LoopSetup(k, b, s.target, s.body, carried, bindings, limits.st, inner, region);
      SingleScoped(loop, wider);
      LoopSimulates(k, b, s, bindings, limits, carried, inner, region, loop, vals.value, names, reached, mem, wider);
      ReachThenSimulate(k, limits.ops, [loop], bindings, names, env, mem, visible, reached, wider,
          ScopedStmt(k, s, names, mem), Rebind(carried, results, bindings));
    }
  }

  /** The three lowered operands of a `range(...)` are its start, stop and step. */
  lemma {:induction false} BoundsMean(k: Kernel, bounds: seq<Expr>, names: NameTable, mem: Memory)
    ensures RangeBounds(bounds).None? ==> RangeOf(k, bounds, names, mem).Failure?
    ensures RangeBounds(bounds).Some? ==>
        var r := RangeBounds(bounds).value;
        var vals := EvalExprs(k, [r.0, r.1, r.2], names, mem);
        if vals.Failure? then RangeOf(k, bounds, names, mem).Failure? else BoundsAre(k, bounds, names, mem, vals.value)
  {
    hide ScalarOf, EvalExpr, EvalExprs, Scalars;
    if RangeBounds(bounds).Some? {
      var r := RangeBounds(bounds).value;
      EvalThree(k, r.0, r.1, r.2, names, mem);
      LiteralsMean(k, names, mem);
      if |bounds| == 1 {
        assert bounds == [bounds[0]];
        EvalOne(k, bounds[0], names, mem);
      } else if |bounds| == 2 {
        assert bounds == [bounds[0], bounds[1]];
        EvalTwo(k, bounds[0], bounds[1], names, mem);
      } else {
        assert bounds == [bounds[0], bounds[1], bounds[2]];
      }
      var vals := EvalExprs(k, bounds, names, mem);
      if vals.Success? {
        ScalarsMean(vals.value, k.ctx, mem);
      }
    }
  }

  lemma {:induction false} LiteralsMean(k: Kernel, names: NameTable, mem: Memory)
    ensures EvalExpr(k, Literal(0), names, mem) == Success(Num(0)) && ScalarOf(Num(0), k.ctx, mem) == Success(0)
    ensures EvalExpr(k, Literal(1), names, mem) == Success(Num(1)) && ScalarOf(Num(1), k.ctx, mem) == Success(1)
  {
  }

  lemma {:induction false} EvalOne(k: Kernel, x: Expr, names: NameTable, mem: Memory)
    ensures
      var r, a := EvalExprs(k, [x], names, mem), EvalExpr(k, x, names, mem);
      if a.Failure? then r.Failure? else r == Success([a.value])
  {
    hide EvalExpr;
    var es, a := [x], EvalExpr(k, x, names, mem);
    assert es[0] == x && es[1..] == [] && EvalExprs(k, es[1..], names, mem) == Success([]);
    if a.Success? {
      assert [a.value] + [] == [a.value];
    }
  }

  lemma {:induction false} EvalTwo(k: Kernel, x: Expr, y: Expr, names: NameTable, mem: Memory)
    ensures
      var r, a, b := EvalExprs(k, [x, y], names, mem), EvalExpr(k, x, names, mem), EvalExpr(k, y, names, mem);
      if a.Failure? || b.Failure? then r.Failure? else r == Success([a.value, b.value])
  {
    hide EvalExpr;
    EvalOne(k, y, names, mem);
    var es, a, b := [x, y], EvalExpr(k, x, names, mem), EvalExpr(k, y, names, mem);
    assert es[0] == x && es[1..] == [y];
    if a.Success? && b.Success? {
      assert [a.value] + [b.value] == [a.value, b.value];
    }
  }

  lemma {:induction false} EvalThree(k: Kernel, x: Expr, y: Expr, z: Expr, names: NameTable, mem: Memory)
    ensures
      var r := EvalExprs(k, [x, y, z], names, mem);
      var a, b, c := EvalExpr(k, x, names, mem), EvalExpr(k, y, names, mem), EvalExpr(k, z, names, mem);
      if a.Failure? || b.Failure? || c.Failure? then r.Failure? else r == Success([a.value, b.value, c.value])
  {
    hide EvalExpr;
    EvalTwo(k, y, z, names, mem);
    var es, a, b, c := [x, y, z], EvalExpr(k, x, names, mem), EvalExpr(k, y, names, mem), EvalExpr(k, z, names, mem);
    assert es[0] == x && es[1..] == [y, z];
    if a.Success? && b.Success? && c.Success? {
      assert [a.value] + [b.value, c.value] == [a.value, b.value, c.value];
    }
  }

  lemma {:induction false} ScalarsMean(vals: seq<Val>, ctx: Context, mem: Memory)
    ensures
      var r := Scalars(vals, ctx, mem);
      if r.Success? then
        |r.value| == |vals| && forall i :: 0 <= i < |vals| ==> ScalarOf(vals[i], ctx, mem) == Success(r.value[i])
      else exists i :: 0 <= i < |vals| && ScalarOf(vals[i], ctx, mem).Failure?
  {
    hide ScalarOf;
    if vals != [] {
      ScalarsMean(vals[1..], ctx, mem);
      var rest := Scalars(vals[1..], ctx, mem);
      if ScalarOf(vals[0], ctx, mem).Success? && rest.Failure? {
        var i :| 0 <= i < |vals[1..]| && ScalarOf(vals[1..][i], ctx, mem).Failure?;
        assert ScalarOf(vals[i + 1], ctx, mem).Failure?;
      }
    }
  }

  ghost predicate BoundsAre(k: Kernel, bounds: seq<Expr>, names: NameTable, mem: Memory, vals: seq<Val>)
    requires |vals| == 3
  {
    var start, stop, step := ScalarOf(vals[0], k.ctx, mem), ScalarOf(vals[1], k.ctx, mem),
        ScalarOf(vals[2], k.ctx, mem);
    var range := RangeOf(k, bounds, names, mem);
    if start.Success? && stop.Success? && step.Success? && step.value != 0
    then range == Success((start.value, stop.value, step.value))
    else range.Failure?
  }

  /** Both loops, once their bounds are known. */
  lemma {:induction false} LoopBounds(k: Kernel, s: Stmt, loop: Operation, region: Block, args: seq<Val>,
          names: NameTable, env: Env, mem: Memory)
    requires s.ForRange? && RangeBounds(s.bounds).Some?
    requires loop.opcode.For? && loop.regions == [region] && |args| >= 3 && Lookup(loop.operands, env) == Success(args)
    requires var r := RangeBounds(s.bounds).value; EvalExprs(k, [r.0, r.1, r.2], names, mem) == Success(args[..3])
    ensures
      var start, stop, step := ScalarOf(args[0], k.ctx, mem), ScalarOf(args[1], k.ctx, mem),
          ScalarOf(args[2], k.ctx, mem);
      if start.Success? && stop.Success? && step.Success? && step.value != 0 then
        var count := RangeLength(start.value, stop.value, step.value);
        var x := ExecLoop(region, env, mem, k.ctx, args[3..], start.value, step.value, count);
        && ScopedStmt(k, s, names, mem) ==
            ScopedLoop(k, s.target, s.body, names, mem, start.value, step.value, count)
        && (x.Failure? ==> ExecOperation(loop, env, mem, k.ctx).Failure?)
        && (x.Success? && |x.value.0| == |loop.results| ==> ExecOperation(loop, env, mem, k.ctx) == x)
      else ScopedStmt(k, s, names, mem).Failure? && ExecOperation(loop, env, mem, k.ctx).Failure?
  {
    hide EvalExprs, ExecLoop, ScopedLoop, ScopedStmts, Lookup, ScalarOf, RangeLength, RunStmt, Masked, RangeOf;
    BoundsMean(k, s.bounds, names, mem);
    assert BoundsAre(k, s.bounds, names, mem, args[..3]);
    var start, stop, step := ScalarOf(args[0], k.ctx, mem), ScalarOf(args[1], k.ctx, mem),
        ScalarOf(args[2], k.ctx, mem);
    if start.Success? && stop.Success? && step.Success? && step.value != 0 {
      var count := RangeLength(start.value, stop.value, step.value);
      var x := ExecLoop(region, env, mem, k.ctx, args[3..], start.value, step.value, count);
      if x.Success? && |x.value.0| == |loop.results| {
        ResultsPass(loop, x.value.0);
      }
    }
  }

  lemma {:induction false} LoopSimulates(k: Kernel, b: Builder, s: Stmt, bindings: Bindings, limits: LoweredExprs,
          carried: seq<string>, inner: Lowered, region: Block, loop: Operation, vals: seq<Val>, names: NameTable,
          env: Env, mem: Memory, visible: set<string>)
    requires s.ForRange? && RangeBounds(s.bounds).Some?
    requires LoopSetup(k, b, s.target, s.body, carried, bindings, limits.st, inner, region)
    requires |loop.results| == |carried|
    requires loop == LoopOperation(s.target, carried, bindings, limits.values, inner, loop.results)
    requires Related(k, bindings, names, env, visible) && ScopedOperation(loop, visible)
    requires |vals| == |limits.values| == 3
    requires forall i :: 0 <= i < 3 ==> limits.values[i].name in visible && env[limits.values[i].name] == vals[i]
    requires var r := RangeBounds(s.bounds).value; EvalExprs(k, [r.0, r.1, r.2], names, mem) == Success(vals)
    ensures Simulates(k, ScopedStmt(k, s, names, mem), ExecOperations([loop], env, mem, k.ctx), [loop],
        Rebind(carried, loop.results, bindings), visible, env)
    decreases s.body, 4
  {
    hide LowerStmts, EvalExprs, ScopedStmt, ExecOperation, ExecOperations, ScopedLoop, ExecLoop, TouchesAll,
        AssignedNames, LoopBindings, FinallyVisible, RangeBounds, ScopedBlock, NameSet;
    assert ScopedBlock(region, visible);
    ExecSingle(loop, env, mem, k.ctx, visible);
    LoopOperands(k, s.target, carried, bindings, limits.values, inner, loop.results, vals, names, env, visible);
    var args := Lookup(loop.operands, env).value;
    assert args[..3] == vals;
    LoopBounds(k, s, loop, region, args, names, env, mem);
    CarriedMeans(s.body, bindings);
    var start, stop, step := ScalarOf(vals[0], k.ctx, mem), ScalarOf(vals[1], k.ctx, mem),
        ScalarOf(vals[2], k.ctx, mem);
    if start.Success? && stop.Success? && step.Success? && step.value != 0 {
      LoopFinishes(k, b, s, bindings, limits, carried, inner, region, loop, names, env, mem, visible, start.value,
          step.value, RangeLength(start.value, stop.value, step.value));
    }
  }

  lemma {:induction false} LoopStarts(k: Kernel, bindings: Bindings, carried: seq<string>, names: NameTable, env: Env,
          visible: set<string>)
    requires Related(k, bindings, names, env, visible) && forall x :: x in carried ==> x in bindings
    ensures (forall x :: x in carried ==> x in names)
    ensures LoopState(bindings, carried, names, names, ValuesOf(carried, names))
  {
  }

  lemma {:induction false} LoopFinishes(k: Kernel, b: Builder, s: Stmt, bindings: Bindings, limits: LoweredExprs,
          carried: seq<string>, inner: Lowered, region: Block, loop: Operation, names: NameTable, env: Env, mem: Memory,
          visible: set<string>, start: int, step: int, count: nat)
    requires s.ForRange? && Distinct(carried) && (forall x :: x in carried ==> x in bindings)
    requires LoopSetup(k, b, s.target, s.body, carried, bindings, limits.st, inner, region)
    requires ScopedBlock(region, visible)
    requires |loop.results| == |carried| && DistinctNames(loop.results) && NameSet(loop.results) !! visible
    requires Related(k, bindings, names, env, visible)
    requires forall x :: x in carried ==> x in names
    ensures var x := ExecLoop(region, env, mem, k.ctx, ValuesOf(carried, names), start, step, count);
            match ScopedLoop(k, s.target, s.body, names, mem, start, step, count)
            case Failure(_) => x.Failure?
            case Success(after) =>
              && x.Success? && x.value.1 == after.1 && |x.value.0| == |loop.results|
              && Keeps(visible, env, BindValues(loop.results, x.value.0, env))
              && Related(k, Rebind(carried, loop.results, bindings), after.0, BindValues(loop.results, x.value.0, env),
                  visible + NameSet(loop.results))
    decreases s.body, 3, count + 1
  {
    hide ScopedLoop, ExecLoop, LoopSetup, ScopedBlock, Related, BindValues, Rebind;
    LoopStarts(k, bindings, carried, names, env, visible);
    var initial := ValuesOf(carried, names);
    LoopCorrect(k, b, s.target, s.body, carried, bindings, limits.st, inner, region, names, names, env, mem, visible,
        initial, start, step, count);
    var x := ExecLoop(region, env, mem, k.ctx, initial, start, step, count);
    var after := ScopedLoop(k, s.target, s.body, names, mem, start, step, count);
    if after.Success? {
      Merge(k, carried, loop.results, x.value.0, bindings, names, after.value.0, env, visible);
    }
  }

  lemma {:induction false} EmptyRun(k: Kernel, names: NameTable, mem: Memory)
    ensures ScopedStmts(k, [], names, mem) == Success((names, mem))
  {
  }

  // ----- branches -----

  lemma {:induction false} RelatedRenamed(k: Kernel, bindings: Bindings, renamed: Bindings, names: NameTable, env: Env,
          visible: set<string>)
    requires Related(k, bindings, names, env, visible)
    requires renamed.Keys == bindings.Keys && forall x :: x in bindings ==> renamed[x].name == bindings[x].name
    ensures Related(k, renamed, names, env, visible)
  {
  }

  lemma {:induction false} LoweredIf(b: Builder, s: Stmt, bindings: Bindings, st: State)
    returns (condition: LoweredExpr, env1: Bindings, touched: seq<string>, thenState: State, thenBranch: Lowered,
          elseBranch: Lowered, op: Operation)
    requires s.IfElse? && LowerStmt(b, s, bindings, st).Success?
    ensures LowerExpr(b, s.test, bindings, st) == Success(condition)
    ensures env1.Keys == bindings.Keys && forall x :: x in bindings ==> env1[x].name == bindings[x].name
    ensures touched == Carried(AssignedNames(s.body + s.orelse), env1)
    ensures LowerStmts(b, s.body, env1, thenState) == Success(thenBranch)
    ensures LowerStmts(b, s.orelse, env1, thenBranch.st) == Success(elseBranch)
    ensures forall x :: x in touched ==> x in env1 && x in thenBranch.env && x in elseBranch.env
    ensures |op.results| == |touched|
    ensures op == BranchOperation(condition.value.name, touched, op.results, thenBranch, elseBranch, s.orelse != [])
    ensures LowerStmt(b, s, bindings, st).value.ops == condition.ops + [op]
    ensures LowerStmt(b, s, bindings, st).value.env == Rebind(touched, op.results, env1)
  {
    hide LowerExpr, LowerStmts, AssignedNames;
    condition := LowerExpr(b, s.test, bindings, st).value;
    var e := EnsureBool(condition.value, bindings, condition.st);
    env1, thenState := e.1, e.2;
    touched := Carried(AssignedNames(s.body + s.orelse), env1);
    thenBranch := LowerStmts(b, s.body, env1, thenState).value;
    elseBranch := LowerStmts(b, s.orelse, env1, thenBranch.st).value;
    op := BranchOperation(condition.value.name, touched, Temps(elseBranch.st, touched, env1).0, thenBranch, elseBranch,
        s.orelse != []);
  }

  lemma {:induction false} IfCorrect(k: Kernel, b: Builder, s: Stmt, bindings: Bindings, st: State, names: NameTable,
          env: Env, mem: Memory, visible: set<string>)
    requires s.IfElse? && LowerStmt(b, s, bindings, st).Success?
    requires Ready(k, b, bindings, names, env, visible, LowerStmt(b, s, bindings, st).value.ops)
    ensures var lowered := LowerStmt(b, s, bindings, st).value;
            Simulates(k, ScopedStmt(k, s, names, mem), ExecOperations(lowered.ops, env, mem, k.ctx), lowered.ops,
                lowered.env, visible, env)
    decreases s, 2
  {
    hide LowerStmt, LowerStmts, LowerExpr, EvalExpr, ExecOperations, ScopedOperations, ScopedStmts, Related, Rebind,
        AssignedNames, Carried, ScopedOperation, BranchOperation;
    var condition, env1, touched, thenState, thenBranch, elseBranch, op := LoweredIf(b, s, bindings, st);
    var reached, wider := ExprThen(k, b, s.test, bindings, st, [op], names, env, mem, visible);
    var v := EvalExpr(k, s.test, names, mem);
    if v.Success? {
      RelatedRenamed(k, bindings, env1, names, reached, wider);
      SingleScoped(op, wider);
      BranchSimulates(k, b, s, env1, condition.value.name, touched, thenState, thenBranch, elseBranch, op,
          Rebind(touched, op.results, env1), names, reached, mem, wider);
      ReachThenSimulate(k, condition.ops, [op], bindings, names, env, mem, visible, reached, wider,
          ScopedStmt(k, s, names, mem), Rebind(touched, op.results, env1));
    }
  }

  lemma {:induction false} ExecBranch(op: Operation, flag: string, env: Env, mem: Memory, ctx: Context)
    requires op.opcode == If && op.operands == [flag] && flag in env
    ensures var condition := ScalarOf(env[flag], ctx, mem);
            if condition.Failure? then ExecOperation(op, env, mem, ctx).Failure?
            else
              var index := if condition.value != 0 then 0 else 1;
              if index < |op.regions| then
                var done := ExecOperations(op.regions[index].operations, env, mem, ctx);
                && (done.Failure? ==> ExecOperation(op, env, mem, ctx).Failure?)
                && (done.Success? && (op.results == [] || |done.value.yielded| == |op.results|) ==>
                      ExecOperation(op, env, mem, ctx) ==
                          Success((if op.results == [] then [] else done.value.yielded, done.value.mem)))
              else op.results == [] ==> ExecOperation(op, env, mem, ctx) == Success(([], mem))
  {
    hide ExecOperations;
    var args := Lookup(op.operands, env);
    assert args.Success? && args.value == [env[flag]];
    var condition := ScalarOf(env[flag], ctx, mem);
    if condition.Success? {
      var index := if condition.value != 0 then 0 else 1;
      if index < |op.regions| {
        var done := ExecOperations(op.regions[index].operations, env, mem, ctx);
        if done.Success? && |done.value.yielded| == |op.results| {
          ResultsPass(op, done.value.yielded);
        }
      }
    }
  }

  /** The two runs of the statements of one branch. */
  lemma {:induction false} TakenCorrect(k: Kernel, b: Builder, taken: seq<Stmt>, touched: seq<string>,
          bindings: Bindings, st: State, branch: Lowered, region: Block, names: NameTable, env: Env, mem: Memory,
          visible: set<string>)
    requires Matches(k, b)
    requires LowerStmts(b, taken, bindings, st) == Success(branch)
    requires forall x :: x in touched ==> x in bindings && x in branch.env
    requires region == Block([], if touched == [] then branch.ops else branch.ops + [YieldOf(touched, branch.env)])
    requires Related(k, bindings, names, env, visible) && ScopedBlock(region, visible)
    ensures var x := ExecOperations(region.operations, env, mem, k.ctx);
            match ScopedStmts(k, taken, names, mem)
            case Failure(_) => x.Failure?
            case Success(after) =>
              && x.Success? && x.value.mem == after.1
              && (forall t :: t in touched ==> t in after.0)
              && (touched != [] ==> x.value.yielded == ValuesOf(touched, after.0))
    decreases taken, 2
  {
    hide LowerStmts, ScopedStmts, ScopedOperations, ExecOperations;
    assert visible + NameSet(region.args) == visible;
    if touched == [] {
      StmtsCorrect(k, b, taken, bindings, st, names, env, mem, visible);
    } else {
      RegionCorrect(k, b, taken, touched, bindings, st, names, env, mem, visible);
    }
  }

  lemma {:induction false} BranchMerges(k: Kernel, s: Stmt, touched: seq<string>, results: seq<Value>,
          bindings: Bindings, names: NameTable, after: NameTable, env: Env, visible: set<string>)
    requires s.IfElse? && Related(k, bindings, names, env, visible)
    requires touched == Carried(AssignedNames(s.body + s.orelse), bindings) && |results| == |touched|
    requires forall x :: x in touched ==> x in after
    requires DistinctNames(results) && NameSet(results) !! visible
    ensures var bound := BindValues(results, ValuesOf(touched, after), env);
            Keeps(visible, env, bound)
                && Related(k, Rebind(touched, results, bindings), Back(names, after, AssignedNames(s.body + s.orelse)),
                bound, visible + NameSet(results))
  {
    CarriedMeans(s.body + s.orelse, bindings);
    var back := Back(names, after, AssignedNames(s.body + s.orelse));
    hide AssignedNames;
    forall i | 0 <= i < |touched|
      ensures touched[i] in back && back[touched[i]] == ValuesOf(touched, after)[i]
    {
      assert touched[i] in touched;
    }
    Merge(k, touched, results, ValuesOf(touched, after), bindings, names, back, env, visible);
  }

  /** An `if` and what its branches were lowered to. */
  ghost predicate BranchSetup(k: Kernel, b: Builder, s: Stmt, bindings: Bindings, flag: string, touched: seq<string>,
          thenState: State, thenBranch: Lowered, elseBranch: Lowered, op: Operation, visible: set<string>) {
    && s.IfElse? && Matches(k, b)
    && touched == Carried(AssignedNames(s.body + s.orelse), bindings)
    && LowerStmts(b, s.body, bindings, thenState) == Success(thenBranch)
    && LowerStmts(b, s.orelse, bindings, thenBranch.st) == Success(elseBranch)
    && (forall x :: x in touched ==> x in bindings && x in thenBranch.env && x in elseBranch.env)
    && |op.results| == |touched|
    && op == BranchOperation(flag, touched, op.results, thenBranch, elseBranch, s.orelse != [])
    && ScopedOperation(op, visible) && flag in visible
  }

  lemma {:induction false} BranchFacts(k: Kernel, b: Builder, s: Stmt, bindings: Bindings, flag: string,
          touched: seq<string>, thenState: State, thenBranch: Lowered, elseBranch: Lowered, op: Operation,
          names: NameTable, env: Env, visible: set<string>)
    requires BranchSetup(k, b, s, bindings, flag, touched, thenState, thenBranch, elseBranch, op, visible)
    requires Related(k, bindings, names, env, visible)
    ensures s.IfElse? && flag in env && op.opcode == If && op.operands == [flag] && |op.results| == |touched|
    ensures touched == Carried(AssignedNames(s.body + s.orelse), bindings)
    ensures DistinctNames(op.results) && NameSet(op.results) !! visible
    ensures forall region :: region in op.regions ==> ScopedBlock(region, visible)
  {
    hide LowerStmts, AssignedNames, Carried, ScopedBlock, DistinctNames;
  }

  lemma {:induction false} BranchRuns(k: Kernel, b: Builder, s: Stmt, bindings: Bindings, flag: string,
          touched: seq<string>, thenState: State, thenBranch: Lowered, elseBranch: Lowered, op: Operation,
          names: NameTable, env: Env, mem: Memory, visible: set<string>, condition: int)
    requires BranchSetup(k, b, s, bindings, flag, touched, thenState, thenBranch, elseBranch, op, visible)
    requires Related(k, bindings, names, env, visible) && ScalarOf(env[flag], k.ctx, mem) == Success(condition)
    ensures match ScopedStmts(k, if condition != 0 then s.body else s.orelse, names, mem)
            case Failure(_) => ExecOperation(op, env, mem, k.ctx).Failure?
            case Success(after) =>
              && (forall x :: x in touched ==> x in after.0)
              && ExecOperation(op, env, mem, k.ctx) == Success((ValuesOf(touched, after.0), after.1))
    decreases s, 0
  {
    hide LowerStmts, ScopedStmts, ExecOperation, ExecOperations, TouchesAll, AssignedNames, Related;
    BranchFacts(k, b, s, bindings, flag, touched, thenState, thenBranch, elseBranch, op, names, env, visible);
    hide Carried, Matches, ScopedOperation;
    ExecBranch(op, flag, env, mem, k.ctx);
    if condition != 0 {
      TakenCorrect(k, b, s.body, touched, bindings, thenState, thenBranch, op.regions[0], names, env, mem, visible);
    } else if 1 < |op.regions| {
      TakenCorrect(k, b, s.orelse, touched, bindings, thenBranch.st, elseBranch, op.regions[1], names, env, mem,
          visible);
    } else {
      EmptyRun(k, names, mem);
    }
  }

  lemma {:induction false} BranchSimulates(k: Kernel, b: Builder, s: Stmt, bindings: Bindings, flag: string,
          touched: seq<string>, thenState: State, thenBranch: Lowered, elseBranch: Lowered, op: Operation,
          merged: Bindings, names: NameTable, env: Env, mem: Memory, visible: set<string>)
    requires BranchSetup(k, b, s, bindings, flag, touched, thenState, thenBranch, elseBranch, op, visible)
    requires merged == Rebind(touched, op.results, bindings)
    requires Related(k, bindings, names, env, visible) && EvalExpr(k, s.test, names, mem) == Success(env[flag])
    ensures Simulates(k, ScopedStmt(k, s, names, mem), ExecOperations([op], env, mem, k.ctx), [op], merged, visible,
        env)
    decreases s, 1
  {
    hide BranchSetup, BranchOperation, ScopedOperation, EvalExpr, ScopedStmts, ExecOperation, ExecOperations,
        ScopedBlock, FinallyVisible, Related, LowerStmts, Rebind, Carried, AssignedNames, ValuesOf, BindValues, Keeps,
        Back, DistinctNames;
    BranchFacts(k, b, s, bindings, flag, touched, thenState, thenBranch, elseBranch, op, names, env, visible);
    ExecSingle(op, env, mem, k.ctx, visible);
    ExecBranch(op, flag, env, mem, k.ctx);
    var condition := ScalarOf(env[flag], k.ctx, mem);
    if condition.Success? {
      var taken := if condition.value != 0 then s.body else s.orelse;
      BranchRuns(k, b, s, bindings, flag, touched, thenState, thenBranch, elseBranch, op, names, env, mem, visible,
          condition.value);
      var after := ScopedStmts(k, taken, names, mem);
      if after.Success? {
        BranchMerges(k, s, touched, op.results, bindings, names, after.value.0, env, visible);
      }
    }
  }

  // ----- whole kernels -----

  lemma {:induction false} EntryBindings(b: Builder, params: seq<string>, st: State, env: Bindings)
    ensures var r := EntryState(b, params, st, env);
            && r.0.Keys == env.Keys + Elements(params)
            && (forall x :: x in params ==> r.0[x].name == x && x in r.1.values)
            && (forall x :: x in env && x !in params ==> r.0[x] == env[x])
            && st.values.Keys <= r.1.values.Keys
    decreases |params|
  {
    if params != [] {
      var (value, next) := NamedValue(st, params[0], DeclaredType(b, params[0]));
      EntryBindings(b, params[1..], next, env[params[0] := value]);
      assert params == [params[0]] + params[1..];
    }
  }

  lemma {:induction false} ParamsAreInputs(params: seq<string>, values: ValueTable)
    requires forall x :: x in params ==> x in values
    ensures NameSet(ParamValues(params, values)) == Elements(params)
    decreases |params|
  {
    if params != [] {
      ParamsAreInputs(params[1..], values);
      assert params == [params[0]] + params[1..];
      var rest := ParamValues(params[1..], values);
      assert ParamValues(params, values) == [values[params[0]]] + rest;
      assert NameSet([values[params[0]]] + rest) == {params[0]} + NameSet(rest);
    }
  }

  /** Names are initially the kernel's arguments. */
  ghost function Arguments(k: Kernel): NameTable
    requires k.params <= k.entry.Keys
  {
    map x | x in k.params :: k.entry[x]
  }

  /** The bindings lowering ends with. */
  function FinalBindings(b: Builder, body: seq<Stmt>): (Bindings, State)
    requires LowerKernel(b, body).Success?
  {
    var (env, st) := EntryState(b, b.params, State(map[], [], 0), map[]);
    var lowered := LowerStmts(b, body, env, st).value;
    (lowered.env, lowered.st)
  }

  /** The entry block is scoped by the symbols and the parameters. */
  lemma {:induction false} KernelScoped(k: Kernel, b: Builder, body: seq<Stmt>)
    requires Matches(k, b) && LowerKernel(b, body).Success? && VerifyProgram(LowerKernel(b, body).value).Success?
    ensures var program := LowerKernel(b, body).value;
            ScopedOperations(program.blocks[0].operations, ProgramSymbols(program) + k.params)
  {
    hide LowerStmts, ScopedOperations, VerifyProgram;
    var program := LowerKernel(b, body).value;
    var (env, st) := EntryState(b, b.params, State(map[], [], 0), map[]);
    EntryBindings(b, b.params, State(map[], [], 0), map[]);
    ParamsAreInputs(b.params, LowerStmts(b, body, env, st).value.st.values);
    AcceptedProgramsAreScoped(program);
    assert Elements(b.params) == k.params;
    assert NameSet(program.blocks[0].args) == {};
    assert ProgramSymbols(program) + NameSet(program.inputs) + {} == ProgramSymbols(program) + k.params;
  }

  /** Both runs start in related states. */
  lemma {:induction false} KernelStarts(k: Kernel, b: Builder, visible: set<string>)
    requires Matches(k, b) && k.symbols + k.params <= visible <= k.entry.Keys
    ensures var (env, _) := EntryState(b, b.params, State(map[], [], 0), map[]);
            Related(k, env, Arguments(k), k.entry, visible) && env.Keys == k.params
  {
    EntryBindings(b, b.params, State(map[], [], 0), map[]);
    assert Elements(b.params) == k.params;
  }

  /** The exact meaning of lowered code. When a kernel body is lowered and the verifier
      accepts the result, the SSA run fails exactly when the scoped run of the statements
      fails; otherwise both leave the same memory, the scoped run ends with exactly the
      names that lowering binds, and each denotes an SSA value equal to its own. */
  lemma {:induction false} LoweredMeansScoped(k: Kernel, b: Builder, body: seq<Stmt>, mem: Memory)
    requires Matches(k, b) && LowerKernel(b, body).Success? && VerifyProgram(LowerKernel(b, body).value).Success?
    requires ProgramSymbols(LowerKernel(b, body).value) + k.params <= k.entry.Keys
    ensures var (bindings, _) := FinalBindings(b, body);
            var x := ExecOperations(LowerKernel(b, body).value.blocks[0].operations, k.entry, mem, k.ctx);
            match ScopedStmts(k, body, Arguments(k), mem)
            case Failure(_) => x.Failure?
            case Success(after) =>
              && x.Success? && x.value.mem == after.1 && after.0.Keys == bindings.Keys
              && forall name :: name in bindings ==>
                  bindings[name].name in x.value.env && x.value.env[bindings[name].name] == after.0[name]
  {
    hide LowerStmts, ExecOperations, ScopedStmts, ScopedOperations, VerifyProgram;
    var program := LowerKernel(b, body).value;
    var (env, st) := EntryState(b, b.params, State(map[], [], 0), map[]);
    var visible := ProgramSymbols(program) + k.params;
    KernelScoped(k, b, body);
    KernelStarts(k, b, visible);
    StmtsCorrect(k, b, body, env, st, Arguments(k), k.entry, mem, visible);
  }
}
