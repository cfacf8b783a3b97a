/** The application builder as the frontend runs it: one object whose tables grow while
    statements append to an operation list and rebind names, here proved to compute the
    lowering functions of `Frontend`. */
module FrontendBuilder {
  import opened Wrappers
  import opened Ssa
  import opened Frontend

  /** The operation list and the bindings that lowering a statement extends in place. */
  class Scope {
    var operations: seq<Operation>
    var env: Bindings

    constructor (env: Bindings)
      ensures operations == [] && this.env == env
    {
      this.operations, this.env := [], env;
    }
  }

  class ApplicationBuilder {
    const config: Builder
    var values: ValueTable
    var outputs: seq<Value>
    var temps: nat

    function Now(): State
      reads this
    {
      State(values, outputs, temps)
    }

    constructor (config: Builder)
      ensures this.config == config && Now() == State(map[], [], 0)
    {
      this.config := config;
      values, outputs, temps := map[], [], 0;
    }

    /** `_temp`. */
    method Temporary(t: Type, hint: Option<string>) returns (value: Value)
      modifies this
      ensures (value, Now()) == Temp(old(Now()), t, hint)
    {
      var name := if hint.None? then "%" + Digits(temps) else "%" + hint.value + "_" + Digits(temps);
      temps := temps + 1;
      value := Value(name, t);
      values := values[name := value];
    }

    /** `_named_value`. */
    method Named(name: string, default: Type) returns (value: Value)
      modifies this
      ensures (value, Now()) == NamedValue(old(Now()), name, default)
    {
      if name !in values {
        values := values[name := Value(name, default)];
      }
      value := values[name];
    }

    /** `_emit`: append an operation with one fresh result. */
    method EmitTo(scope: Scope, opcode: Opcode, operands: seq<string>, t: Type) returns (value: Value)
      modifies this, scope`operations
      ensures var e := Emit(opcode, operands, t, old(Now()));
              value == e.value && Now() == e.st && scope.operations == old(scope.operations) + e.ops
    {
      value := Temporary(t, None);
      scope.operations := scope.operations + [Operation(opcode, operands, [value], NO_ATTRS, [])];
    }

    method NameTo(id: string, env: Bindings) returns (r: Result<Value, LowerError>)
      modifies this
      ensures match LowerName(config, id, env, old(Now()))
              case Success((value, st)) => r == Success(value) && Now() == st
              case Failure(e) => r == Failure(e)
    {
      if id in env {
        r := Success(env[id]);
      } else if id in config.symbols {
        var value := Named(id, SYMBOL_INDEX);
        r := Success(value);
      } else {
        r := Failure(UnknownValue);
      }
    }

    /** `_lower_expr` appends the operations of an expression and returns its value. */
    method ExprTo(e: Expr, scope: Scope) returns (r: Result<Value, LowerError>)
      modifies this, scope`operations
      ensures ExprDone(LowerExpr(config, e, scope.env, old(Now())), r, Now(), old(scope.operations), scope.operations)
      decreases e, 0
    {
      hide LowerExprs, Now, Names, NamedValue;
      match e
      case Literal(value) =>
        var v := EmitTo(scope, Constant(value), [], SCALAR_INT);
        r := Success(v);
      case Name(id) =>
        r := NameTo(id, scope.env);
      case Apply(operator, args) =>
        if operator == UnaryOperator(Neg) && |args| == 1 && args[0].Literal? {
          var v := EmitTo(scope, Constant(-args[0].value), [], SCALAR_INT);
          r := Success(v);
        } else {
          var lowered := ExprsTo(args, scope);
          if lowered.Failure? {
            return Failure(lowered.error);
          }
          var opcode := OpcodeOf(operator);
          var v := EmitTo(scope, opcode, Ssa.Names(lowered.value), config.typing.rule(opcode, TypesOf(lowered.value)));
          r := Success(v);
        }
    }

    method ExprsTo(es: seq<Expr>, scope: Scope) returns (r: Result<seq<Value>, LowerError>)
      modifies this, scope`operations
      ensures ExprsDone(LowerExprs(config, es, scope.env, old(Now())), r, Now(), old(scope.operations),
          scope.operations)
      decreases es, 0
    {
      ghost var st, ops, env := Now(), scope.operations, scope.env;
      hide LowerExprs, LowerExpr, ExprDone, ExprsDone;
      if es == [] {
        NoExprs(config, env, st, ops);
        return Success([]);
      }
      var first := ExprTo(es[0], scope);
      ghost var st1, ops1 := Now(), scope.operations;
      if first.Failure? {
        FirstFails(config, es, env, st, first, st1, ops, ops1);
        return Failure(first.error);
      }
      var rest := ExprsTo(es[1..], scope);
      ExprsJoin(config, es, env, st, first, st1, rest, Now(), ops, ops1, scope.operations);
      r := if rest.Failure? then Failure(rest.error) else Success([first.value] + rest.value);
    }

    /** `self.outputs` keeps the first-store order. */
    method Record(output: Value)
      modifies this`outputs
      ensures Now() == AddOutput(old(Now()), output)
    {
      if output !in outputs {
        outputs := outputs + [output];
      }
    }

    /** `_ensure_bool_condition` updates the value table and every binding of the value. */
    method Condition(value: Value, scope: Scope) returns (flag: Value)
      modifies this, scope`env
      ensures (flag, scope.env, Now()) == EnsureBool(value, old(scope.env), old(Now()))
    {
      if value.typ.dtype == Some(Bool) || value.typ.kind != ScalarKind || value.typ.dtype !in {None, Some(Symbolic)} {
        return value;
      }
      flag := Value(value.name, Type(ScalarKind, value.typ.shape, Some(Bool)));
      values := values[value.name := flag];
      scope.env := map x | x in scope.env :: if scope.env[x].name == value.name then flag else scope.env[x];
    }

    /** One fresh result for each carried name. */
    method Results(names: seq<string>, env: Bindings) returns (results: seq<Value>)
      requires forall name :: name in names ==> name in env
      modifies this
      ensures (results, Now()) == Temps(old(Now()), names, env)
      decreases |names|
    {
      if names == [] {
        return [];
      }
      var first := Temporary(env[names[0]].typ, Some(names[0]));
      var rest := Results(names[1..], env);
      results := [first] + rest;
    }

    /** `_lower_assign` with a name as target: a store for a parameter, a binding otherwise. */
    method AssignTo(target: string, value: Expr, scope: Scope) returns (r: Option<LowerError>)
      modifies this, scope
      ensures StmtDone(LowerStmt(config, Assign(target, value), old(scope.env), old(Now())), r, Now(), scope.env,
          old(scope.operations), scope.operations)
    {
      hide LowerExpr;
      ghost var ops := scope.operations;
      var v := ExprTo(value, scope);
      if v.Failure? {
        return Some(v.error);
      }
      if target in config.params {
        var output := Named(target, DeclaredType(config, target));
        Record(output);
        scope.operations := scope.operations + [StoreTo(v.value.name, output.name, [])];
      } else {
        scope.env := scope.env[target := v.value];
      }
      r := None;
    }

    /** `_lower_assign` with a subscript as target. */
    method AssignAtTo(target: string, value: Expr, indices: seq<Expr>, scope: Scope) returns (r: Option<LowerError>)
      modifies this, scope
      ensures StmtDone(LowerStmt(config, AssignAt(target, value, indices), old(scope.env), old(Now())), r, Now(),
          scope.env, old(scope.operations), scope.operations)
    {
      hide LowerExpr, LowerExprs;
      var v := ExprTo(value, scope);
      if v.Failure? {
        return Some(v.error);
      }
      var destination := NameTo(target, scope.env);
      if destination.Failure? {
        return Some(destination.error);
      }
      Record(destination.value);
      var at := ExprsTo(indices, scope);
      if at.Failure? {
        return Some(at.error);
      }
      scope.operations := scope.operations + [StoreTo(v.value.name, destination.value.name, Ssa.Names(at.value))];
      r := None;
    }

    /** `_lower_augassign` with a name as target. */
    method AugAssignTo(target: string, op: BinaryOp, value: Expr, scope: Scope) returns (r: Option<LowerError>)
      modifies this, scope
      ensures StmtDone(LowerStmt(config, AugAssign(target, op, value), old(scope.env), old(Now())), r, Now(), scope.env,
          old(scope.operations), scope.operations)
    {
      hide LowerExpr;
      if target !in scope.env {
        return Some(UnknownAugTarget);
      }
      var v := ExprTo(value, scope);
      if v.Failure? {
        return Some(v.error);
      }
      var result := EmitTo(scope, Binary(op), [scope.env[target].name, v.value.name], scope.env[target].typ);
      scope.env := scope.env[target := result];
      r := None;
    }

    method EvaluateTo(value: Expr, scope: Scope) returns (r: Option<LowerError>)
      modifies this, scope
      ensures StmtDone(LowerStmt(config, Evaluate(value), old(scope.env), old(Now())), r, Now(), scope.env,
          old(scope.operations), scope.operations)
    {
      hide LowerExpr;
      var v := ExprTo(value, scope);
      r := if v.Failure? then Some(v.error) else None;
    }

    /** Lower statements into a region of their own, from a copy of the bindings. */
    method RegionTo(stmts: seq<Stmt>, env: Bindings) returns (r: Result<Lowered, LowerError>)
      modifies this
      ensures match LowerStmts(config, stmts, env, old(Now()))
              case Success(l) => r == Success(l) && Now() == l.st
              case Failure(x) => r == Failure(x)
      decreases stmts, 1
    {
      var region := new Scope(env);
      ghost var st := Now();
      hide LowerStmts;
      var failed := StatementsTo(stmts, region);
      if failed.Some? {
        return Failure(failed.value);
      }
      assert [] + LowerStmts(config, stmts, env, st).value.ops == LowerStmts(config, stmts, env, st).value.ops;
      r := Success(Lowered(region.operations, region.env, Now()));
    }

    /** `_lower_for`: the body is lowered into a region of its own; names it assigns that
        are already bound are carried, the loop target is not. */
    method ForTo(target: string, bounds: seq<Expr>, body: seq<Stmt>, orelse: seq<Stmt>, scope: Scope)
      returns (r: Option<LowerError>)
      modifies this, scope
      ensures StmtDone(LowerStmt(config, ForRange(target, bounds, body, orelse), old(scope.env), old(Now())), r, Now(),
          scope.env, old(scope.operations), scope.operations)
      decreases ForRange(target, bounds, body, orelse), 0
    {
      hide LowerExpr, LowerExprs, LowerStmts, LoopOperation, Temps, Rebind, Carried, AssignedNames, RangeBounds;
      var range := RangeBounds(bounds);
      if range.None? {
        return Some(UnsupportedRange);
      }
      var limits := ExprsTo([range.value.0, range.value.1, range.value.2], scope);
      if limits.Failure? {
        return Some(limits.error);
      }
      var carried := Carried(AssignedNames(body), scope.env);
      var inner := RegionTo(body, LoopBindings(target, carried, scope.env));
      if inner.Failure? {
        return Some(inner.error);
      }
      var results := Results(carried, scope.env);
      scope.operations := scope.operations
          + [LoopOperation(target, carried, scope.env, limits.value, inner.value, results)];
      scope.env := Rebind(carried, results, scope.env);
      r := None;
    }

    /** `_lower_if`: both branches start from the bindings of the condition; what either
        assigns and was bound becomes a result. */
    method IfTo(test: Expr, body: seq<Stmt>, orelse: seq<Stmt>, scope: Scope) returns (r: Option<LowerError>)
      modifies this, scope
      ensures StmtDone(LowerStmt(config, IfElse(test, body, orelse), old(scope.env), old(Now())), r, Now(), scope.env,
          old(scope.operations), scope.operations)
      decreases IfElse(test, body, orelse), 0
    {
      hide LowerExpr, LowerExprs, LowerStmts, BranchOperation, Temps, Rebind, Carried, AssignedNames, EnsureBool, Now,
          DeclaredType;
      var condition := ExprTo(test, scope);
      if condition.Failure? {
        return Some(condition.error);
      }
      var flag := Condition(condition.value, scope);
      var touched := Carried(AssignedNames(body + orelse), scope.env);
      var thenBranch := RegionTo(body, scope.env);
      if thenBranch.Failure? {
        return Some(thenBranch.error);
      }
      var elseBranch := RegionTo(orelse, scope.env);
      if elseBranch.Failure? {
        return Some(elseBranch.error);
      }
      var results := Results(touched, scope.env);
      scope.operations := scope.operations
          + [BranchOperation(flag.name, touched, results, thenBranch.value, elseBranch.value, orelse != [])];
      scope.env := Rebind(touched, results, scope.env);
      r := None;
    }

    /** The handler of a statement. */
    method StatementTo(s: Stmt, scope: Scope) returns (r: Option<LowerError>)
      modifies this, scope
      ensures StmtDone(LowerStmt(config, s, old(scope.env), old(Now())), r, Now(), scope.env, old(scope.operations),
          scope.operations)
      decreases s, 1
    {
      hide LowerExpr, LowerExprs, LowerStmts;
      match s
      case Assign(target, value) => r := AssignTo(target, value, scope);
      case AssignAt(target, value, indices) => r := AssignAtTo(target, value, indices, scope);
      case AugAssign(target, op, value) => r := AugAssignTo(target, op, value, scope);
      case ForRange(target, bounds, body, orelse) => r := ForTo(target, bounds, body, orelse, scope);
      case IfElse(test, body, orelse) => r := IfTo(test, body, orelse, scope);
      case Evaluate(value) => r := EvaluateTo(value, scope);
      case Pass => r := None;
    }

    /** `_lower_statements`. */
    method StatementsTo(stmts: seq<Stmt>, scope: Scope) returns (r: Option<LowerError>)
      modifies this, scope
      ensures StmtDone(LowerStmts(config, stmts, old(scope.env), old(Now())), r, Now(), scope.env,
          old(scope.operations), scope.operations)
      decreases stmts, 0
    {
      ghost var env, st, ops := scope.env, Now(), scope.operations;
      hide LowerStmt, LowerStmts, StmtDone;
      if stmts == [] {
        NoStatements(config, env, st, ops);
        return None;
      }
      var failed := StatementTo(stmts[0], scope);
      ghost var env1, st1, ops1 := scope.env, Now(), scope.operations;
      if failed.Some? {
        FirstStatementFails(config, stmts, env, st, failed, st1, env1, ops, ops1);
        return failed;
      }
      r := StatementsTo(stmts[1..], scope);
      StatementsJoin(config, stmts, env, st, st1, env1, r, Now(), scope.env, ops, ops1, scope.operations);
    }

    /** `build`: bind the parameters, lower the body, and collect the inputs and outputs. */
    method Kernel(body: seq<Stmt>) returns (r: Result<Program, LowerError>)
      requires Now() == State(map[], [], 0)
      modifies this
      ensures r == LowerKernel(config, body)
    {
      var scope := new Scope(map[]);
      ghost var start := Now();
      for n := 0 to |config.params|
        invariant scope.operations == [] && fresh(scope)
        invariant EntryState(config, config.params, start, map[]) ==
            EntryState(config, config.params[n..], Now(), scope.env)
      {
        assert config.params[n..][0] == config.params[n] && config.params[n..][1..] == config.params[n + 1..];
        var value := Named(config.params[n], DeclaredType(config, config.params[n]));
        scope.env := scope.env[config.params[n] := value];
      }
      ghost var env, st := scope.env, Now();
      hide LowerStmts;
      var failed := StatementsTo(body, scope);
      if failed.Some? {
        return Failure(failed.value);
      }
      assert [] + LowerStmts(config, body, env, st).value.ops == LowerStmts(config, body, env, st).value.ops;
      r := Success(Program(ParamValues(config.params, values), outputs, [Block([], scope.operations)], config.symbols));
    }
  }

  ghost predicate StmtDone(l: Result<Lowered, LowerError>, r: Option<LowerError>, now: State, env: Bindings,
          before: seq<Operation>, after: seq<Operation>) {
    match l
    case Success(s) => r == None && now == s.st && env == s.env && after == before + s.ops
    case Failure(x) => r == Some(x)
  }

  /** The builder has done what the lowering function says. */
  ghost predicate ExprDone(l: Result<LoweredExpr, LowerError>, r: Result<Value, LowerError>, now: State,
          before: seq<Operation>, after: seq<Operation>) {
    match l
    case Success(e) => r == Success(e.value) && now == e.st && after == before + e.ops
    case Failure(x) => r == Failure(x)
  }

  ghost predicate ExprsDone(l: Result<LoweredExprs, LowerError>, r: Result<seq<Value>, LowerError>, now: State,
          before: seq<Operation>, after: seq<Operation>) {
    match l
    case Success(e) => r == Success(e.values) && now == e.st && after == before + e.ops
    case Failure(x) => r == Failure(x)
  }

  lemma {:induction false} NoExprs(b: Builder, env: Bindings, st: State, ops: seq<Operation>)
    ensures ExprsDone(LowerExprs(b, [], env, st), Success([]), st, ops, ops)
  {
    assert ops + [] == ops;
  }

  lemma {:induction false} FirstFails(b: Builder, es: seq<Expr>, env: Bindings, st: State,
          first: Result<Value, LowerError>, st1: State, ops: seq<Operation>, ops1: seq<Operation>)
    requires es != [] && first.Failure? && ExprDone(LowerExpr(b, es[0], env, st), first, st1, ops, ops1)
    ensures ExprsDone(LowerExprs(b, es, env, st), Failure(first.error), st1, ops, ops1)
  {
  }

  lemma {:induction false} ExprsJoin(b: Builder, es: seq<Expr>, env: Bindings, st: State,
          first: Result<Value, LowerError>, st1: State, rest: Result<seq<Value>, LowerError>, st2: State,
          ops: seq<Operation>, ops1: seq<Operation>, ops2: seq<Operation>)
    requires es != [] && first.Success? && ExprDone(LowerExpr(b, es[0], env, st), first, st1, ops, ops1)
    requires ExprsDone(LowerExprs(b, es[1..], env, st1), rest, st2, ops1, ops2)
    ensures ExprsDone(LowerExprs(b, es, env, st), if rest.Failure? then Failure(rest.error)
        else Success([first.value] + rest.value), st2, ops, ops2)
  {
    hide LowerExpr;
    var l := LowerExpr(b, es[0], env, st);
    if rest.Success? && l.Success? {
      var m := LowerExprs(b, es[1..], env, st1);
      assert m.Success? ==> ops + l.value.ops + m.value.ops == ops + (l.value.ops + m.value.ops);
    }
  }

  lemma {:induction false} NoStatements(b: Builder, env: Bindings, st: State, ops: seq<Operation>)
    ensures StmtDone(LowerStmts(b, [], env, st), None, st, env, ops, ops)
  {
    assert ops + [] == ops;
  }

  lemma {:induction false} FirstStatementFails(b: Builder, stmts: seq<Stmt>, env: Bindings, st: State,
          failed: Option<LowerError>, st1: State, env1: Bindings, ops: seq<Operation>, ops1: seq<Operation>)
    requires stmts != [] && failed.Some? && StmtDone(LowerStmt(b, stmts[0], env, st), failed, st1, env1, ops, ops1)
    ensures StmtDone(LowerStmts(b, stmts, env, st), failed, st1, env1, ops, ops1)
  {
    hide LowerStmt;
  }

  lemma {:induction false} StatementsJoin(b: Builder, stmts: seq<Stmt>, env: Bindings, st: State, st1: State,
          env1: Bindings, r: Option<LowerError>, st2: State, env2: Bindings, ops: seq<Operation>, ops1: seq<Operation>,
          ops2: seq<Operation>)
    requires stmts != [] && StmtDone(LowerStmt(b, stmts[0], env, st), None, st1, env1, ops, ops1)
    requires StmtDone(LowerStmts(b, stmts[1..], env1, st1), r, st2, env2, ops1, ops2)
    ensures StmtDone(LowerStmts(b, stmts, env, st), r, st2, env2, ops, ops2)
  {
    hide LowerStmt;
    var first := LowerStmt(b, stmts[0], env, st);
    if first.Success? {
      var rest := LowerStmts(b, stmts[1..], env1, st1);
      assert rest.Success? ==> ops + first.value.ops + rest.value.ops == ops + (first.value.ops + rest.value.ops);
    }
  }
}
