/** The signature of a lowered kernel: its inputs are its parameters, and its outputs are what its code
    stores to, in the order of the first stores. */
module KernelSignature {
  import opened Wrappers
  import opened Ssa
  import opened Frontend

  // ----- what code stores to -----

  /** The destinations of all stores in textual order, nested ones included. */
  ghost function StoredBy(ops: seq<Operation>): seq<string>
    decreases ops, 0
  {
    if ops == [] then [] else StoredByOne(ops[0]) + StoredBy(ops[1..])
  }

  ghost function StoredByOne(op: Operation): seq<string>
    decreases op, 1
  {
    (if op.opcode.Store? && |op.operands| >= 2 then [op.operands[1]] else []) + StoredByRegions(op.regions)
  }

  ghost function StoredByRegions(regions: seq<Block>): seq<string>
    decreases regions, 0
  {
    if regions == [] then [] else StoredBy(regions[0].operations) + StoredByRegions(regions[1..])
  }

  lemma {:induction false} StoredByBoth(a: seq<Operation>, b: seq<Operation>)
    ensures StoredBy(a + b) == StoredBy(a) + StoredBy(b)
    decreases |a|
  {
    if a == [] {
      assert a + b == b;
    } else {
      assert (a + b)[0] == a[0] && (a + b)[1..] == a[1..] + b;
      StoredByBoth(a[1..], b);
    }
  }

  lemma {:induction false} OneStored(op: Operation)
    ensures StoredBy([op]) == StoredByOne(op)
  {
    assert [op][1..] == [] && StoredBy([op][1..]) == [];
  }

  // ----- first occurrences -----

  /** The names of `xs` that are new, behind those that are there. */
  ghost function Onto(seen: seq<string>, xs: seq<string>): (r: seq<string>)
    decreases |xs|
  {
    if xs == [] then seen else Onto(if xs[0] in seen then seen else seen + [xs[0]], xs[1..])
  }

  lemma {:induction false} OntoBoth(seen: seq<string>, a: seq<string>, b: seq<string>)
    ensures Onto(seen, a + b) == Onto(Onto(seen, a), b)
    decreases |a|
  {
    if a == [] {
      assert a + b == b;
    } else {
      assert (a + b)[0] == a[0] && (a + b)[1..] == a[1..] + b;
      OntoBoth(if a[0] in seen then seen else seen + [a[0]], a[1..], b);
    }
  }

  lemma {:induction false} OntoMembers(seen: seq<string>, xs: seq<string>)
    ensures forall x :: x in Onto(seen, xs) <==> x in seen || x in xs
    ensures (forall i, j :: 0 <= i < j < |seen| ==> seen[i] != seen[j]) ==>
        forall i, j :: 0 <= i < j < |Onto(seen, xs)| ==> Onto(seen, xs)[i] != Onto(seen, xs)[j]
    decreases |xs|
  {
    if xs != [] {
      OntoMembers(if xs[0] in seen then seen else seen + [xs[0]], xs[1..]);
    }
  }

  // ----- outputs -----

  ghost function OutputNames(st: State): seq<string> {
    Onto([], Ssa.Names(st.outputs))
  }

  /** No value is listed twice. */
  ghost predicate Distinct(values: seq<Value>) {
    forall i, j :: 0 <= i < j < |values| ==> values[i] != values[j]
  }

  /** Lowering some code adds to the outputs exactly what the code stores to. */
  ghost predicate Adds(st: State, ops: seq<Operation>, after: State) {
    && (Distinct(st.outputs) ==> Distinct(after.outputs))
    && OutputNames(after) == Onto(OutputNames(st), StoredBy(ops))
  }

  lemma {:induction false} NothingAdded(st: State, ops: seq<Operation>, after: State)
    requires after.outputs == st.outputs && StoredBy(ops) == []
    ensures Adds(st, ops, after)
  {
  }

  lemma {:induction false} AddsBoth(st: State, a: seq<Operation>, middle: State, b: seq<Operation>, after: State)
    requires Adds(st, a, middle) && Adds(middle, b, after)
    ensures Adds(st, a + b, after)
  {
    StoredByBoth(a, b);
    OntoBoth(OutputNames(st), StoredBy(a), StoredBy(b));
  }

  lemma {:induction false} StoreAdds(st: State, value: string, output: Value, indices: seq<string>)
    ensures Adds(st, [StoreTo(value, output.name, indices)], AddOutput(st, output))
  {
    var op, after := StoreTo(value, output.name, indices), AddOutput(st, output);
    OneStored(op);
    assert StoredByRegions(op.regions) == [];
    var names, x := Ssa.Names(st.outputs), output.name;
    assert Onto(OutputNames(st), [x]) == if x in OutputNames(st) then OutputNames(st) else OutputNames(st) + [x] by {
      assert [x][1..] == [];
    }
    OntoMembers([], names);
    if output in st.outputs {
      var i :| 0 <= i < |st.outputs| && st.outputs[i] == output;
      assert names[i] == x;
    } else {
      assert Ssa.Names(after.outputs) == names + [x];
      OntoBoth([], names, [x]);
    }
  }

  // ----- expressions -----

  /** Lowering an expression stores nothing and leaves the outputs. */
  lemma {:induction false} ExprStoresNothing(b: Builder, e: Expr, env: Bindings, st: State)
    requires LowerExpr(b, e, env, st).Success?
    ensures var r := LowerExpr(b, e, env, st).value; r.st.outputs == st.outputs && StoredBy(r.ops) == []
    decreases e, 0
  {
    hide Emit, TypesOf;
    match e
    case Literal(value) => EmitStoresNothing(Constant(value), [], SCALAR_INT, st);
    case Name(id) =>
    case Apply(operator, args) =>
      if operator == UnaryOperator(Neg) && |args| == 1 && args[0].Literal? {
        EmitStoresNothing(Constant(-args[0].value), [], SCALAR_INT, st);
      } else {
        ExprsStoreNothing(b, args, env, st);
        ApplyStoresNothing(OpcodeOf(operator), b, LowerExprs(b, args, env, st).value);
      }
  }

  lemma {:induction false} ApplyStoresNothing(opcode: Opcode, b: Builder, lowered: LoweredExprs)
    requires !opcode.Store? && StoredBy(lowered.ops) == []
    ensures
      var r := Emit(opcode, Ssa.Names(lowered.values), b.typing.rule(opcode, TypesOf(lowered.values)), lowered.st);
      r.st.outputs == lowered.st.outputs && StoredBy(lowered.ops + r.ops) == []
  {
    var names, t := Ssa.Names(lowered.values), b.typing.rule(opcode, TypesOf(lowered.values));
    EmitStoresNothing(opcode, names, t, lowered.st);
    StoredByBoth(lowered.ops, Emit(opcode, names, t, lowered.st).ops);
  }

  lemma {:induction false} ExprsStoreNothing(b: Builder, es: seq<Expr>, env: Bindings, st: State)
    requires LowerExprs(b, es, env, st).Success?
    ensures var r := LowerExprs(b, es, env, st).value; r.st.outputs == st.outputs && StoredBy(r.ops) == []
    decreases es, 0
  {
    if es != [] {
      var first := LowerExpr(b, es[0], env, st).value;
      var rest := LowerExprs(b, es[1..], env, first.st).value;
      ExprStoresNothing(b, es[0], env, st);
      ExprsStoreNothing(b, es[1..], env, first.st);
      StoredByBoth(first.ops, rest.ops);
    }
  }

  lemma {:induction false} EmitStoresNothing(opcode: Opcode, operands: seq<string>, t: Type, st: State)
    requires !opcode.Store?
    ensures Emit(opcode, operands, t, st).st.outputs == st.outputs && StoredBy(Emit(opcode, operands, t, st).ops) == []
  {
    var op := Emit(opcode, operands, t, st).ops[0];
    OneStored(op);
    assert op.regions == [] && StoredByRegions(op.regions) == [];
  }

  lemma {:induction false} TempsKeepOutputs(st: State, names: seq<string>, env: Bindings)
    requires forall name :: name in names ==> name in env
    ensures Temps(st, names, env).1.outputs == st.outputs
    decreases |names|
  {
    if names != [] {
      TempsKeepOutputs(Temp(st, env[names[0]].typ, Some(names[0])).1, names[1..], env);
    }
  }

  // ----- statements -----

  lemma {:induction false} YieldStoresNothing(ops: seq<Operation>, names: seq<string>, env: Bindings)
    requires forall name :: name in names ==> name in env
    ensures StoredBy(ops + [YieldOf(names, env)]) == StoredBy(ops)
  {
    var op := YieldOf(names, env);
    StoredByBoth(ops, [op]);
    OneStored(op);
    assert StoredByRegions(op.regions) == [];
  }

  lemma {:induction false} LoopStores(target: string, carried: seq<string>, env: Bindings, limits: seq<Value>,
          inner: Lowered, results: seq<Value>)
    requires forall name :: name in carried ==> name in env && name in inner.env
    ensures StoredByOne(LoopOperation(target, carried, env, limits, inner, results)) == StoredBy(inner.ops)
  {
    var op := LoopOperation(target, carried, env, limits, inner, results);
    YieldStoresNothing(inner.ops, carried, inner.env);
    assert op.regions[1..] == [] && StoredByRegions(op.regions[1..]) == [];
  }

  lemma {:induction false} TwoStored(a: Block, b: Block)
    ensures StoredByRegions([a, b]) == StoredBy(a.operations) + StoredBy(b.operations)
    ensures StoredByRegions([a]) == StoredBy(a.operations)
  {
    assert [a, b][1..] == [b] && [a][1..] == [] && [b][1..] == [];
    assert StoredByRegions([b]) == StoredBy(b.operations) + StoredByRegions([b][1..]);
    assert StoredByRegions([a]) == StoredBy(a.operations) + StoredByRegions([a][1..]);
  }

  lemma {:induction false} BranchStores(flag: string, touched: seq<string>, results: seq<Value>, thenBranch: Lowered,
          elseBranch: Lowered, hasElse: bool)
    requires forall name :: name in touched ==> name in thenBranch.env && name in elseBranch.env
    requires !hasElse ==> elseBranch.ops == []
    ensures StoredByOne(BranchOperation(flag, touched, results, thenBranch, elseBranch, hasElse)) ==
        StoredBy(thenBranch.ops) + StoredBy(elseBranch.ops)
  {
    if touched == [] {
      TwoStored(Block([], thenBranch.ops), Block([], elseBranch.ops));
    } else {
      YieldStoresNothing(thenBranch.ops, touched, thenBranch.env);
      YieldStoresNothing(elseBranch.ops, touched, elseBranch.env);
      TwoStored(Block([], thenBranch.ops + [YieldOf(touched, thenBranch.env)]),
          Block([], elseBranch.ops + [YieldOf(touched, elseBranch.env)]));
    }
  }

  lemma {:induction false} StmtStores(b: Builder, s: Stmt, env: Bindings, st: State)
    requires LowerStmt(b, s, env, st).Success?
    ensures var r := LowerStmt(b, s, env, st).value; Adds(st, r.ops, r.st)
    decreases s, 0
  {
    hide Adds, LowerExpr, LowerExprs;
    match s
    case Assign(target, value) => AssignStores(b, target, value, env, st);
    case AssignAt(target, value, indices) => AssignAtStores(b, target, value, indices, env, st);
    case AugAssign(target, op, value) =>
      var v := LowerExpr(b, value, env, st).value;
      ExprStoresNothing(b, value, env, st);
      EmitStoresNothing(Binary(op), [env[target].name, v.value.name], env[target].typ, v.st);
      var r := LowerStmt(b, s, env, st).value;
      StoredByBoth(v.ops, Emit(Binary(op), [env[target].name, v.value.name], env[target].typ, v.st).ops);
      NothingAdded(st, r.ops, r.st);
    case ForRange(target, bounds, body, orelse) =>
      var range := RangeBounds(bounds).value;
      var limits := LowerExprs(b, [range.0, range.1, range.2], env, st).value;
      var carried := Carried(AssignedNames(body), env);
      StmtsStore(b, body, LoopBindings(target, carried, env), limits.st);
      ForStores(b, target, range, body, orelse, bounds, env, st);
    case IfElse(test, body, orelse) =>
      var condition := LowerExpr(b, test, env, st).value;
      var (flag, env1, st1) := EnsureBool(condition.value, env, condition.st);
      StmtsStore(b, body, env1, st1);
      StmtsStore(b, orelse, env1, LowerStmts(b, body, env1, st1).value.st);
      IfStores(b, test, body, orelse, env, st);
    case Evaluate(value) =>
      ExprStoresNothing(b, value, env, st);
      NothingAdded(st, LowerExpr(b, value, env, st).value.ops, LowerExpr(b, value, env, st).value.st);
    case Pass => NothingAdded(st, [], st);
  }

  lemma {:induction false} StmtsStore(b: Builder, stmts: seq<Stmt>, env: Bindings, st: State)
    requires LowerStmts(b, stmts, env, st).Success?
    ensures var r := LowerStmts(b, stmts, env, st).value; Adds(st, r.ops, r.st)
    decreases stmts, 0
  {
    hide Adds, LowerStmt;
    if stmts == [] {
      NothingAdded(st, [], st);
    } else {
      var first := LowerStmt(b, stmts[0], env, st).value;
      var rest := LowerStmts(b, stmts[1..], first.env, first.st).value;
      StmtStores(b, stmts[0], env, st);
      StmtsStore(b, stmts[1..], first.env, first.st);
      AddsBoth(st, first.ops, first.st, rest.ops, rest.st);
    }
  }

  /** What happens before or after that stores nothing does not matter. */
  lemma {:induction false} AddsAround(st: State, before: seq<Operation>, start: State, ops: seq<Operation>,
          end: State, after: State)
    requires StoredBy(before) == [] && start.outputs == st.outputs && end.outputs == after.outputs
    requires Adds(start, ops, end)
    ensures Adds(st, before + ops, after)
  {
    StoredByBoth(before, ops);
    assert StoredBy(before) + StoredBy(ops) == StoredBy(ops);
  }

  lemma {:induction false} AssignStores(b: Builder, target: string, value: Expr, env: Bindings, st: State)
    requires LowerStmt(b, Assign(target, value), env, st).Success?
    ensures var r := LowerStmt(b, Assign(target, value), env, st).value; Adds(st, r.ops, r.st)
  {
    hide Adds, LowerExpr;
    var v := LowerExpr(b, value, env, st).value;
    ExprStoresNothing(b, value, env, st);
    if target in b.params {
      var (output, named) := NamedValue(v.st, target, DeclaredType(b, target));
      StoreAdds(named, v.value.name, output, []);
      AddsAround(st, v.ops, named, [StoreTo(v.value.name, output.name, [])], AddOutput(named, output),
          AddOutput(named, output));
    } else {
      NothingAdded(st, v.ops, v.st);
    }
  }

  lemma {:induction false} AssignAtStores(b: Builder, target: string, value: Expr, indices: seq<Expr>, env: Bindings,
          st: State)
    requires LowerStmt(b, AssignAt(target, value, indices), env, st).Success?
    ensures var r := LowerStmt(b, AssignAt(target, value, indices), env, st).value; Adds(st, r.ops, r.st)
  {
    hide Adds, LowerExpr, LowerExprs;
    var v := LowerExpr(b, value, env, st).value;
    var destination := LowerName(b, target, env, v.st).value;
    var added := AddOutput(destination.1, destination.0);
    var at := LowerExprs(b, indices, env, added).value;
    var store := StoreTo(v.value.name, destination.0.name, Ssa.Names(at.values));
    ExprStoresNothing(b, value, env, st);
    ExprsStoreNothing(b, indices, env, added);
    StoreAdds(destination.1, v.value.name, destination.0, Ssa.Names(at.values));
    StoredByBoth(v.ops, at.ops);
    assert v.ops + (at.ops + [store]) == (v.ops + at.ops) + [store];
    AddsAround(st, v.ops + at.ops, destination.1, [store], added, at.st);
  }

  lemma {:induction false} ForStores(b: Builder, target: string, range: (Expr, Expr, Expr), body: seq<Stmt>,
          orelse: seq<Stmt>, bounds: seq<Expr>, env: Bindings, st: State)
    requires LowerStmt(b, ForRange(target, bounds, body, orelse), env, st).Success?
    requires RangeBounds(bounds) == Some(range)
    requires
      var limits := LowerExprs(b, [range.0, range.1, range.2], env, st).value;
      var carried := Carried(AssignedNames(body), env);
      var inner := LowerStmts(b, body, LoopBindings(target, carried, env), limits.st).value;
      Adds(limits.st, inner.ops, inner.st)
    ensures var r := LowerStmt(b, ForRange(target, bounds, body, orelse), env, st).value; Adds(st, r.ops, r.st)
  {
    hide LowerExprs, LowerStmts;
    var limits := LowerExprs(b, [range.0, range.1, range.2], env, st).value;
    var carried := Carried(AssignedNames(body), env);
    var inner := LowerStmts(b, body, LoopBindings(target, carried, env), limits.st).value;
    var (results, last) := Temps(inner.st, carried, env);
    var op := LoopOperation(target, carried, env, limits.values, inner, results);
    ExprsStoreNothing(b, [range.0, range.1, range.2], env, st);
    LoopStores(target, carried, env, limits.values, inner, results);
    OneStored(op);
    TempsKeepOutputs(inner.st, carried, env);
    assert Adds(limits.st, [op], inner.st);
    AddsAround(st, limits.ops, limits.st, [op], inner.st, last);
  }

  lemma {:induction false} IfStores(b: Builder, test: Expr, body: seq<Stmt>, orelse: seq<Stmt>, env: Bindings,
          st: State)
    requires LowerStmt(b, IfElse(test, body, orelse), env, st).Success?
    requires
      var condition := LowerExpr(b, test, env, st).value;
      var (flag, env1, st1) := EnsureBool(condition.value, env, condition.st);
      var thenBranch := LowerStmts(b, body, env1, st1).value;
      var elseBranch := LowerStmts(b, orelse, env1, thenBranch.st).value;
      Adds(st1, thenBranch.ops, thenBranch.st) && Adds(thenBranch.st, elseBranch.ops, elseBranch.st)
    ensures var r := LowerStmt(b, IfElse(test, body, orelse), env, st).value; Adds(st, r.ops, r.st)
  {
    hide LowerExpr;
    var condition := LowerExpr(b, test, env, st).value;
    var (flag, env1, st1) := EnsureBool(condition.value, env, condition.st);
    var touched := Carried(AssignedNames(body + orelse), env1);
    var thenBranch := LowerStmts(b, body, env1, st1).value;
    var elseBranch := LowerStmts(b, orelse, env1, thenBranch.st).value;
    assert orelse == [] ==> elseBranch.ops == [];
    hide LowerStmts;
    var (results, last) := Temps(elseBranch.st, touched, env1);
    var op := BranchOperation(flag.name, touched, results, thenBranch, elseBranch, orelse != []);
    ExprStoresNothing(b, test, env, st);
    BranchStores(flag.name, touched, results, thenBranch, elseBranch, orelse != []);
    OneStored(op);
    TempsKeepOutputs(elseBranch.st, touched, env1);
    AddsBoth(st1, thenBranch.ops, thenBranch.st, elseBranch.ops, elseBranch.st);
    StoredByBoth(thenBranch.ops, elseBranch.ops);
    assert Adds(st1, [op], elseBranch.st);
    AddsAround(st, condition.ops, st1, [op], elseBranch.st, last);
  }

  // ----- types -----

  /** What an operator computes has the type that the rules give for its operands' types. */
  lemma {:induction false} ResultTyped(b: Builder, operator: Operator, args: seq<Expr>, env: Bindings, st: State)
    returns (types: seq<Type>)
    requires LowerExpr(b, Apply(operator, args), env, st).Success?
    requires !(operator == UnaryOperator(Neg) && |args| == 1 && args[0].Literal?)
    ensures LowerExprs(b, args, env, st).Success? && |types| == |args|
    ensures forall i :: 0 <= i < |args| ==> types[i] == LowerExprs(b, args, env, st).value.values[i].typ
    ensures LowerExpr(b, Apply(operator, args), env, st).value.value.typ == b.typing.rule(OpcodeOf(operator), types)
  {
    types := TypesOf(LowerExprs(b, args, env, st).value.values);
  }

  // ----- kernels -----

  lemma {:induction false} EntryNames(b: Builder, params: seq<string>, st: State, env: Bindings)
    ensures var (_, after) := EntryState(b, params, st, env);
        after.outputs == st.outputs && st.values.Keys <= after.values.Keys
        && forall name :: name in params ==> name in after.values
    decreases |params|
  {
    if params != [] {
      var (value, next) := NamedValue(st, params[0], DeclaredType(b, params[0]));
      EntryNames(b, params[1..], next, env[params[0] := value]);
    }
  }

  lemma {:induction false} AllParams(params: seq<string>, values: ValueTable)
    requires forall name :: name in params ==> name in values
    ensures Ssa.Names(ParamValues(params, values)) == params
    decreases |params|
  {
    if params != [] {
      var rest := ParamValues(params[1..], values);
      AllParams(params[1..], values);
      var all := ParamValues(params, values);
      assert all == [values[params[0]]] + rest;
      assert Ssa.Names(all) == [params[0]] + Ssa.Names(rest);
    }
  }

  /** A lowered kernel takes its parameters, in their order, and no two of its outputs are the same
      value; by name they are exactly the destinations that its code stores to, at any nesting, in
      the order of the first stores. */
  lemma {:induction false} SignatureOfKernel(b: Builder, body: seq<Stmt>)
    requires LowerKernel(b, body).Success?
    ensures var p := LowerKernel(b, body).value;
        && Ssa.Names(p.inputs) == b.params && Distinct(p.outputs) && |p.blocks| == 1
        && Onto([], Ssa.Names(p.outputs)) == Onto([], StoredBy(p.blocks[0].operations))
        && forall name :: name in Ssa.Names(p.outputs) <==> name in StoredBy(p.blocks[0].operations)
  {
    hide LowerStmts;
    var empty := State(map[], [], 0);
    var (env, st) := EntryState(b, b.params, empty, map[]);
    var lowered := LowerStmts(b, body, env, st).value;
    EntryNames(b, b.params, empty, map[]);
    StmtsStore(b, body, env, st);
    LoweringKeepsNames(b, body, env, st);
    AllParams(b.params, lowered.st.values);
    OntoMembers([], Ssa.Names(lowered.st.outputs));
    OntoMembers([], StoredBy(lowered.ops));
    assert OutputNames(st) == [];
  }

  lemma {:induction false} LoweringKeepsNames(b: Builder, body: seq<Stmt>, env: Bindings, st: State)
    requires LowerStmts(b, body, env, st).Success?
    ensures st.values.Keys <= LowerStmts(b, body, env, st).value.st.values.Keys
  {
  }
}
