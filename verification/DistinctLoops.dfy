/** Kernels whose loops name their targets and what they carry apart: the slicer links the traces
    of every run of what they are lowered to as their values flowed. */
module DistinctLoops {
  import opened Wrappers
  import opened Ssa
  import opened Interpreter
  import opened Scoping
  import opened Frontend
  import opened Lowering
  import opened Slicing
  import SlicingCorrect
  import SliceTheorem
  import opened BackwardSlice
  import opened DistinctArguments

  /** The names of a list that are bound. */
  ghost function Among(names: seq<string>, bound: set<string>): seq<string> {
    if names == [] then []
    else (if names[0] in bound then [names[0]] else []) + Among(names[1..], bound)
  }

  ghost function Iterated(names: seq<string>): seq<string> {
    seq(|names|, i requires 0 <= i < |names| => "%" + names[i] + "_iter")
  }

  /** The arguments of a kernel's loops in order: each target, then the names that its loop
      carries, which are those that its body assigns and that are bound before it. */
  ghost function LoopNames(s: Stmt, bound: set<string>, params: set<string>): seq<string>
    decreases s, 0
  {
    match s
    case ForRange(target, _, body, _) =>
      (["%" + target] + Iterated(Among(AssignedNames(body), bound))) + AllLoopNames(body, bound + {target}, params)
    case IfElse(_, body, orelse) => AllLoopNames(body, bound, params) + AllLoopNames(orelse, bound, params)
    case _ => []
  }

  ghost function AllLoopNames(stmts: seq<Stmt>, bound: set<string>, params: set<string>): seq<string>
    decreases stmts, 0
  {
    if stmts == [] then []
    else LoopNames(stmts[0], bound, params) + AllLoopNames(stmts[1..], bound + Binds(stmts[0], params), params)
  }

  lemma {:induction false} CarriedAmong(touched: seq<string>, env: Bindings)
    ensures Carried(touched, env) == Among(touched, env.Keys)
    decreases |touched|
  {
    if touched != [] {
      CarriedAmong(touched[1..], env);
    }
  }

  lemma {:induction false} ArgumentListConcat(a: seq<Operation>, b: seq<Operation>)
    ensures ArgumentList(a + b) == ArgumentList(a) + ArgumentList(b)
    decreases |a|
  {
    if a == [] {
      assert a + b == b;
    } else {
      assert (a + b)[0] == a[0] && (a + b)[1..] == a[1..] + b;
      ArgumentListConcat(a[1..], b);
    }
  }

  lemma {:induction false} ArgumentListOne(op: Operation)
    ensures ArgumentList([op]) == RegionArgumentList(op.regions)
  {
    var one := [op];
    assert one[1..] == [];
  }

  lemma {:induction false} ExprHasNoArguments(b: Builder, e: Expr, env: Bindings, st: State)
    requires LowerExpr(b, e, env, st).Success?
    ensures ArgumentList(LowerExpr(b, e, env, st).value.ops) == []
    decreases e, 0
  {
    if e.Apply? && !(e.operator == UnaryOperator(Neg) && |e.args| == 1 && e.args[0].Literal?) {
      ExprsHaveNoArguments(b, e.args, env, st);
      var args := LowerExprs(b, e.args, env, st).value.ops;
      var last := LowerExpr(b, e, env, st).value.ops[|args|..];
      assert LowerExpr(b, e, env, st).value.ops == args + last;
      ArgumentListConcat(args, last);
    }
  }

  lemma {:induction false} ExprsHaveNoArguments(b: Builder, es: seq<Expr>, env: Bindings, st: State)
    requires LowerExprs(b, es, env, st).Success?
    ensures ArgumentList(LowerExprs(b, es, env, st).value.ops) == []
    decreases es, 0
  {
    if es != [] {
      ExprHasNoArguments(b, es[0], env, st);
      var first := LowerExpr(b, es[0], env, st).value;
      ExprsHaveNoArguments(b, es[1..], env, first.st);
      ArgumentListConcat(first.ops, LowerExprs(b, es[1..], env, first.st).value.ops);
    }
  }

  lemma {:induction false} ValuesHaveNoArguments(ops: seq<Operation>)
    requires forall op :: op in ops ==> op.regions == []
    ensures ArgumentList(ops) == []
    decreases |ops|
  {
    if ops != [] {
      assert ops[0] in ops;
      ValuesHaveNoArguments(ops[1..]);
    }
  }

  lemma {:induction false} LoopListed(target: string, carried: seq<string>, env: Bindings, limits: seq<Value>,
          inner: Lowered, results: seq<Value>)
    requires forall name :: name in carried ==> name in env && name in inner.env
    ensures ArgumentList([LoopOperation(target, carried, env, limits, inner, results)]) ==
        (["%" + target] + Iterated(carried)) + ArgumentList(inner.ops)
  {
    var op, last := LoopOperation(target, carried, env, limits, inner, results), YieldOf(carried, inner.env);
    var region := LoopRegion(target, carried, env, inner);
    ArgumentListOne(op);
    assert op.regions == [region] && op.regions[1..] == [];
    ArgumentListConcat(inner.ops, [last]);
    ValuesHaveNoArguments([last]);
    assert Ssa.Names(region.args) == ["%" + target] + Iterated(carried);
    assert RegionArgumentList([region]) == Ssa.Names(region.args) + ArgumentList(region.operations)
        + RegionArgumentList([]);
  }

  lemma {:induction false} BranchListed(flag: string, touched: seq<string>, results: seq<Value>, thenBranch: Lowered,
          elseBranch: Lowered, hasElse: bool)
    requires forall name :: name in touched ==> name in thenBranch.env && name in elseBranch.env
    requires !hasElse ==> elseBranch.ops == []
    ensures ArgumentList([BranchOperation(flag, touched, results, thenBranch, elseBranch, hasElse)]) ==
        ArgumentList(thenBranch.ops) + ArgumentList(elseBranch.ops)
  {
    var op := BranchOperation(flag, touched, results, thenBranch, elseBranch, hasElse);
    ArgumentListOne(op);
    if touched != [] {
      ArgumentListConcat(thenBranch.ops, [YieldOf(touched, thenBranch.env)]);
      ArgumentListConcat(elseBranch.ops, [YieldOf(touched, elseBranch.env)]);
      ValuesHaveNoArguments([YieldOf(touched, thenBranch.env)]);
      ValuesHaveNoArguments([YieldOf(touched, elseBranch.env)]);
    }
    TwoRegions(op.regions);
  }

  lemma {:induction false} TwoRegions(regions: seq<Block>)
    requires |regions| in {1, 2} && forall region :: region in regions ==> region.args == []
    ensures RegionArgumentList(regions) ==
        ArgumentList(regions[0].operations) + if |regions| == 2 then ArgumentList(regions[1].operations) else []
  {
    assert regions[0] in regions;
    assert Ssa.Names([]) == [];
    if |regions| == 2 {
      assert regions[1] in regions && regions[1..][1..] == [] && regions[1..][0] == regions[1];
      assert RegionArgumentList(regions[1..]) == [] + ArgumentList(regions[1].operations) + [];
    }
  }

  lemma {:induction false} StmtListed(k: Kernel, b: Builder, s: Stmt, env: Bindings, st: State)
    requires Matches(k, b) && LowerStmt(b, s, env, st).Success?
    ensures ArgumentList(LowerStmt(b, s, env, st).value.ops) == LoopNames(s, env.Keys, k.params)
    decreases s, 0, 1
  {
    hide LowerExpr, LowerExprs, LowerStmts, LoopOperation, BranchOperation, ArgumentList;
    match s {
      case Assign(_, value) =>
        ExprHasNoArguments(b, value, env, st);
        SimpleListed(LowerExpr(b, value, env, st).value.ops, LowerStmt(b, s, env, st).value.ops);
      case AssignAt(target, value, indices) => StoreListed(b, s, env, st);
      case AugAssign(_, _, value) =>
        ExprHasNoArguments(b, value, env, st);
        SimpleListed(LowerExpr(b, value, env, st).value.ops, LowerStmt(b, s, env, st).value.ops);
      case ForRange(target, bounds, body, _) => ForListed(k, b, s, env, st);
      case IfElse(test, body, orelse) => IfListed(k, b, s, env, st);
      case Evaluate(value) => ExprHasNoArguments(b, value, env, st);
      case Pass => ValuesHaveNoArguments([]);
    }
  }

  lemma {:induction false} SimpleListed(a: seq<Operation>, all: seq<Operation>)
    requires |a| <= |all| && all[..|a|] == a && ArgumentList(a) == []
    requires forall op :: op in all[|a|..] ==> op.regions == []
    ensures ArgumentList(all) == []
  {
    assert all == a + all[|a|..];
    ArgumentListConcat(a, all[|a|..]);
    ValuesHaveNoArguments(all[|a|..]);
  }

  lemma {:induction false} StoreListed(b: Builder, s: Stmt, env: Bindings, st: State)
    requires s.AssignAt? && LowerStmt(b, s, env, st).Success?
    ensures ArgumentList(LowerStmt(b, s, env, st).value.ops) == []
  {
    hide LowerExpr, LowerExprs, ArgumentList;
    var v := LowerExpr(b, s.value, env, st).value;
    var destination := LowerName(b, s.target, env, v.st).value;
    var at := LowerExprs(b, s.indices, env, AddOutput(destination.1, destination.0)).value;
    var last := [StoreTo(v.value.name, destination.0.name, Ssa.Names(at.values))];
    ExprHasNoArguments(b, s.value, env, st);
    ExprsHaveNoArguments(b, s.indices, env, AddOutput(destination.1, destination.0));
    ValuesHaveNoArguments(last);
    ArgumentListConcat(v.ops, at.ops + last);
    ArgumentListConcat(at.ops, last);
  }

  lemma {:induction false} ForListed(k: Kernel, b: Builder, s: Stmt, env: Bindings, st: State)
    requires Matches(k, b) && s.ForRange? && LowerStmt(b, s, env, st).Success?
    ensures ArgumentList(LowerStmt(b, s, env, st).value.ops) == LoopNames(s, env.Keys, k.params)
    decreases s, 0, 0
  {
    hide LowerExpr, LowerExprs, LowerStmts, LoopOperation, ArgumentList, AssignedNames;
    var range := RangeBounds(s.bounds).value;
    var limits := LowerExprs(b, [range.0, range.1, range.2], env, st).value;
    var carried := Carried(AssignedNames(s.body), env);
    var inner := LowerStmts(b, s.body, LoopBindings(s.target, carried, env), limits.st).value;
    var results := Temps(inner.st, carried, env).0;
    ExprsHaveNoArguments(b, [range.0, range.1, range.2], env, st);
    CarriedAmong(AssignedNames(s.body), env);
    assert LoopBindings(s.target, carried, env).Keys == env.Keys + {s.target};
    StmtsListed(k, b, s.body, LoopBindings(s.target, carried, env), limits.st);
    LoopListed(s.target, carried, env, limits.values, inner, results);
    ArgumentListConcat(limits.ops, [LoopOperation(s.target, carried, env, limits.values, inner, results)]);
  }

  lemma {:induction false} IfListed(k: Kernel, b: Builder, s: Stmt, env: Bindings, st: State)
    requires Matches(k, b) && s.IfElse? && LowerStmt(b, s, env, st).Success?
    ensures ArgumentList(LowerStmt(b, s, env, st).value.ops) == LoopNames(s, env.Keys, k.params)
    decreases s, 0, 0
  {
    hide LowerExpr, LowerExprs, BranchOperation, ArgumentList, AssignedNames;
    var condition := LowerExpr(b, s.test, env, st).value;
    var (flag, env1, st1) := EnsureBool(condition.value, env, condition.st);
    var touched := Carried(AssignedNames(s.body + s.orelse), env1);
    var thenBranch := LowerStmts(b, s.body, env1, st1).value;
    var elseBranch := LowerStmts(b, s.orelse, env1, thenBranch.st).value;
    var results := Temps(elseBranch.st, touched, env1).0;
    ExprHasNoArguments(b, s.test, env, st);
    StmtsListed(k, b, s.body, env1, st1);
    StmtsListed(k, b, s.orelse, env1, thenBranch.st);
    BranchListed(flag.name, touched, results, thenBranch, elseBranch, s.orelse != []);
    ArgumentListConcat(condition.ops,
        [BranchOperation(flag.name, touched, results, thenBranch, elseBranch, s.orelse != [])]);
  }

  lemma {:induction false} StmtsListed(k: Kernel, b: Builder, stmts: seq<Stmt>, env: Bindings, st: State)
    requires Matches(k, b) && LowerStmts(b, stmts, env, st).Success?
    ensures ArgumentList(LowerStmts(b, stmts, env, st).value.ops) == AllLoopNames(stmts, env.Keys, k.params)
    decreases stmts, 0, 1
  {
    hide LowerStmt, LoopNames;
    if stmts != [] {
      StmtListed(k, b, stmts[0], env, st);
      LoweredBinds(k, b, stmts[0], env, st);
      var first := LowerStmt(b, stmts[0], env, st).value;
      StmtsListed(k, b, stmts[1..], first.env, first.st);
      ArgumentListConcat(first.ops, LowerStmts(b, stmts[1..], first.env, first.st).value.ops);
    }
  }

  /** An accepted kernel no two of whose loops bind or carry the same name: on every full trace of
      it each event is linked to exactly the events its values came from. */
  lemma {:induction false} DistinctLoopsLinkRight(k: Kernel, b: Builder, body: seq<Stmt>, launches: seq<Launch>)
    requires Matches(k, b) && LowerKernel(b, body).Success? && VerifyProgram(LowerKernel(b, body).value).Success?
    requires Distinct(AllLoopNames(body, k.params, k.params))
    requires Succeeds(LowerKernel(b, body).value.blocks[0].operations, launches)
    requires forall i, j :: 0 <= i < j < |launches| ==> launches[i].key != launches[j].key
    ensures
      var program := LowerKernel(b, body).value;
      var ops, segments := program.blocks[0].operations, Executed(program.blocks[0].operations, launches);
      EdgesOf(ops, SliceTheorem.Dictionary(ops), NO_TABLES, SliceTheorem.Trace(segments), 0) ==
          SliceTheorem.TraceLinks(segments, 0, SliceTheorem.EntryProv(Needed(program)))
  {
    hide LowerStmts, VerifyProgram, EdgesOf, SliceTheorem.TraceLinks, ScopedOperations;
    var program := LowerKernel(b, body).value;
    var (env, st) := EntryState(b, b.params, State(map[], [], 0), map[]);
    EntryBindings(b, b.params, State(map[], [], 0), map[]);
    var none: Bindings := map[];
    assert Elements(b.params) == k.params && none.Keys + k.params == k.params;
    assert env.Keys == k.params;
    StmtsListed(k, b, body, env, st);
    assert program.blocks[0].operations == LowerStmts(b, body, env, st).value.ops;
    KernelScoped(k, b, body);
    DistinctArgumentsFit(program.blocks[0].operations, ProgramSymbols(program) + k.params);
    AcceptedTracesLinkRight(program, launches);
  }
}
