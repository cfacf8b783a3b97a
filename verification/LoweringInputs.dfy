/** Kernel bodies that lowering does not preserve, each lowered to a program that the verifier
    accepts: a loop with an `else`, a loop whose target is bound outside and assigned inside,
    and a name bound only inside a branch that is also a shape symbol. */
module LoweringInputs {
  import opened Wrappers
  import opened Ssa
  import opened VerifierSteps
  import opened Interpreter
  import opened Scoping
  import opened Frontend
  import opened ScopedMeaning
  import Lowering
  import opened StaleNames
  import opened LoweringCorrect
  import opened ScopesMatter

  // ----- x = v; for target in range(stop): x = x -----

  function Keep(): seq<Stmt> {
    [Assign("x", Name("x"))]
  }

  function LoopBody(v: int, target: string, stop: int, orelse: seq<Stmt>): seq<Stmt> {
    [Assign("x", Literal(v)), ForRange(target, [Literal(stop)], Keep(), orelse)]
  }

  function ConstantOp(result: string, value: int): Operation {
    Operation(Constant(value), [], [Value(result, SCALAR_INT)], NO_ATTRS, [])
  }

  function LoopOp(target: string): Operation {
    Operation(For, ["%1", "%2", "%3", "%0"], [Value("%x_4", SCALAR_INT)],
              NO_ATTRS.(induction := "%" + target, iterArgs := [IterArg("x", "%0", "%x_iter")]),
              [Block([Value("%" + target, INDEX), Value("%x_iter", SCALAR_INT)],
                  [Operation(Yield, ["%x_iter"], [], NO_ATTRS, [])])])
  }

  function LoopOps(v: int, target: string, stop: int): seq<Operation> {
    [ConstantOp("%0", v), ConstantOp("%1", 0), ConstantOp("%2", stop), ConstantOp("%3", 1), LoopOp(target)]
  }

  function LoopProgram(v: int, target: string, stop: int): Program {
    Program([], [], [Block([], LoopOps(v, target, stop))], {})
  }

  function Plain(typing: Typing, symbols: set<string>): Builder {
    Builder([], symbols, map[], typing)
  }

  lemma {:induction false} DigitNames()
    ensures "%" + Digits(0) == "%0" && "%" + Digits(1) == "%1" && "%" + Digits(2) == "%2" && "%" + Digits(3) == "%3"
    ensures "%" + "x" + "_" + Digits(4) == "%x_4"
  {
  }

  lemma {:induction false} ConstantLowers(b: Builder, v: int, env: Bindings, st: State)
    ensures LowerExpr(b, Literal(v), env, st).Success?
    ensures var r, name := LowerExpr(b, Literal(v), env, st).value, "%" + Digits(st.temps);
            r.ops == [ConstantOp(name, v)] && r.value == Value(name, SCALAR_INT) && r.st.temps == st.temps + 1
                && r.st.outputs == st.outputs
  {
  }

  /** The three bounds of the loop. */
  lemma {:induction false} BoundsLower(b: Builder, stop: int, env: Bindings, st: State)
    requires st.temps == 1
    ensures LowerExprs(b, [Literal(0), Literal(stop), Literal(1)], env, st).Success?
    ensures var r := LowerExprs(b, [Literal(0), Literal(stop), Literal(1)], env, st).value;
            r.ops == [ConstantOp("%1", 0), ConstantOp("%2", stop), ConstantOp("%3", 1)] && r.st.temps == 4
                && r.st.outputs == st.outputs
            && r.values == [Value("%1", SCALAR_INT), Value("%2", SCALAR_INT), Value("%3", SCALAR_INT)]
  {
    DigitNames();
    hide LowerExpr, Digits, ConstantOp;
    var es := [Literal(0), Literal(stop), Literal(1)];
    assert es[1..] == [Literal(stop), Literal(1)] && es[1..][1..] == [Literal(1)] && es[1..][1..][1..] == [];
    ConstantLowers(b, 0, env, st);
    var a := LowerExpr(b, Literal(0), env, st).value;
    ConstantLowers(b, stop, env, a.st);
    var c := LowerExpr(b, Literal(stop), env, a.st).value;
    ConstantLowers(b, 1, env, c.st);
    var d := LowerExpr(b, Literal(1), env, c.st).value;
    assert LowerExprs(b, [], env, d.st) == Success(LoweredExprs([], [], d.st));
    assert LowerExprs(b, es[1..][1..], env, c.st) == Success(LoweredExprs(d.ops + [], [d.value] + [], d.st));
    assert LowerExprs(b, es[1..], env, a.st) ==
        Success(LoweredExprs(c.ops + (d.ops + []), [c.value] + ([d.value] + []), d.st));
    assert LowerExprs(b, es, env, st) ==
        Success(LoweredExprs(a.ops + (c.ops + (d.ops + [])), [a.value] + ([c.value] + ([d.value] + [])), d.st));
    assert a.ops + (c.ops + (d.ops + [])) == [ConstantOp("%1", 0), ConstantOp("%2", stop), ConstantOp("%3", 1)];
    assert [a.value] + ([c.value] + ([d.value] + [])) ==
        [Value("%1", SCALAR_INT), Value("%2", SCALAR_INT), Value("%3", SCALAR_INT)];
  }

  lemma {:induction false} KeepLowers(b: Builder, env: Bindings, st: State)
    requires "x" in env && "x" !in b.params
    ensures LowerStmts(b, Keep(), env, st) == Success(Lowered([], env["x" := env["x"]], st))
    ensures AssignedNames(Keep()) == ["x"]
  {
    var stmts := Keep();
    assert stmts[1..] == [];
    assert LowerStmt(b, stmts[0], env, st) == Success(Lowered([], env["x" := env["x"]], st));
    assert LowerStmts(b, stmts[1..], env["x" := env["x"]], st) == Success(Lowered([], env["x" := env["x"]], st));
    var none: seq<Operation> := [];
    assert none + none == none;
    assert AssignedInAll(stmts[1..], ["x"]) == ["x"];
  }

  lemma {:induction false} ForLowers(b: Builder, target: string, stop: int, orelse: seq<Stmt>, env: Bindings, st: State,
          limits: LoweredExprs, inner: Lowered, results: seq<Value>, last: State)
    requires "x" in env && LowerExprs(b, [Literal(0), Literal(stop), Literal(1)], env, st) == Success(limits)
    requires Carried(AssignedNames(Keep()), env) == ["x"]
    requires LowerStmts(b, Keep(), LoopBindings(target, ["x"], env), limits.st) == Success(inner) && "x" in inner.env
    requires Temps(inner.st, ["x"], env) == (results, last)
    ensures LowerStmt(b, ForRange(target, [Literal(stop)], Keep(), orelse), env, st)
         == Success(Lowered(limits.ops + [LoopOperation(target, ["x"], env, limits.values, inner, results)],
             Rebind(["x"], results, env), last))
  {
    hide LowerExprs, LowerStmts, LoopBindings, AssignedNames, Carried, LoopOperation, Rebind, Temps;
  }

  lemma {:induction false} LoopLowers(b: Builder, target: string, stop: int, orelse: seq<Stmt>, env: Bindings,
          st: State)
    requires b.params == [] && env == map["x" := Value("%0", SCALAR_INT)] && st.temps == 1
    ensures LowerStmt(b, ForRange(target, [Literal(stop)], Keep(), orelse), env, st).Success?
    ensures var r := LowerStmt(b, ForRange(target, [Literal(stop)], Keep(), orelse), env, st).value;
            r.ops == [ConstantOp("%1", 0), ConstantOp("%2", stop), ConstantOp("%3", 1)] + [LoopOp(target)]
            && r.env == map["x" := Value("%x_4", SCALAR_INT)] && r.st.outputs == st.outputs
  {
    hide LowerExprs, LowerStmts, LowerStmt, LoopBindings, AssignedNames, LoopOperation, Rebind, Temps, LoopOp,
        ConstantOp;
    BoundsLower(b, stop, env, st);
    var limits := LowerExprs(b, [Literal(0), Literal(stop), Literal(1)], env, st).value;
    KeepLowers(b, env, st);
    OneCarried(env);
    InsideLoop(target, env);
    var within := LoopBindings(target, ["x"], env);
    KeepLowers(b, within, limits.st);
    var inner := Lowered([], within["x" := within["x"]], limits.st);
    ResultNamed(limits.st, env);
    LoopShape(target, env, limits.values, inner);
    var results, last := Temps(limits.st, ["x"], env).0, Temps(limits.st, ["x"], env).1;
    ForLowers(b, target, stop, orelse, env, st, limits, inner, results, last);
  }

  lemma {:induction false} OneCarried(env: Bindings)
    requires "x" in env && AssignedNames(Keep()) == ["x"]
    ensures Carried(AssignedNames(Keep()), env) == ["x"]
  {
    hide AssignedNames;
    var names := ["x"];
    assert names[1..] == [] && Carried(names[1..], env) == [];
  }

  lemma {:induction false} InsideLoop(target: string, env: Bindings)
    requires env == map["x" := Value("%0", SCALAR_INT)]
    ensures var within := LoopBindings(target, ["x"], env); "x" in within && within["x"] == Value("%x_iter", SCALAR_INT)
  {
    var carried := ["x"];
    var args := LoopArguments(carried, env);
    assert carried[1..] == [] && args[1..] == [];
    assert "%" + "x" + "_iter" == "%x_iter";
    var first := env[target := Value("%" + target, INDEX)]["x" := args[0]];
    assert Rebind(carried[1..], args[1..], first) == first;
  }

  lemma {:induction false} ResultNamed(st: State, env: Bindings)
    requires st.temps == 4 && env == map["x" := Value("%0", SCALAR_INT)]
    ensures
      var r := Temps(st, ["x"], env);
      r.0 == [Value("%x_4", SCALAR_INT)] && r.1.outputs == st.outputs
          && Rebind(["x"], r.0, env) == map["x" := Value("%x_4", SCALAR_INT)]
  {
    DigitNames();
    var names := ["x"];
    assert names[1..] == [];
    var next := Temp(st, SCALAR_INT, Some("x")).1;
    assert Temp(st, SCALAR_INT, Some("x")).0 == Value("%x_4", SCALAR_INT);
    assert Temps(next, names[1..], env) == ([], next);
    var values := [Value("%x_4", SCALAR_INT)];
    assert values[1..] == [] && Rebind(names[1..], values[1..], env["x" := values[0]]) == env["x" := values[0]];
  }

  lemma {:induction false} LoopShape(target: string, env: Bindings, limits: seq<Value>, inner: Lowered)
    requires env == map["x" := Value("%0", SCALAR_INT)]
    requires limits == [Value("%1", SCALAR_INT), Value("%2", SCALAR_INT), Value("%3", SCALAR_INT)]
    requires "x" in inner.env && inner.env["x"] == Value("%x_iter", SCALAR_INT) && inner.ops == []
    ensures LoopOperation(target, ["x"], env, limits, inner, [Value("%x_4", SCALAR_INT)]) == LoopOp(target)
  {
    var carried := ["x"];
    assert "%" + "x" + "_iter" == "%x_iter";
    assert LoopArguments(carried, env) == [Value("%x_iter", SCALAR_INT)];
    assert NamesIn(carried, env) == ["%0"];
    assert Ssa.Names(limits) == ["%1", "%2", "%3"];
    assert YieldOf(carried, inner.env) == Operation(Yield, ["%x_iter"], [], NO_ATTRS, []);
    var op := LoopOperation(target, carried, env, limits, inner, [Value("%x_4", SCALAR_INT)]);
    assert op.attrs.iterArgs == [IterArg("x", "%0", "%x_iter")];
    assert op.operands == ["%1", "%2", "%3", "%0"];
    assert op.regions[0].operations == [Operation(Yield, ["%x_iter"], [], NO_ATTRS, [])];
    assert op.regions[0].args == [Value("%" + target, INDEX), Value("%x_iter", SCALAR_INT)];
    assert op.regions == LoopOp(target).regions && op.attrs == LoopOp(target).attrs;
  }

  lemma {:induction false} FirstAssignment(b: Builder, v: int, st: State)
    requires b.params == [] && st.temps == 0
    ensures LowerStmt(b, Assign("x", Literal(v)), map[], st).Success?
    ensures
      var first := LowerStmt(b, Assign("x", Literal(v)), map[], st).value;
      first.ops == [ConstantOp("%0", v)] && first.env == map["x" := Value("%0", SCALAR_INT)]
          && first.st.temps == 1 && first.st.outputs == st.outputs
  {
    DigitNames();
    ConstantLowers(b, v, map[], st);
    hide LowerExpr, ConstantOp;
  }

  /** Two statements lower one after the other. */
  lemma {:induction false} TwoLower(b: Builder, stmts: seq<Stmt>, env: Bindings, st: State, first: Lowered,
          second: Lowered)
    requires |stmts| == 2 && LowerStmt(b, stmts[0], env, st) == Success(first)
    requires LowerStmt(b, stmts[1], first.env, first.st) == Success(second)
    ensures LowerStmts(b, stmts, env, st) == Success(Lowered(first.ops + second.ops, second.env, second.st))
  {
    hide LowerStmt;
    var rest := stmts[1..];
    assert rest == [stmts[1]] && rest[1..] == [];
    assert LowerStmts(b, rest[1..], second.env, second.st) == Success(Lowered([], second.env, second.st));
    assert second.ops + [] == second.ops;
  }

  lemma {:induction false} KernelLowers(b: Builder, stmts: seq<Stmt>, lowered: Lowered)
    requires b.params == [] && LowerStmts(b, stmts, map[], State(map[], [], 0)) == Success(lowered)
    requires lowered.st.outputs == []
    ensures LowerKernel(b, stmts) == Success(Program([], [], [Block([], lowered.ops)], b.symbols))
    ensures Lowering.FinalBindings(b, stmts).0 == lowered.env
  {
    hide LowerStmts;
  }

  /** The `else` leaves no trace in the lowered program. */
  lemma {:induction false} LoopBodyLowers(typing: Typing, v: int, target: string, stop: int, orelse: seq<Stmt>)
    ensures LowerKernel(Plain(typing, {}), LoopBody(v, target, stop, orelse)) == Success(LoopProgram(v, target, stop))
    ensures Lowering.FinalBindings(Plain(typing, {}), LoopBody(v, target, stop, orelse)).0 ==
        map["x" := Value("%x_4", SCALAR_INT)]
  {
    hide LowerKernel, LowerStmt, LowerStmts, LoopOp, ConstantOp, Lowering.FinalBindings;
    var b, stmts := Plain(typing, {}), LoopBody(v, target, stop, orelse);
    var st := State(map[], [], 0);
    FirstAssignment(b, v, st);
    var first := LowerStmt(b, stmts[0], map[], st).value;
    LoopLowers(b, target, stop, orelse, first.env, first.st);
    var second := LowerStmt(b, stmts[1], first.env, first.st).value;
    TwoLower(b, stmts, map[], st, first, second);
    assert first.ops + second.ops == LoopOps(v, target, stop);
    KernelLowers(b, stmts, Lowered(first.ops + second.ops, second.env, second.st));
  }

  const RESULTS := ["%0", "%1", "%2", "%3", "%x_4"]

  /** The scope after the first `k` operations. */
  function ScopeAt(k: nat): Scope
    requires k <= 5
  {
    if k == 0 then Scope(map[], {}) else Grown(ScopeAt(k - 1), RESULTS[k - 1], SCALAR_INT)
  }

  lemma {:induction false} ScopesAt()
    ensures ScopeAt(0) == Scope(map[], {}) && ScopeAt(1) == Grown(ScopeAt(0), "%0", SCALAR_INT)
    ensures ScopeAt(2) == Grown(ScopeAt(1), "%1", SCALAR_INT)
    ensures ScopeAt(3) == Grown(ScopeAt(2), "%2", SCALAR_INT) && ScopeAt(4) == Grown(ScopeAt(3), "%3", SCALAR_INT)
    ensures ScopeAt(5) == Grown(ScopeAt(4), "%x_4", SCALAR_INT)
    ensures ScopeAt(4).visible == map["%0" := SCALAR_INT, "%1" := SCALAR_INT, "%2" := SCALAR_INT, "%3" := SCALAR_INT]
    ensures ScopeAt(4).definitions == {"%0", "%1", "%2", "%3"}
    ensures NewIn(ScopeAt(0), "%0") && NewIn(ScopeAt(1), "%1") && NewIn(ScopeAt(2), "%2") && NewIn(ScopeAt(3), "%3")
  {
  }

  lemma {:induction false} LoopOpVerifies(target: string)
    requires target == "i" || target == "x"
    ensures VerifyOperation(LoopOp(target), true, ScopeAt(4), None) == Success(ScopeAt(5))
  {
    hide ScopeAt, VerifyOperation, VerifyOperations, IsCarryLoop, CarryReady;
    var s, op, operands, induction := ScopeAt(4), LoopOp(target), ["%1", "%2", "%3", "%0"], "%" + target;
    var body := [Operation(Yield, ["%x_iter"], [], NO_ATTRS, [])];
    ScopesAt();
    LoopOpReady(target);
    var inside := Inside(s, "%x_4", induction, "%x_iter", SCALAR_INT);
    YieldVerifies("%x_iter", inside, SCALAR_INT);
    CarryLoopVerifies(op, operands, "%x_4", induction, "%x_iter", SCALAR_INT, body, s, true, None, inside);
    assert inside.definitions - {induction, "%x_iter"} == s.definitions + {"%x_4"};
  }

  lemma {:induction false} LoopOpReady(target: string)
    requires target == "i" || target == "x"
    ensures "%" + target == if target == "i" then "%i" else "%x"
    ensures IsCarryLoop(LoopOp(target), ["%1", "%2", "%3", "%0"], "%x_4", "%" + target, "%x_iter", SCALAR_INT,
        [Operation(Yield, ["%x_iter"], [], NO_ATTRS, [])])
    ensures CarryReady(["%1", "%2", "%3", "%0"], "%x_4", "%" + target, "%x_iter", SCALAR_INT, ScopeAt(4))
  {
    hide ScopeAt;
    ScopesAt();
  }

  lemma {:induction false} LoopProgramAccepted(v: int, target: string, stop: int)
    requires target == "i" || target == "x"
    ensures VerifyProgram(LoopProgram(v, target, stop)).Success?
  {
    hide ScopeAt, VerifyOperation, VerifyOperations, ConstantOp, LoopOp;
    ConstantsVerify(v, stop);
    LoopOpVerifies(target);
    var last := LoopOp(target);
    assert !ConstantOp("%0", v).opcode.Yield? && !ConstantOp("%1", 0).opcode.Yield?
        && !ConstantOp("%2", stop).opcode.Yield? && !ConstantOp("%3", 1).opcode.Yield? by {
      ConstantsDoNotYield(v, stop);
    }
    FiveVerify(ConstantOp("%0", v), ConstantOp("%1", 0), ConstantOp("%2", stop), ConstantOp("%3", 1), last, ScopeAt(0),
        ScopeAt(1), ScopeAt(2), ScopeAt(3), ScopeAt(4), ScopeAt(5), None);
    EntryIsEmpty(v, target, stop);
    ScopesAt();
    BlockAccepted(LoopProgram(v, target, stop), ScopeAt(0), ScopeAt(5));
  }

  lemma {:induction false} ConstantsVerify(v: int, stop: int)
    ensures VerifyOperation(ConstantOp("%0", v), false, ScopeAt(0), None) == Success(ScopeAt(1))
    ensures VerifyOperation(ConstantOp("%1", 0), false, ScopeAt(1), None) == Success(ScopeAt(2))
    ensures VerifyOperation(ConstantOp("%2", stop), false, ScopeAt(2), None) == Success(ScopeAt(3))
    ensures VerifyOperation(ConstantOp("%3", 1), false, ScopeAt(3), None) == Success(ScopeAt(4))
  {
    ScopesAt();
    hide ScopeAt, VerifyOperation;
    PlainVerifies(ConstantOp("%0", v), false, ScopeAt(0), None);
    PlainVerifies(ConstantOp("%1", 0), false, ScopeAt(1), None);
    PlainVerifies(ConstantOp("%2", stop), false, ScopeAt(2), None);
    PlainVerifies(ConstantOp("%3", 1), false, ScopeAt(3), None);
  }

  lemma {:induction false} ConstantsDoNotYield(v: int, stop: int)
    ensures !ConstantOp("%0", v).opcode.Yield? && !ConstantOp("%1", 0).opcode.Yield?
    ensures !ConstantOp("%2", stop).opcode.Yield? && !ConstantOp("%3", 1).opcode.Yield?
  {
  }

  lemma {:induction false} EntryIsEmpty(v: int, target: string, stop: int)
    ensures EntryScope(LoopProgram(v, target, stop)) == Scope(map[], {})
    ensures ProgramSymbols(LoopProgram(v, target, stop)) == {}
  {
    assert ProgramSymbols(LoopProgram(v, target, stop)) == {};
  }

  lemma {:induction false} BlockAccepted(program: Program, s: Scope, finished: Scope)
    requires |program.blocks| == 1 && program.blocks[0].args == [] && program.outputs == [] && program.inputs == []
    requires EntryScope(program) == s
    requires VerifyOperations(program.blocks[0].operations, s, None) == Success(finished)
    ensures VerifyProgram(program).Success?
  {
    hide VerifyOperations;
    var block := program.blocks[0];
    assert BindArguments(block.args, s) == Success(s);
    assert VerifyBlock(block, s, None) == Success(Scope(finished.visible, finished.definitions - NameSet(block.args)));
    assert VerifyOutputs(program, [], {}, finished.visible) == Success(());
  }

  // ----- what the two runs make of it -----

  /** A kernel without arguments and shape symbols. */
  predicate Bare(k: Kernel) {
    k.params == {} && k.symbols == {}
  }

  lemma {:induction false} KeepRuns(k: Kernel, names: NameTable, mem: Memory)
    requires Bare(k) && "x" in names
    ensures RunStmts(k, Keep(), names, mem) == Success((names, mem))
    ensures ScopedStmts(k, Keep(), names, mem) == Success((names, mem))
  {
    var stmts := Keep();
    assert stmts[1..] == [] && names["x" := names["x"]] == names;
    assert RunStmt(k, stmts[0], names, mem) == Success((names, mem));
    assert ScopedStmt(k, stmts[0], names, mem) == Success((names, mem));
  }

  lemma {:induction false} LiteralBounds(k: Kernel, stop: int, names: NameTable, mem: Memory)
    ensures RangeOf(k, [Literal(stop)], names, mem) == Success((0, stop, 1))
  {
    Lowering.EvalOne(k, Literal(stop), names, mem);
    var vals := [Num(stop)];
    assert vals[1..] == [] && Scalars(vals, k.ctx, mem) == Success([stop] + []);
  }

  /** The second statement after the first, in both runs. */
  lemma {:induction false} TwoStatements(k: Kernel, v: int, target: string, stop: int, orelse: seq<Stmt>, mem: Memory)
    requires Bare(k)
    ensures var names, s := map["x" := Num(v)], ForRange(target, [Literal(stop)], Keep(), orelse);
            && RunStmts(k, LoopBody(v, target, stop, orelse), map[], mem) == RunStmt(k, s, names, mem)
            && ScopedStmts(k, LoopBody(v, target, stop, orelse), map[], mem) == ScopedStmt(k, s, names, mem)
  {
    var stmts, names: NameTable := LoopBody(v, target, stop, orelse), map["x" := Num(v)];
    assert stmts[1..] == [stmts[1]] && stmts[1..][1..] == [];
    assert RunStmt(k, stmts[0], map[], mem) == Success((names, mem));
    assert ScopedStmt(k, stmts[0], map[], mem) == Success((names, mem));
    hide RunStmt, ScopedStmt;
    var r, s := RunStmt(k, stmts[1], names, mem), ScopedStmt(k, stmts[1], names, mem);
    if r.Success? {
      assert RunStmts(k, stmts[1..][1..], r.value.0, r.value.1) == r;
    }
    if s.Success? {
      assert ScopedStmts(k, stmts[1..][1..], s.value.0, s.value.1) == s;
    }
    assert RunStmts(k, stmts[1..], names, mem) == r && ScopedStmts(k, stmts[1..], names, mem) == s;
  }

  /** The loop statement in both runs, once its bounds are known. */
  lemma {:induction false} ForRuns(k: Kernel, target: string, stop: int, orelse: seq<Stmt>, names: NameTable,
          mem: Memory)
    ensures var s, count := ForRange(target, [Literal(stop)], Keep(), orelse), RangeLength(0, stop, 1);
            var looped := RunLoop(k, target, Keep(), names, mem, 0, 1, count);
            && RunStmt(k, s, names, mem) ==
                (if looped.Failure? then Failure(looped.error) else RunStmts(k, orelse, looped.value.0, looped.value.1))
            && ScopedStmt(k, s, names, mem) == ScopedLoop(k, target, Keep(), names, mem, 0, 1, count)
  {
    LiteralBounds(k, stop, names, mem);
    hide RangeOf, RunLoop, ScopedLoop, RunStmts, RangeLength;
  }

  /** `x = 0`, a loop without rounds, and `else: x = 1`: the direct run ends with 1, the
      lowered program with 0. */
  lemma {:induction false} ElseInput(typing: Typing, k: Kernel, mem: Memory)
    requires Bare(k)
    ensures var b, body := Plain(typing, {}), LoopBody(0, "i", 0, [Assign("x", Literal(1))]);
            && LowerKernel(b, body).Success? && VerifyProgram(LowerKernel(b, body).value).Success?
            && !Preserved(k, b, body, mem)
  {
    hide LowerKernel, VerifyProgram, Preserved, LoopProgram, ProgramSymbols, RunStmts, ScopedStmts, RunStmt, ScopedStmt,
        RunLoop, ScopedLoop, LoopBody, Keep;
    var b, orelse := Plain(typing, {}), [Assign("x", Literal(1))];
    var body, names: NameTable := LoopBody(0, "i", 0, orelse), map["x" := Num(0)];
    LoopBodyLowers(typing, 0, "i", 0, orelse);
    LoopProgramAccepted(0, "i", 0);
    EntryIsEmpty(0, "i", 0);
    PreservedExactly(k, b, body, mem);
    NoArguments(k);
    TwoStatements(k, 0, "i", 0, orelse, mem);
    ForRuns(k, "i", 0, orelse, names, mem);
    ElseRuns(k, names, mem);
    assert RangeLength(0, 0, 1) == 0;
    LoopSteps(k, "i", Keep(), names, names, mem, 0, 1, 0);
  }

  lemma {:induction false} NoArguments(k: Kernel)
    requires Bare(k)
    ensures Lowering.Arguments(k) == map[]
  {
  }

  lemma {:induction false} ElseRuns(k: Kernel, names: NameTable, mem: Memory)
    requires Bare(k)
    ensures RunStmts(k, [Assign("x", Literal(1))], names, mem) == Success((names["x" := Num(1)], mem))
  {
    var stmts := [Assign("x", Literal(1))];
    assert stmts[1..] == [];
    assert RunStmt(k, stmts[0], names, mem) == Success((names["x" := Num(1)], mem));
  }

  /** `x = 5` and `for x in range(1): x = x`: the direct run ends with the induction value 0,
      the lowered program with 5. */
  lemma {:induction false} TargetInput(typing: Typing, k: Kernel, mem: Memory)
    requires Bare(k)
    ensures var b, body := Plain(typing, {}), LoopBody(5, "x", 1, []);
            && LowerKernel(b, body).Success? && VerifyProgram(LowerKernel(b, body).value).Success?
            && !Preserved(k, b, body, mem)
  {
    hide LowerKernel, VerifyProgram, Preserved, LoopProgram, ProgramSymbols, RunStmts, ScopedStmts, RunStmt, ScopedStmt,
        RunLoop, ScopedLoop, LoopBody, Keep;
    var b := Plain(typing, {});
    var body, names: NameTable := LoopBody(5, "x", 1, []), map["x" := Num(5)];
    LoopBodyLowers(typing, 5, "x", 1, []);
    LoopProgramAccepted(5, "x", 1);
    EntryIsEmpty(5, "x", 1);
    PreservedExactly(k, b, body, mem);
    NoArguments(k);
    TwoStatements(k, 5, "x", 1, [], mem);
    ForRuns(k, "x", 1, [], names, mem);
    OneRound(k, names, mem);
    NothingMore(k, names["x" := Num(0)], mem);
    assert RangeLength(0, 1, 1) == 1;
  }

  lemma {:induction false} OneRound(k: Kernel, names: NameTable, mem: Memory)
    requires Bare(k) && names == map["x" := Num(5)]
    ensures RunLoop(k, "x", Keep(), names, mem, 0, 1, 1) == Success((names["x" := Num(0)], mem))
    ensures ScopedLoop(k, "x", Keep(), names, mem, 0, 1, 1) == Success((names, mem))
  {
    var entered := names["x" := Num(0)];
    KeepRuns(k, entered, mem);
    KeepRuns(k, names, mem);
    KeepLowers(Plain(Typing((_, _) => INDEX), {}), map["x" := Value("%0", INDEX)], State(map[], [], 0));
    assert Entered("x", Keep(), names, 0) == names && Back(names, names, AssignedNames(Keep())) == names;
    LoopSteps(k, "x", Keep(), names, names, mem, 0, 1, 1);
    LoopSteps(k, "x", Keep(), entered, names, mem, 1, 1, 0);
  }

  // ----- if 1: N = 0 -- then x = N, where N is a shape symbol -----

  function Shadow(): seq<Stmt> {
    [Assign("N", Literal(0))]
  }

  function ShadowBody(): seq<Stmt> {
    [IfElse(Literal(1), Shadow(), []), Assign("x", Name("N"))]
  }

  function BranchOp(): Operation {
    Operation(If, ["%0"], [], NO_ATTRS, [Block([], [ConstantOp("%1", 0)])])
  }

  function ShadowProgram(): Program {
    Program([], [], [Block([], [ConstantOp("%0", 1), BranchOp()])], {"N"})
  }

  lemma {:induction false} ShadowLowers(b: Builder, st: State)
    requires b.params == [] && st.temps == 1
    ensures LowerStmts(b, Shadow(), map[], st).Success? && AssignedNames(Shadow() + []) == ["N"]
    ensures
      var r := LowerStmts(b, Shadow(), map[], st).value;
      r.ops == [ConstantOp("%1", 0)] && r.st.outputs == st.outputs && ("N" in r.st.values <==> "N" in st.values)
  {
    DigitNames();
    var stmts := Shadow();
    assert stmts[1..] == [] && Shadow() + [] == stmts;
    ConstantLowers(b, 0, map[], st);
    var first := LowerStmt(b, stmts[0], map[], st).value;
    assert LowerStmts(b, stmts[1..], first.env, first.st) == Success(Lowered([], first.env, first.st));
    assert first.ops + [] == [ConstantOp("%1", 0)];
    assert AssignedInAll(stmts[1..], ["N"]) == ["N"];
    assert "%1" != "N" && first.st.values.Keys == st.values.Keys + {"%1"};
  }

  lemma {:induction false} BranchLowers(b: Builder, st: State)
    requires b.params == [] && st.temps == 0
    ensures LowerStmt(b, IfElse(Literal(1), Shadow(), []), map[], st).Success?
    ensures var r := LowerStmt(b, IfElse(Literal(1), Shadow(), []), map[], st).value;
            r.ops == [ConstantOp("%0", 1), BranchOp()] && r.env == map[] && r.st.outputs == st.outputs
                && ("N" in r.st.values <==> "N" in st.values)
  {
    DigitNames();
    ConstantLowers(b, 1, map[], st);
    var condition := LowerExpr(b, Literal(1), map[], st).value;
    assert EnsureBool(condition.value, map[], condition.st) == (condition.value, map[], condition.st);
    assert "%0" != "N" && condition.st.values.Keys == st.values.Keys + {"%0"};
    ShadowLowers(b, condition.st);
    var inner := LowerStmts(b, Shadow(), map[], condition.st).value;
    assert Carried(["N"], map[]) == [] by {
      assert ["N"][1..] == [];
    }
    assert LowerStmts(b, [], map[], inner.st) == Success(Lowered([], map[], inner.st));
    hide LowerExpr, LowerStmts, AssignedNames, EnsureBool, ConstantOp;
    assert [ConstantOp("%0", 1)] + [BranchOp()] == [ConstantOp("%0", 1), BranchOp()];
  }

  lemma {:induction false} ShadowBodyLowers(typing: Typing)
    ensures LowerKernel(Plain(typing, {"N"}), ShadowBody()) == Success(ShadowProgram())
    ensures Lowering.FinalBindings(Plain(typing, {"N"}), ShadowBody()).0 == map["x" := Value("N", SYMBOL_INDEX)]
  {
    var b, stmts, st := Plain(typing, {"N"}), ShadowBody(), State(map[], [], 0);
    assert EntryState(b, b.params, st, map[]) == (map[], st);
    BranchLowers(b, st);
    var first := LowerStmt(b, stmts[0], map[], st).value;
    var second := LowerStmt(b, stmts[1], map[], first.st).value;
    assert second.ops == [] && second.env == map["x" := Value("N", SYMBOL_INDEX)]
        && second.st.outputs == first.st.outputs;
    hide LowerStmt, ConstantOp, BranchOp;
    assert stmts[1..] == [stmts[1]] && stmts[1..][1..] == [];
    assert LowerStmts(b, stmts[1..][1..], second.env, second.st) == Success(Lowered([], second.env, second.st));
    assert LowerStmts(b, stmts[1..], map[], first.st) == Success(Lowered(second.ops + [], second.env, second.st));
    assert first.ops + (second.ops + []) == first.ops;
    assert ParamValues([], second.st.values) == [];
  }

  lemma {:induction false} BranchVerifies(s: Scope)
    requires "%0" in s.visible && NewIn(s, "%1")
    ensures VerifyOperation(BranchOp(), true, s, None) == Success(Scope(s.visible, s.definitions + {"%1"}))
  {
    var op := BranchOp();
    var inner := op.regions[0];
    PlainVerifies(ConstantOp("%1", 0), true, s, Some([]));
    VerifyOne(ConstantOp("%1", 0), s, Grown(s, "%1", SCALAR_INT), Some([]));
    assert BindArguments(inner.args, s) == Success(s);
    assert inner.operations == [ConstantOp("%1", 0)];
    hide VerifyOperations;
    assert VerifyBlock(inner, s, Some([])) ==
        Success(Scope(s.visible["%1" := SCALAR_INT], s.definitions + {"%1"} - NameSet(inner.args)));
    assert s.definitions + {"%1"} - NameSet(inner.args) == s.definitions + {"%1"};
    assert op.regions[1..] == [] && Slots(op, s.visible) == [];
    assert VerifyRegions(op.regions, s, []) == Success(s.definitions + {"%1"});
    assert DefineResults(op.results, s.visible, s.definitions) == Success(s.definitions)
        && Bind(s.visible, op.results) == s.visible;
    assert References(op) == ["%0"];
  }

  lemma {:induction false} ShadowAccepted()
    ensures VerifyProgram(ShadowProgram()).Success? && ProgramSymbols(ShadowProgram()) == {"N"}
  {
    hide VerifyProgram, Bind;
    var program, s0 := ShadowProgram(), Scope(map["N" := INDEX], {});
    assert ProgramSymbols(program) == {"N"};
    assert EntryScope(program).visible == s0.visible && EntryScope(program).definitions == s0.definitions;
    var s1 := Grown(s0, "%0", SCALAR_INT);
    PlainVerifies(ConstantOp("%0", 1), false, s0, None);
    BranchVerifies(s1);
    hide VerifyOperation, VerifyOperations, ConstantOp, BranchOp;
    var finished := Scope(s1.visible, s1.definitions + {"%1"});
    VerifyOne(BranchOp(), s1, finished, None);
    ConstantDoesNotYield();
    VerifyCons(ConstantOp("%0", 1), [BranchOp()], s0, s1, None, Success(finished));
    assert [ConstantOp("%0", 1)] + [BranchOp()] == program.blocks[0].operations;
    BlockAccepted(program, s0, finished);
  }

  lemma {:induction false} ConstantDoesNotYield()
    ensures !ConstantOp("%0", 1).opcode.Yield?
  {
  }

  lemma {:induction false} BranchTaken(k: Kernel, mem: Memory)
    requires k.params == {}
    ensures RunStmt(k, IfElse(Literal(1), Shadow(), []), map[], mem) == Success((map["N" := Num(0)], mem))
    ensures ScopedStmt(k, IfElse(Literal(1), Shadow(), []), map[], mem) == Success((map[], mem))
  {
    var stmts, names: NameTable := Shadow(), map["N" := Num(0)];
    assert stmts[1..] == [] && EvalExpr(k, Literal(1), map[], mem) == Success(Num(1))
        && ScalarOf(Num(1), k.ctx, mem) == Success(1);
    assert RunStmt(k, stmts[0], map[], mem) == Success((names, mem));
    assert ScopedStmt(k, stmts[0], map[], mem) == Success((names, mem));
    assert RunStmts(k, stmts, map[], mem) == Success((names, mem));
    assert ScopedStmts(k, stmts, map[], mem) == Success((names, mem));
    hide AssignedNames;
    assert Back(map[], names, AssignedNames(Shadow() + [])) == map[];
  }

  lemma {:induction false} ShadowIsRegular(kinds: Kinds)
    requires kinds == Kinds({}, {"N"})
    ensures var prefix := [IfElse(Literal(1), Shadow(), [])];
            && RegularAll(prefix, {}, {}, kinds) && LeftAll(prefix, {}, {}, kinds) == {"N"}
            && BoundAfter(prefix, {}, {}) == {}
  {
    var s, prefix := IfElse(Literal(1), Shadow(), []), [IfElse(Literal(1), Shadow(), [])];
    assert prefix[1..] == [] && Shadow()[1..] == [];
    assert Lowering.TouchesAll(Shadow()[1..]) == {} && Lowering.TouchesAll(Shadow()) == {"N"};
    assert LeftAll(Shadow()[1..], {"N"}, {}, kinds) == {};
    assert Left(Shadow()[0], {}, {}, kinds) == {} && LeftAll(Shadow(), {}, {}, kinds) == {};
    assert Left(s, {}, {}, kinds) == {"N"};
    assert RegularAll(Shadow()[1..], {"N"}, {}, kinds);
  }

  /** The direct run ends with x = 0, the lowered program with the value of the symbol. */
  lemma {:induction false} ShadowInput(typing: Typing, k: Kernel, mem: Memory)
    requires k.params == {} && k.symbols == {"N"} && "N" in k.entry
    ensures var b, body := Plain(typing, {"N"}), ShadowBody();
            && LowerKernel(b, body).Success? && VerifyProgram(LowerKernel(b, body).value).Success?
            && (Preserved(k, b, body, mem) <==> k.entry["N"] == Num(0))
  {
    hide LowerKernel, VerifyProgram, Preserved, ShadowProgram, ProgramSymbols, RunStmt, RegularAll, LeftAll, BoundAfter,
        Shadow;
    var b, branch := Plain(typing, {"N"}), IfElse(Literal(1), Shadow(), []);
    ShadowBodyLowers(typing);
    ShadowAccepted();
    ShadowIsRegular(KindsOf(k));
    BranchTaken(k, mem);
    assert Lowering.Arguments(k) == map[];
    var prefix := [branch];
    OneStatement(k, branch, map[], mem);
    assert prefix + [Assign("x", Name("N"))] == ShadowBody();
    ShadowedSymbolExact(k, b, prefix, "N", "x", mem);
  }

  lemma {:induction false} OneStatement(k: Kernel, s: Stmt, names: NameTable, mem: Memory)
    ensures RunStmts(k, [s], names, mem) == RunStmt(k, s, names, mem)
  {
    hide RunStmt;
    var stmts := [s];
    var r := RunStmt(k, s, names, mem);
    assert stmts[1..] == [];
    if r.Success? {
      assert RunStmts(k, stmts[1..], r.value.0, r.value.1) == r;
    }
  }

  // ----- for x in range(6, 8): y = x; x = 7 -- with x and y bound before -----

  function LateBody(): seq<Stmt> {
    [Assign("y", Name("x")), Assign("x", Literal(7))]
  }

  /** Setting the target may matter in a round and not after the loop: here the first round
      leaves another `y`, the second makes up for it. */
  lemma {:induction false} RoundsMayDiffer(k: Kernel, mem: Memory)
    requires k.params == {}
    ensures var names: NameTable := map["x" := Num(5), "y" := Num(0)];
            && !RoundsBlind(k, "x", LateBody(), names, mem, 6, 1, 2)
            && RunLoop(k, "x", LateBody(), names, mem, 6, 1, 2) == Repeat(k, LateBody(), names, mem, 2)
  {
    var names: NameTable := map["x" := Num(5), "y" := Num(0)];
    var first, other, done: NameTable := map["x" := Num(7), "y" := Num(6)], map["x" := Num(7), "y" := Num(5)],
        map["x" := Num(7), "y" := Num(7)];
    LateRound(k, names["x" := Num(6)], mem);
    LateRound(k, names, mem);
    LateRound(k, first["x" := Num(7)], mem);
    LateRound(k, other, mem);
    hide RunStmts, LateBody;
    assert first["y"] != other["y"];
    assert RunStmts(k, LateBody(), names["x" := Num(6)], mem) == Success((first, mem));
    assert RunStmts(k, LateBody(), names, mem) == Success((other, mem));
    assert RunLoop(k, "x", LateBody(), done, mem, 8, 1, 0) == Success((done, mem));
    assert RunLoop(k, "x", LateBody(), first, mem, 7, 1, 1) == Success((done, mem));
    assert Repeat(k, LateBody(), done, mem, 0) == Success((done, mem));
    assert Repeat(k, LateBody(), other, mem, 1) == Success((done, mem));
  }

  lemma {:induction false} LateRound(k: Kernel, names: NameTable, mem: Memory)
    requires k.params == {} && names.Keys == {"x", "y"}
    ensures RunStmts(k, LateBody(), names, mem) == Success((map["x" := Num(7), "y" := names["x"]], mem))
  {
    var stmts, next := LateBody(), names["y" := names["x"]];
    assert stmts[1..] == [stmts[1]] && stmts[1..][1..] == [];
    assert RunStmt(k, stmts[0], names, mem) == Success((next, mem));
    assert RunStmt(k, stmts[1], next, mem) == Success((next["x" := Num(7)], mem));
    hide RunStmt;
    OneStatement(k, stmts[1], next, mem);
    assert next["x" := Num(7)] == map["x" := Num(7), "y" := names["x"]];
  }
}
