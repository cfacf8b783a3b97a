/** What acceptance by the verifier means: names are globally unique and never
    rebound where they are visible, and running an accepted program never misses a
    name nor meets a region that yields the wrong number of values. */
module Scoping {
  import opened Wrappers
  import opened Ssa
  import opened VerifierSteps
  import opened Interpreter

  // ----- static meaning -----

  /** The shape each kind of operation is promised to have. */
  ghost predicate Shaped(op: Operation) {
    match op.opcode
    case For =>
      && |op.regions| == 1 && |op.operands| == |op.results| + 3
      && |op.regions[0].args| == |op.results| + 1 && EndsWithYield(op.regions[0], |op.results|)
    case If =>
      && |op.operands| == 1 && (op.results != [] ==> |op.regions| == 2)
      && forall region :: region in op.regions ==>
          region.args == [] && (op.results != [] ==> EndsWithYield(region, |op.results|))
    case Store => |op.operands| >= 2 && op.results == [] && op.regions == []
    case Yield => op.results == [] && op.regions == []
    case _ => op.regions == []
  }

  ghost predicate ScopedOperation(op: Operation, visible: set<string>)
    decreases op, 0
  {
    && Shaped(op)
    && (forall name :: name in References(op) ==> name in visible)
    && DistinctNames(op.results)
    && NameSet(op.results) !! visible
    && forall region :: region in op.regions ==> ScopedBlock(region, visible)
  }

  ghost predicate ScopedOperations(ops: seq<Operation>, visible: set<string>)
    decreases ops, 0
  {
    || ops == []
    || (&& ScopedOperation(ops[0], visible)
        && (ops[0].opcode.Yield? ==> |ops| == 1)
        && ScopedOperations(ops[1..], visible + NameSet(ops[0].results)))
  }

  ghost predicate ScopedBlock(block: Block, visible: set<string>)
    decreases block, 0
  {
    && DistinctNames(block.args)
    && NameSet(block.args) !! visible
    && ScopedOperations(block.operations, visible + NameSet(block.args))
  }

  /** Every result name of a sequence of operations, nested regions included. */
  ghost function ResultNames(ops: seq<Operation>): seq<string>
    decreases ops, 0
  {
    if ops == [] then [] else Names(ops[0].results) + RegionResultNames(ops[0].regions) + ResultNames(ops[1..])
  }

  ghost function RegionResultNames(regions: seq<Block>): seq<string>
    decreases regions, 0
  {
    if regions == [] then [] else ResultNames(regions[0].operations) + RegionResultNames(regions[1..])
  }

  ghost predicate Distinct(names: seq<string>) {
    forall i, j :: 0 <= i < j < |names| ==> names[i] != names[j]
  }

  ghost function Elements(names: seq<string>): set<string> {
    set name | name in names
  }

  /** `names` are new with respect to `before`, and `after` adds exactly them. */
  ghost predicate Extends(before: set<string>, names: seq<string>, after: set<string>) {
    Distinct(names) && Elements(names) !! before && after == before + Elements(names)
  }

  lemma {:induction false} ExtendsConcat(before: set<string>, a: seq<string>, middle: set<string>, b: seq<string>,
          after: set<string>)
    requires Extends(before, a, middle) && Extends(middle, b, after)
    ensures Extends(before, a + b, after)
  {
    forall i, j | 0 <= i < j < |a + b|
      ensures (a + b)[i] != (a + b)[j]
    {
      if i < |a| <= j {
        assert a[i] in Elements(a) && b[j - |a|] in Elements(b);
      }
    }
    assert Elements(a + b) == Elements(a) + Elements(b);
  }

  lemma {:induction false} NamesOf(values: seq<Value>)
    ensures Elements(Names(values)) == NameSet(values)
    ensures Distinct(Names(values)) <==> DistinctNames(values)
  {
    forall name | name in NameSet(values)
      ensures name in Elements(Names(values))
    {
      var value :| value in values && value.name == name;
      var i :| 0 <= i < |values| && values[i] == value;
      assert Names(values)[i] == name;
    }
  }

  lemma {:induction false} ResultsDefined(results: seq<Value>, visible: map<string, Type>, definitions: set<string>)
    requires DefineResults(results, visible, definitions).Success?
    ensures DistinctNames(results)
    ensures NameSet(results) !! visible.Keys
    ensures NameSet(results) !! definitions
    ensures DefineResults(results, visible, definitions).value == definitions + NameSet(results)
    decreases |results|
  {
    if results != [] {
      var rest := results[1..];
      ResultsDefined(rest, visible, definitions + {results[0].name});
      assert results == [results[0]] + rest;
      assert NameSet(results) == {results[0].name} + NameSet(rest);
      forall i, j | 0 <= i < j < |results|
        ensures results[i].name != results[j].name
      {
        assert results[j] == rest[j - 1] && rest[j - 1].name in NameSet(rest);
        if i > 0 {
          assert results[i] == rest[i - 1];
        }
      }
    }
  }

  lemma {:induction false} ArgumentsBound(args: seq<Value>, scope: Scope)
    requires BindArguments(args, scope).Success?
    ensures DistinctNames(args)
    ensures NameSet(args) !! scope.visible.Keys
    ensures NameSet(args) !! scope.definitions
    ensures BindArguments(args, scope).value.visible == Bind(scope.visible, args)
    ensures BindArguments(args, scope).value.definitions == scope.definitions + NameSet(args)
    decreases |args|
  {
    if args != [] {
      var rest := args[1..];
      ArgumentsBound(rest, Scope(scope.visible[args[0].name := args[0].typ], scope.definitions + {args[0].name}));
      assert args == [args[0]] + rest;
      assert NameSet(args) == {args[0].name} + NameSet(rest);
      forall i, j | 0 <= i < j < |args|
        ensures args[i].name != args[j].name
      {
        assert args[j] == rest[j - 1] && rest[j - 1].name in NameSet(rest);
        if i > 0 {
          assert args[i] == rest[i - 1];
        }
      }
    }
  }

  lemma {:induction false} OperationScoped(op: Operation, last: bool, scope: Scope, slots: Option<seq<seq<Type>>>)
    requires VerifyOperation(op, last, scope, slots).Success?
    ensures ScopedOperation(op, scope.visible.Keys)
    ensures VerifyOperation(op, last, scope, slots).value.visible.Keys == scope.visible.Keys + NameSet(op.results)
    ensures Extends(scope.definitions, Names(op.results) + RegionResultNames(op.regions),
                    VerifyOperation(op, last, scope, slots).value.definitions)
    decreases op, 0
  {
    ResultsDefined(op.results, scope.visible, scope.definitions);
    NamesOf(op.results);
    var defined := scope.definitions + NameSet(op.results);
    RegionsScoped(op.regions, Scope(scope.visible, defined), Slots(op, scope.visible));
    ExtendsConcat(scope.definitions, Names(op.results), defined, RegionResultNames(op.regions),
                  VerifyOperation(op, last, scope, slots).value.definitions);
  }

  lemma {:induction false} RegionsScoped(regions: seq<Block>, scope: Scope, slots: seq<seq<Type>>)
    requires VerifyRegions(regions, scope, slots).Success?
    ensures forall region :: region in regions ==> ScopedBlock(region, scope.visible.Keys)
    ensures Extends(scope.definitions, RegionResultNames(regions), VerifyRegions(regions, scope, slots).value)
    decreases regions, 0
  {
    if regions != [] {
      BlockScoped(regions[0], scope, Some(slots));
      var inner := VerifyBlock(regions[0], scope, Some(slots)).value;
      var rest := Scope(scope.visible, inner.definitions);
      RegionsScoped(regions[1..], rest, slots);
      ExtendsConcat(scope.definitions, ResultNames(regions[0].operations), inner.definitions,
                    RegionResultNames(regions[1..]), VerifyRegions(regions, scope, slots).value);
      assert regions == [regions[0]] + regions[1..];
    }
  }

  lemma {:induction false} OperationsScoped(ops: seq<Operation>, scope: Scope, slots: Option<seq<seq<Type>>>)
    requires VerifyOperations(ops, scope, slots).Success?
    ensures ScopedOperations(ops, scope.visible.Keys)
    ensures Extends(scope.definitions, ResultNames(ops), VerifyOperations(ops, scope, slots).value.definitions)
    decreases ops, 0
  {
    hide Names, RegionResultNames, ScopedOperation, RegionContractHolds, MemoryContractHolds, VerifyRegions, Slots,
        Shaped, AllAgree;
    if ops != [] {
      OperationScoped(ops[0], |ops| == 1, scope, slots);
      var next := VerifyOperation(ops[0], |ops| == 1, scope, slots).value;
      OperationsScoped(ops[1..], next, slots);
      ExtendsConcat(scope.definitions, Names(ops[0].results) + RegionResultNames(ops[0].regions), next.definitions,
                    ResultNames(ops[1..]), VerifyOperations(ops, scope, slots).value.definitions);
    }
  }

  lemma {:induction false} BlockScoped(block: Block, scope: Scope, slots: Option<seq<seq<Type>>>)
    requires VerifyBlock(block, scope, slots).Success?
    ensures ScopedBlock(block, scope.visible.Keys)
    ensures Extends(scope.definitions, ResultNames(block.operations),
        VerifyBlock(block, scope, slots).value.definitions)
    decreases block, 0
  {
    ArgumentsBound(block.args, scope);
    var entered := BindArguments(block.args, scope).value;
    OperationsScoped(block.operations, entered, slots);
  }

  lemma {:induction false} EntryVisible(program: Program)
    ensures EntryScope(program).visible.Keys == ProgramSymbols(program) + NameSet(program.inputs)
  {
  }

  /** Acceptance makes all result names of a program distinct (and distinct from its
      inputs), and no result or region argument reuses a name visible where it is defined. */
  lemma {:induction false} AcceptedProgramsAreScoped(program: Program)
    requires VerifyProgram(program).Success?
    ensures ScopedBlock(program.blocks[0], ProgramSymbols(program) + NameSet(program.inputs))
    ensures Distinct(ResultNames(program.blocks[0].operations))
    ensures Elements(ResultNames(program.blocks[0].operations)) !! NameSet(program.inputs)
  {
    EntryVisible(program);
    BlockScoped(program.blocks[0], EntryScope(program), None);
  }

  // ----- dynamic meaning -----

  ghost predicate Keeps(visible: set<string>, before: Env, after: Env) {
    forall name :: name in visible ==> name in before && name in after && after[name] == before[name]
  }

  ghost predicate EndsInYield(ops: seq<Operation>) {
    ops != [] && ops[|ops| - 1].opcode.Yield?
  }

  /** Names bound at the end of a sequence of operations, its visible names included. */
  ghost function FinallyVisible(ops: seq<Operation>, visible: set<string>): set<string> {
    if ops == [] then visible else FinallyVisible(ops[1..], visible + NameSet(ops[0].results))
  }

  /** The outcome of running scoped operations: only genuine run-time faults, bindings
      that were visible are unchanged, and a final yield delivers one value for each
      of its operands. */
  ghost predicate RunsScoped(ops: seq<Operation>, visible: set<string>, env: Env, r: Outcome<Finish>) {
    match r
    case Failure(fault) => fault == RuntimeFault
    case Success(done) =>
      && Keeps(visible, env, done.env)
      && FinallyVisible(ops, visible) <= done.env.Keys
      && (EndsInYield(ops) ==> |done.yielded| == |ops[|ops| - 1].operands|)
  }

  lemma {:induction false} ReadsAreScoped(v: Val, ctx: Context, mem: Memory)
    ensures Materialize(v, ctx, mem).Failure? ==> Materialize(v, ctx, mem).error == RuntimeFault
    ensures ScalarOf(v, ctx, mem).Failure? ==> ScalarOf(v, ctx, mem).error == RuntimeFault
  {
  }

  lemma {:induction false} ComputeIsScoped(op: Operation, args: seq<Val>, ctx: Context, mem: Memory)
    ensures Compute(op, args, ctx, mem).Failure? ==> Compute(op, args, ctx, mem).error == RuntimeFault
  {
  }

  lemma {:induction false} StoreIsScoped(op: Operation, args: seq<Val>, indices: seq<Val>, ctx: Context, mem: Memory)
    requires |args| >= 2
    ensures StoreOperation(op, args, indices, ctx, mem).Failure? ==>
        StoreOperation(op, args, indices, ctx, mem).error == RuntimeFault
  {
  }

  /** No miss and no arity fault, and one value for each result. */
  ghost predicate Delivers(op: Operation, r: Outcome<(seq<Val>, Memory)>) {
    if r.Failure? then r.error == RuntimeFault else |r.value.0| == |op.results|
  }

  lemma {:induction false} ForDelivers(op: Operation, visible: set<string>, env: Env, mem: Memory, ctx: Context)
    requires ScopedOperation(op, visible) && visible <= env.Keys && op.opcode.For?
    ensures Delivers(op, ExecOperation(op, env, mem, ctx))
    decreases op, 0
  {
    hide ExecLoop, ScopedOperations, ScalarOf;
    assert forall name :: name in op.operands ==> name in References(op);
    var args := Lookup(op.operands, env).value;
    ReadsAreScoped(args[0], ctx, mem);
    ReadsAreScoped(args[1], ctx, mem);
    ReadsAreScoped(args[2], ctx, mem);
    var start, stop, step := ScalarOf(args[0], ctx, mem), ScalarOf(args[1], ctx, mem), ScalarOf(args[2], ctx, mem);
    if start.Success? && stop.Success? && step.Success? && step.value != 0 {
      LoopDelivers(op.regions[0], visible, |op.results|, env, mem, ctx, args[3..], start.value, step.value,
                   RangeLength(start.value, stop.value, step.value));
    }
  }

  lemma {:induction false} IfDelivers(op: Operation, visible: set<string>, env: Env, mem: Memory, ctx: Context)
    requires ScopedOperation(op, visible) && visible <= env.Keys && op.opcode.If?
    ensures Delivers(op, ExecOperation(op, env, mem, ctx))
    decreases op, 0
  {
    hide ExecOperations, ScopedOperations, ScalarOf;
    assert forall name :: name in op.operands ==> name in References(op);
    var args := Lookup(op.operands, env).value;
    ReadsAreScoped(args[0], ctx, mem);
    var condition := ScalarOf(args[0], ctx, mem);
    if condition.Success? {
      var index := if condition.value != 0 then 0 else 1;
      if index < |op.regions| {
        var region := op.regions[index];
        assert ScopedBlock(region, visible) && visible + NameSet(region.args) == visible;
        OperationsRun(region.operations, visible, env, mem, ctx);
      }
    }
  }

  lemma {:induction false} OperationDelivers(op: Operation, visible: set<string>, env: Env, mem: Memory, ctx: Context)
    requires ScopedOperation(op, visible) && visible <= env.Keys && !op.opcode.Yield?
    ensures Delivers(op, ExecOperation(op, env, mem, ctx))
    decreases op, 1
  {
    hide Lookup, DistinctNames, StoreOperation, Compute, Materialize;
    assert forall name :: name in op.operands ==> name in References(op);
    var args := Lookup(op.operands, env).value;
    match op.opcode {
      case For => ForDelivers(op, visible, env, mem, ctx);
      case If => IfDelivers(op, visible, env, mem, ctx);
      case Store =>
        assert forall name :: name in op.attrs.indices ==> name in References(op);
        StoreIsScoped(op, args, Lookup(op.attrs.indices, env).value, ctx, mem);
      case _ => ComputeIsScoped(op, args, ctx, mem);
    }
  }

  lemma {:induction false} LoopDelivers(region: Block, visible: set<string>, carriedCount: nat, env: Env, mem: Memory,
          ctx: Context, carried: seq<Val>, i: int, step: int, count: nat)
    requires ScopedBlock(region, visible) && visible <= env.Keys
    requires EndsWithYield(region, carriedCount) && |region.args| == carriedCount + 1 && |carried| == carriedCount
    ensures var r := ExecLoop(region, env, mem, ctx, carried, i, step, count);
            if r.Failure? then r.error == RuntimeFault else |r.value.0| == carriedCount
    decreases region, count
  {
    hide ExecOperations;
    if count > 0 {
      var local := BindValues(region.args, [Num(i)] + carried, env);
      OperationsRun(region.operations, visible + NameSet(region.args), local, mem, ctx);
      var done := ExecOperations(region.operations, local, mem, ctx);
      if done.Success? {
        LoopDelivers(region, visible, carriedCount, env, done.value.mem, ctx, done.value.yielded, i + step, step,
            count - 1);
      }
    }
  }

  lemma {:induction false} RunExtends(ops: seq<Operation>, visible: set<string>, env: Env, bound: Env,
          r: Outcome<Finish>)
    requires ops != [] && !ops[0].opcode.Yield? && visible <= env.Keys
    requires Keeps(visible, env, bound)
    requires RunsScoped(ops[1..], visible + NameSet(ops[0].results), bound, r)
    ensures RunsScoped(ops, visible, env, r)
  {
    if |ops| > 1 {
      assert ops[1..][|ops| - 2] == ops[|ops| - 1];
    }
  }

  lemma {:induction false} YieldRuns(ops: seq<Operation>, visible: set<string>, env: Env, mem: Memory, ctx: Context)
    requires ScopedOperations(ops, visible) && visible <= env.Keys && ops != [] && ops[0].opcode.Yield?
    ensures RunsScoped(ops, visible, env, ExecOperations(ops, env, mem, ctx))
  {
    var op := ops[0];
    assert forall name :: name in op.operands ==> name in References(op);
    assert FinallyVisible(ops[1..], visible + NameSet(op.results)) == visible;
  }

  lemma {:induction false} OperationsRun(ops: seq<Operation>, visible: set<string>, env: Env, mem: Memory, ctx: Context)
    requires ScopedOperations(ops, visible) && visible <= env.Keys
    ensures RunsScoped(ops, visible, env, ExecOperations(ops, env, mem, ctx))
    decreases ops, 0
  {
    hide ExecOperation, ScopedOperation;
    if ops != [] && ops[0].opcode.Yield? {
      YieldRuns(ops, visible, env, mem, ctx);
    } else if ops != [] {
      var op, wider := ops[0], visible + NameSet(ops[0].results);
      assert ScopedOperation(op, visible) && ScopedOperations(ops[1..], wider);
      OperationDelivers(op, visible, env, mem, ctx);
      var done := ExecOperation(op, env, mem, ctx);
      if done.Success? {
        var bound := BindValues(op.results, done.value.0, env);
        ResultsAreNew(op, visible);
        hide ScopedOperations;
        OperationsRun(ops[1..], wider, bound, done.value.1, ctx);
        hide RunsScoped, FinallyVisible, BindValues;
        RunExtends(ops, visible, env, bound, ExecOperations(ops, env, mem, ctx));
      }
    }
  }

  lemma {:induction false} ResultsAreNew(op: Operation, visible: set<string>)
    requires ScopedOperation(op, visible)
    ensures NameSet(op.results) !! visible
  {
  }

  lemma {:induction false} AcceptedScope(ops: seq<Operation>, scope: Scope, slots: Option<seq<seq<Type>>>)
    requires VerifyOperations(ops, scope, slots).Success?
    ensures VerifyOperations(ops, scope, slots).value.visible.Keys == FinallyVisible(ops, scope.visible.Keys)
    decreases |ops|
  {
    if ops != [] {
      OperationScoped(ops[0], |ops| == 1, scope, slots);
      AcceptedScope(ops[1..], VerifyOperation(ops[0], |ops| == 1, scope, slots).value, slots);
    }
  }

  lemma {:induction false} OutputsVisible(program: Program, outputs: seq<Value>, seen: set<string>,
          top: map<string, Type>)
    requires VerifyOutputs(program, outputs, seen, top).Success?
    ensures forall output :: output in outputs ==> output.name in top
    decreases |outputs|
  {
    if outputs != [] {
      OutputsVisible(program, outputs[1..], seen + {outputs[0].name}, top);
      assert outputs == [outputs[0]] + outputs[1..];
    }
  }

  // ----- what taken regions yield -----

  /** Along a run, each region taken by an operation with results yields one value for each. */
  ghost predicate RegionsDeliver(ops: seq<Operation>, env: Env, mem: Memory, ctx: Context)
    decreases ops, 0
  {
    ops == [] || ops[0].opcode.Yield?
    || (&& TakenDelivers(ops[0], env, mem, ctx)
        && var done := ExecOperation(ops[0], env, mem, ctx);
           (done.Success? ==>
               RegionsDeliver(ops[1..], BindValues(ops[0].results, done.value.0, env), done.value.1, ctx)))
  }

  /** The regions that one operation takes: an arm of a branch, or the rounds of a loop. */
  ghost predicate TakenDelivers(op: Operation, env: Env, mem: Memory, ctx: Context)
    decreases op, 0
  {
    var args := Lookup(op.operands, env);
    match op.opcode
    case For =>
      args.Success? && |args.value| >= 3 && |op.regions| > 0 ==>
        var start, stop, step := ScalarOf(args.value[0], ctx, mem), ScalarOf(args.value[1], ctx, mem),
            ScalarOf(args.value[2], ctx, mem);
        start.Success? && stop.Success? && step.Success? && step.value != 0 ==>
          RoundsDeliver(op.regions[0], |op.results|, env, mem, ctx, args.value[3..], start.value, step.value,
              RangeLength(start.value, stop.value, step.value))
    case If =>
      args.Success? && |args.value| > 0 && ScalarOf(args.value[0], ctx, mem).Success? ==>
        var index := if ScalarOf(args.value[0], ctx, mem).value != 0 then 0 else 1;
        index < |op.regions| ==>
          && RegionsDeliver(op.regions[index].operations, env, mem, ctx)
          && Yields(op.regions[index], if op.results == [] then None else Some(|op.results|), env, mem, ctx)
    case _ => true
  }

  /** If the region's operations run, they hand out so many values. */
  ghost predicate Yields(region: Block, count: Option<nat>, env: Env, mem: Memory, ctx: Context) {
    var done := ExecOperations(region.operations, env, mem, ctx);
    count.Some? && done.Success? ==> |done.value.yielded| == count.value
  }

  ghost predicate RoundsDeliver(region: Block, results: nat, env: Env, mem: Memory, ctx: Context, carried: seq<Val>,
          i: int, step: int, count: nat)
    decreases region, count
  {
    count == 0 ||
    var local := BindValues(region.args, [Num(i)] + carried, env);
    var done := ExecOperations(region.operations, local, mem, ctx);
    && RegionsDeliver(region.operations, local, mem, ctx) && Yields(region, Some(results), local, mem, ctx)
    && (done.Success? ==>
        RoundsDeliver(region, results, env, done.value.mem, ctx, done.value.yielded, i + step, step, count - 1))
  }

  lemma {:induction false} BlocksDeliver(ops: seq<Operation>, visible: set<string>, env: Env, mem: Memory, ctx: Context)
    requires ScopedOperations(ops, visible) && visible <= env.Keys
    ensures RegionsDeliver(ops, env, mem, ctx)
    decreases ops, 0
  {
    hide ExecOperation, ScopedOperation, TakenDelivers;
    if ops != [] && !ops[0].opcode.Yield? {
      OperationDelivers(ops[0], visible, env, mem, ctx);
      TakenRegionsDeliver(ops[0], visible, env, mem, ctx);
      var done := ExecOperation(ops[0], env, mem, ctx);
      if done.Success? {
        BlocksDeliver(ops[1..], visible + NameSet(ops[0].results), BindValues(ops[0].results, done.value.0, env),
            done.value.1, ctx);
      }
    }
  }

  lemma {:induction false} TakenRegionsDeliver(op: Operation, visible: set<string>, env: Env, mem: Memory, ctx: Context)
    requires ScopedOperation(op, visible) && visible <= env.Keys
    ensures TakenDelivers(op, env, mem, ctx)
    decreases op, 0
  {
    hide ExecOperations, ExecLoop, ScopedOperations, ScalarOf, RegionsDeliver, RoundsDeliver, RangeLength;
    assert forall name :: name in op.operands ==> name in References(op);
    var args := Lookup(op.operands, env).value;
    if op.opcode.For? {
      var start, stop, step := ScalarOf(args[0], ctx, mem), ScalarOf(args[1], ctx, mem), ScalarOf(args[2], ctx, mem);
      if start.Success? && stop.Success? && step.Success? && step.value != 0 {
        LoopRoundsDeliver(op.regions[0], visible, |op.results|, env, mem, ctx, args[3..], start.value, step.value,
                          RangeLength(start.value, stop.value, step.value));
      }
    } else if op.opcode.If? && ScalarOf(args[0], ctx, mem).Success? {
      var index := if ScalarOf(args[0], ctx, mem).value != 0 then 0 else 1;
      if index < |op.regions| {
        var region := op.regions[index];
        assert ScopedBlock(region, visible) && visible + NameSet(region.args) == visible;
        BlocksDeliver(region.operations, visible, env, mem, ctx);
        OperationsRun(region.operations, visible, env, mem, ctx);
      }
    }
  }

  lemma {:induction false} LoopRoundsDeliver(region: Block, visible: set<string>, results: nat, env: Env, mem: Memory,
          ctx: Context, carried: seq<Val>, i: int, step: int, count: nat)
    requires ScopedBlock(region, visible) && visible <= env.Keys
    requires EndsWithYield(region, results) && |region.args| == results + 1 && |carried| == results
    ensures RoundsDeliver(region, results, env, mem, ctx, carried, i, step, count)
    decreases region, count
  {
    hide ExecOperations, RegionsDeliver, ScopedOperations;
    if count > 0 {
      var local := BindValues(region.args, [Num(i)] + carried, env);
      BlocksDeliver(region.operations, visible + NameSet(region.args), local, mem, ctx);
      OperationsRun(region.operations, visible + NameSet(region.args), local, mem, ctx);
      var done := ExecOperations(region.operations, local, mem, ctx);
      if done.Success? {
        LoopRoundsDeliver(region, visible, results, env, done.value.mem, ctx, done.value.yielded, i + step, step,
            count - 1);
      }
    }
  }

  // ----- entry arguments -----

  /** Every name that operations refer to, nested ones included. */
  function UsedNames(ops: seq<Operation>): set<string>
    decreases ops, 0
  {
    if ops == [] then {} else (set name | name in References(ops[0])) + RegionUses(ops[0].regions) + UsedNames(ops[1..])
  }

  function RegionUses(regions: seq<Block>): set<string>
    decreases regions, 0
  {
    if regions == [] then {} else UsedNames(regions[0].operations) + RegionUses(regions[1..])
  }

  /** Names that nothing uses need not be visible. */
  lemma {:induction false} ScopedWithout(ops: seq<Operation>, visible: set<string>, less: set<string>)
    requires ScopedOperations(ops, visible) && less <= visible && UsedNames(ops) !! (visible - less)
    ensures ScopedOperations(ops, less)
    decreases ops, 0
  {
    if ops != [] {
      RegionsWithout(ops[0].regions, visible, less);
      var results := NameSet(ops[0].results);
      forall name | name in References(ops[0])
        ensures name in less
      {
        assert name in UsedNames(ops);
      }
      assert (visible + results) - (less + results) <= visible - less;
      ScopedWithout(ops[1..], visible + results, less + results);
    }
  }

  lemma {:induction false} RegionsWithout(regions: seq<Block>, visible: set<string>, less: set<string>)
    requires (forall region :: region in regions ==> ScopedBlock(region, visible)) && less <= visible
    requires RegionUses(regions) !! (visible - less)
    ensures forall region :: region in regions ==> ScopedBlock(region, less)
    decreases regions, 0
  {
    if regions != [] {
      var args := NameSet(regions[0].args);
      assert regions[0] in regions && ScopedBlock(regions[0], visible);
      assert (visible + args) - (less + args) <= visible - less;
      ScopedWithout(regions[0].operations, visible + args, less + args);
      assert forall region :: region in regions[1..] ==> region in regions;
      RegionsWithout(regions[1..], visible, less);
      assert regions == [regions[0]] + regions[1..];
    }
  }

  /** The names an accepted program needs at its start: the verifier counts the arguments of
      the entry block as defined, but the interpreter never binds them. */
  function Needed(program: Program): set<string>
    requires |program.blocks| == 1
  {
    var args := NameSet(program.blocks[0].args);
    ProgramSymbols(program) + NameSet(program.inputs)
        + args * (UsedNames(program.blocks[0].operations) + NameSet(program.outputs))
  }

  /** Verifier soundness. Run from any environment that holds the inputs, the symbols and
      the entry arguments in use, an accepted program never misses an operand or store
      index, and every region that an operation with results takes yields one value for
      each: the only failures left are run-time faults, inputs and symbols are never
      overwritten, and every output is bound. */
  lemma {:induction false} AcceptedProgramsRun(program: Program, env: Env, mem: Memory, ctx: Context)
    requires VerifyProgram(program).Success? && Needed(program) <= env.Keys
    ensures match ExecOperations(program.blocks[0].operations, env, mem, ctx)
            case Failure(fault) => fault == RuntimeFault
            case Success(done) =>
              && Keeps(ProgramSymbols(program) + NameSet(program.inputs), env, done.env)
              && forall output :: output in program.outputs ==> output.name in done.env
    ensures RegionsDeliver(program.blocks[0].operations, env, mem, ctx)
  {
    hide ExecOperations, RegionsDeliver, ScopedOperations, UsedNames, VerifyProgram, FinallyVisible;
    NeededScoped(program);
    var ops, needed := program.blocks[0].operations, Needed(program);
    BlocksDeliver(ops, needed, env, mem, ctx);
    OperationsRun(ops, needed, env, mem, ctx);
    NeededOutputs(program);
  }

  lemma {:induction false} NeededScoped(program: Program)
    requires VerifyProgram(program).Success?
    ensures |program.blocks| == 1 && ScopedOperations(program.blocks[0].operations, Needed(program))
  {
    AcceptedProgramsAreScoped(program);
    var ops, visible := program.blocks[0].operations,
        ProgramSymbols(program) + NameSet(program.inputs) + NameSet(program.blocks[0].args);
    hide UsedNames, ScopedOperations, ProgramSymbols;
    assert UsedNames(ops) !! (visible - Needed(program));
    ScopedWithout(ops, visible, Needed(program));
  }

  lemma {:induction false} NeededOutputs(program: Program)
    requires VerifyProgram(program).Success? && |program.blocks| == 1
    ensures forall output :: output in program.outputs ==>
        output.name in FinallyVisible(program.blocks[0].operations, Needed(program))
  {
    AcceptedOutputs(program);
    var ops, visible := program.blocks[0].operations,
        ProgramSymbols(program) + NameSet(program.inputs) + NameSet(program.blocks[0].args);
    FinallyLess(ops, visible, Needed(program));
    FinallyMore(ops, Needed(program));
    hide FinallyVisible, UsedNames, VerifyProgram, ProgramSymbols;
    assert NameSet(program.outputs) * visible <= Needed(program);
    forall output | output in program.outputs
      ensures output.name in FinallyVisible(ops, Needed(program))
    {
      assert output.name in NameSet(program.outputs);
    }
  }

  lemma {:induction false} FinallyMore(ops: seq<Operation>, visible: set<string>)
    ensures visible <= FinallyVisible(ops, visible)
    decreases |ops|
  {
    if ops != [] {
      FinallyMore(ops[1..], visible + NameSet(ops[0].results));
    }
  }

  /** At the top of an accepted program every output is visible. */
  lemma {:induction false} AcceptedOutputs(program: Program)
    requires VerifyProgram(program).Success?
    ensures var names := ProgramSymbols(program) + NameSet(program.inputs) + NameSet(program.blocks[0].args);
            forall output :: output in program.outputs ==>
                output.name in FinallyVisible(program.blocks[0].operations, names)
  {
    EntryVisible(program);
    var block, scope := program.blocks[0], EntryScope(program);
    ArgumentsBound(block.args, scope);
    AcceptedScope(block.operations, BindArguments(block.args, scope).value, None);
    OutputsVisible(program, program.outputs, {}, VerifyProgram(program).value.visible);
  }

  lemma {:induction false} FinallyLess(ops: seq<Operation>, visible: set<string>, less: set<string>)
    ensures FinallyVisible(ops, visible) <= FinallyVisible(ops, less) + (visible - less)
    decreases |ops|
  {
    if ops != [] {
      var results := NameSet(ops[0].results);
      FinallyLess(ops[1..], visible + results, less + results);
    }
  }

  /** An accepted program whose run comes to an operation of the entry block that refers to
      an unbound entry argument misses that name. */
  lemma {:induction false} UnboundArgumentMissed(program: Program, env: Env, mem: Memory, ctx: Context, j: nat,
          x: string)
    requires VerifyProgram(program).Success? && j < |program.blocks[0].operations|
    requires x in NameSet(program.blocks[0].args) && x in program.blocks[0].operations[j].operands && x !in env
    requires ExecOperations(program.blocks[0].operations[..j], env, mem, ctx).Success?
    ensures ExecOperations(program.blocks[0].operations, env, mem, ctx) == Failure(MissingName)
  {
    AcceptedProgramsAreScoped(program);
    hide VerifyProgram;
    MissesAfter(program.blocks[0].operations,
        ProgramSymbols(program) + NameSet(program.inputs) + NameSet(program.blocks[0].args), env, mem, ctx, j, x);
  }

  lemma {:induction false} MissesAfter(ops: seq<Operation>, visible: set<string>, env: Env, mem: Memory, ctx: Context,
          j: nat, x: string)
    requires ScopedOperations(ops, visible) && j < |ops| && x in visible && x in ops[j].operands && x !in env
    requires ExecOperations(ops[..j], env, mem, ctx).Success?
    ensures ExecOperations(ops, env, mem, ctx) == Failure(MissingName)
    decreases |ops|
  {
    hide ScopedOperation;
    if j == 0 {
      MissesHere(ops[0], env, mem, ctx, x);
    } else {
      ScopedFirst(ops[0], visible);
      hide ExecOperation;
      var prefix := ops[..j];
      assert prefix[0] == ops[0] && prefix[1..] == ops[1..][..j - 1];
      var done := ExecOperation(ops[0], env, mem, ctx).value;
      var bound := BindValues(ops[0].results, done.0, env);
      assert x !in bound;
      MissesAfter(ops[1..], visible + NameSet(ops[0].results), bound, done.1, ctx, j - 1, x);
    }
  }

  lemma {:induction false} ScopedFirst(op: Operation, visible: set<string>)
    requires ScopedOperation(op, visible)
    ensures NameSet(op.results) !! visible
  {
  }

  lemma {:induction false} MissesHere(op: Operation, env: Env, mem: Memory, ctx: Context, x: string)
    requires x in op.operands && x !in env
    ensures Lookup(op.operands, env) == Failure(MissingName) && ExecOperation(op, env, mem, ctx) == Failure(MissingName)
  {
    assert Lookup(op.operands, env).Failure?;
  }

  /** An accepted program that misses a name from every environment without `x`:
      its entry block declares `x` and computes `y = -x`. */
  function UnboundEntry(): Program {
    Program([], [], [Block([Value("x", INDEX)], [Operation(Unary(Neg), ["x"], [Value("y", INDEX)], NO_ATTRS, [])])], {})
  }

  lemma {:induction false} UnboundEntryAccepted()
    ensures VerifyProgram(UnboundEntry()).Success?
  {
    var program := UnboundEntry();
    var block := program.blocks[0];
    var ops, op, s, u := block.operations, block.operations[0], Scope(map[], {}), Scope(map["x" := INDEX], {"x"});
    assert ProgramSymbols(program) == {};
    assert EntryScope(program) == s;
    assert block.args[1..] == [] && BindArguments(block.args[1..], u) == Success(u);
    assert BindArguments(block.args, s) == Success(u) by {
      assert s.visible["x" := INDEX] == u.visible && s.definitions + {"x"} == u.definitions;
    }
    PlainVerifies(op, true, u, None);
    VerifyOne(op, u, Grown(u, "y", INDEX), None);
    assert ops == [op];
    hide VerifyOperations;
    assert VerifyBlock(block, s, None).Success?;
    assert VerifyOutputs(program, [], {}, VerifyBlock(block, s, None).value.visible) == Success(());
  }

  lemma {:induction false} UnboundEntryMisses(env: Env, mem: Memory, ctx: Context)
    requires "x" !in env
    ensures VerifyProgram(UnboundEntry()).Success?
    ensures ExecOperations(UnboundEntry().blocks[0].operations, env, mem, ctx) == Failure(MissingName)
  {
    UnboundEntryAccepted();
    var ops := UnboundEntry().blocks[0].operations;
    assert UnboundEntry().blocks[0].args[0] in UnboundEntry().blocks[0].args;
    assert ops[..0] == [] && ExecOperations(ops[..0], env, mem, ctx).Success?;
    UnboundArgumentMissed(UnboundEntry(), env, mem, ctx, 0, "x");
  }
}
