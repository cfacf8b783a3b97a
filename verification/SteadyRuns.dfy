/** Code that stores nothing and leaves the output alone does the same in every lane of a
    replay as it does in the one run over whole tiles, whatever other lanes have stored. */
module SteadyRuns {
  import opened Wrappers
  import opened Ssa
  import opened Interpreter
  import opened LaneReplay

  /** Nothing stores, and no operand is a hidden name. */
  ghost predicate Quiet(ops: seq<Operation>, hidden: set<string>)
    decreases ops, 0
  {
    ops == [] || (QuietOperation(ops[0], hidden) && Quiet(ops[1..], hidden))
  }

  ghost predicate QuietOperation(op: Operation, hidden: set<string>)
    decreases op, 0
  {
    && !op.opcode.Store?
    && (forall x :: x in op.operands ==> x !in hidden)
    && (forall region :: region in op.regions ==> Quiet(region.operations, hidden))
  }

  /** No value refers to the given storage. */
  ghost predicate AllApart(vals: seq<Val>, storage: string, views: map<string, View>) {
    forall v :: v in vals ==> Apart(v, storage, views)
  }

  /** What is bound in `env` and not hidden is bound alike in `env2`, and refers to other storage. */
  ghost predicate Shadows(env: Env, env2: Env, hidden: set<string>, storage: string, views: map<string, View>) {
    forall x :: x in env && x !in hidden ==> x in env2 && env2[x] == env[x] && Apart(env[x], storage, views)
  }

  lemma {:induction false} MaterializeSteady(v: Val, storage: string, c: Matrix, mem: Memory, views: map<string, View>,
          lane: Option<Lane>)
    requires Apart(v, storage, views)
    ensures Materialize(v, Context(views, lane), mem[storage := c]) == Materialize(v, Context(views, None), mem)
    ensures ScalarOf(v, Context(views, lane), mem[storage := c]) == ScalarOf(v, Context(views, None), mem)
  {
    if v.Ref? {
      assert views[v.name].storage != storage;
      assert Reachable(Context(views, lane), mem[storage := c], v.name) ==
          Reachable(Context(views, None), mem, v.name);
    }
  }

  lemma {:induction false} ExtractSteady(v: Val, i: int, j: int, source: bool, storage: string, c: Matrix, mem: Memory,
          views: map<string, View>, lane: Option<Lane>)
    requires Apart(v, storage, views)
    ensures ExtractAt(v, i, j, source, Context(views, lane), mem[storage := c]) ==
        ExtractAt(v, i, j, source, Context(views, None), mem)
  {
    if v.Ref? {
      assert views[v.name].storage != storage;
      assert Reachable(Context(views, lane), mem[storage := c], v.name) ==
          Reachable(Context(views, None), mem, v.name);
    }
  }

  lemma {:induction false} OffsetSteady(op: Operation, v: Val, storage: string, c: Matrix, mem: Memory,
          views: map<string, View>, lane: Option<Lane>)
    requires op.opcode.Offset? && Apart(v, storage, views) && OffsetAt(op, v, Context(views, None), mem).Success?
    ensures OffsetAt(op, v, Context(views, lane), mem[storage := c]) == OffsetAt(op, v, Context(views, None), mem)
  {
    assert views[v.name].storage != storage;
    assert Reachable(Context(views, lane), mem[storage := c], v.name) == Reachable(Context(views, None), mem, v.name);
  }

  /** The value of a region-free operation is no reference, and is the same in a lane. */
  lemma {:induction false} ComputeSteady(op: Operation, args: seq<Val>, storage: string, c: Matrix, mem: Memory,
          views: map<string, View>, lane: Option<Lane>)
    requires AllApart(args, storage, views) && Compute(op, args, Context(views, None), mem).Success?
    ensures Compute(op, args, Context(views, lane), mem[storage := c]) == Compute(op, args, Context(views, None), mem)
    ensures !Compute(op, args, Context(views, None), mem).value.Ref?
  {
    hide Materialize, ScalarOf, ExtractAt, OffsetAt, Elementwise, MapUnary, Where, Product, Transposed, ExtentAt;
    forall i | 0 <= i < |args|
      ensures Materialize(args[i], Context(views, lane), mem[storage := c]) ==
          Materialize(args[i], Context(views, None), mem)
      ensures ScalarOf(args[i], Context(views, lane), mem[storage := c]) == ScalarOf(args[i], Context(views, None), mem)
    {
      MaterializeSteady(args[i], storage, c, mem, views, lane);
    }
    assert forall i :: 0 <= i < |args| ==> args[i] in args;
    match op.opcode {
      case Extract(source) =>
        var i, j := ScalarOf(args[1], Context(views, None), mem).value, ScalarOf(args[2], Context(views, None),
            mem).value;
        ExtractSteady(args[0], i, j, source, storage, c, mem, views, lane);
        ExtractsNumber(args[0], i, j, source, Context(views, None), mem);
      case Offset(_, _) =>
        OffsetSteady(op, args[0], storage, c, mem, views, lane);
        OffsetIsNoReference(op, args[0], Context(views, None), mem);
      case ShapeDim(dim) =>
        ExtentSteady(args[0], dim, views, lane);
      case Binary(b) =>
        var x, y := Materialize(args[0], Context(views, None), mem), Materialize(args[1], Context(views, None), mem);
        ElementwiseIsNoReference(b, x.value, y.value);
      case Unary(u) =>
        MapIsNoReference(u, Materialize(args[0], Context(views, None), mem).value);
      case Select =>
        WhereIsNoReference(Materialize(args[0], Context(views, None), mem).value,
            Materialize(args[1], Context(views, None), mem).value,
            Materialize(args[2], Context(views, None), mem).value);
      case _ =>
    }
  }

  lemma {:induction false} ExtractsNumber(v: Val, i: int, j: int, source: bool, ctx: Context, mem: Memory)
    ensures var r := ExtractAt(v, i, j, source, ctx, mem);
            r.Success? ==> r.value.Num?
  {
  }

  lemma {:induction false} OffsetIsNoReference(op: Operation, v: Val, ctx: Context, mem: Memory)
    requires op.opcode.Offset?
    ensures var r := OffsetAt(op, v, ctx, mem);
            r.Success? ==> !r.value.Ref?
  {
  }

  lemma {:induction false} ExtentSteady(v: Val, dim: int, views: map<string, View>, lane: Option<Lane>)
    ensures ExtentAt(v, dim, Context(views, lane)) == ExtentAt(v, dim, Context(views, None))
    ensures var r := ExtentAt(v, dim, Context(views, None));
            r.Success? ==> r.value.Num?
  {
  }

  lemma {:induction false} ElementwiseIsNoReference(op: BinaryOp, a: Val, b: Val)
    requires !a.Ref? && !b.Ref?
    ensures var r := Elementwise(op, a, b);
            r.Success? ==> !r.value.Ref?
  {
    hide Broadcast;
  }

  lemma {:induction false} MapIsNoReference(op: UnaryOp, a: Val)
    requires !a.Ref?
    ensures !MapUnary(op, a).Ref?
  {
  }

  lemma {:induction false} WhereIsNoReference(c: Val, a: Val, b: Val)
    requires !c.Ref? && !a.Ref? && !b.Ref?
    ensures var r := Where(c, a, b);
            r.Success? ==> !r.value.Ref?
  {
    hide Broadcast;
  }

  // ----- environments -----

  lemma {:induction false} LookupShadows(names: seq<string>, env: Env, env2: Env, hidden: set<string>, storage: string,
          views: map<string, View>)
    requires Shadows(env, env2, hidden, storage, views) && Lookup(names, env).Success?
    requires forall x :: x in names ==> x !in hidden
    ensures Lookup(names, env2) == Lookup(names, env) && AllApart(Lookup(names, env).value, storage, views)
  {
    var found, found2 := Lookup(names, env), Lookup(names, env2);
    assert found2.Success?;
    forall i | 0 <= i < |names|
      ensures found2.value[i] == found.value[i] && Apart(found.value[i], storage, views)
    {
      assert names[i] in names;
    }
    assert found2.value == found.value;
  }

  lemma {:induction false} BindShadows(values: seq<Value>, vals: seq<Val>, env: Env, env2: Env, hidden: set<string>,
          storage: string, views: map<string, View>)
    requires Shadows(env, env2, hidden, storage, views) && AllApart(vals, storage, views)
    ensures Shadows(BindValues(values, vals, env), BindValues(values, vals, env2), hidden, storage, views)
    decreases |values|
  {
    if values != [] && vals != [] {
      assert vals[0] in vals;
      BindShadows(values[1..], vals[1..], env[values[0].name := vals[0]], env2[values[0].name := vals[0]], hidden,
          storage, views);
    }
  }

  // ----- running -----

  /** The two runs deliver the same values, which refer to other storage, and store nothing. */
  ghost predicate SameValues(r: Outcome<(seq<Val>, Memory)>, r2: Outcome<(seq<Val>, Memory)>, storage: string,
          c: Matrix, mem: Memory, views: map<string, View>) {
    r.Success? && r.value.1 == mem && AllApart(r.value.0, storage, views)
        && r2 == Success((r.value.0, mem[storage := c]))
  }

  ghost predicate SameFinish(r: Outcome<Finish>, r2: Outcome<Finish>, hidden: set<string>, storage: string, c: Matrix,
          mem: Memory, views: map<string, View>) {
    && r.Success? && r2.Success? && r.value.mem == mem && r2.value.mem == mem[storage := c]
    && r2.value.yielded == r.value.yielded && AllApart(r.value.yielded, storage, views)
    && Shadows(r.value.env, r2.value.env, hidden, storage, views)
  }

  lemma {:induction false} ForSteady(op: Operation, env: Env, env2: Env, hidden: set<string>, storage: string,
          c: Matrix, mem: Memory, views: map<string, View>, lane: Option<Lane>)
    requires op.opcode.For? && QuietOperation(op, hidden) && Shadows(env, env2, hidden, storage, views)
    requires ExecOperation(op, env, mem, Context(views, None)).Success?
    ensures SameValues(ExecOperation(op, env, mem, Context(views, None)),
        ExecOperation(op, env2, mem[storage := c], Context(views, lane)), storage, c, mem, views)
    decreases op, 0
  {
    hide ExecLoop, ScalarOf, Shadows, Lookup, Quiet, Compute, Lanes, Apart;
    LookupShadows(op.operands, env, env2, hidden, storage, views);
    var args, ctx := Lookup(op.operands, env).value, Context(views, None);
    assert args[0] in args && args[1] in args && args[2] in args;
    MaterializeSteady(args[0], storage, c, mem, views, lane);
    MaterializeSteady(args[1], storage, c, mem, views, lane);
    MaterializeSteady(args[2], storage, c, mem, views, lane);
    var start, stop, step := ScalarOf(args[0], ctx, mem).value, ScalarOf(args[1], ctx, mem).value, ScalarOf(args[2],
        ctx, mem).value;
    assert op.regions[0] in op.regions;
    LoopSteady(op.regions[0], env, env2, hidden, storage, c, mem, views, lane, args[3..], start, step,
        RangeLength(start, stop, step));
  }

  lemma {:induction false} IfSteady(op: Operation, env: Env, env2: Env, hidden: set<string>, storage: string,
          c: Matrix, mem: Memory, views: map<string, View>, lane: Option<Lane>)
    requires op.opcode.If? && QuietOperation(op, hidden) && Shadows(env, env2, hidden, storage, views)
    requires ExecOperation(op, env, mem, Context(views, None)).Success?
    ensures SameValues(ExecOperation(op, env, mem, Context(views, None)),
        ExecOperation(op, env2, mem[storage := c], Context(views, lane)), storage, c, mem, views)
    decreases op, 0
  {
    hide ExecOperations, ScalarOf, Shadows, Lookup;
    LookupShadows(op.operands, env, env2, hidden, storage, views);
    var args, ctx := Lookup(op.operands, env).value, Context(views, None);
    assert args[0] in args;
    MaterializeSteady(args[0], storage, c, mem, views, lane);
    var index := if ScalarOf(args[0], ctx, mem).value != 0 then 0 else 1;
    if index < |op.regions| {
      assert op.regions[index] in op.regions;
      OperationsSteady(op.regions[index].operations, env, env2, hidden, storage, c, mem, views, lane);
    }
  }

  lemma {:induction false} OperationSteady(op: Operation, env: Env, env2: Env, hidden: set<string>, storage: string,
          c: Matrix, mem: Memory, views: map<string, View>, lane: Option<Lane>)
    requires QuietOperation(op, hidden) && Shadows(env, env2, hidden, storage, views)
    requires ExecOperation(op, env, mem, Context(views, None)).Success?
    ensures SameValues(ExecOperation(op, env, mem, Context(views, None)),
        ExecOperation(op, env2, mem[storage := c], Context(views, lane)), storage, c, mem, views)
    decreases op, 1
  {
    hide ExecOperation, QuietOperation, SameValues, Shadows;
    if op.opcode.For? {
      ForSteady(op, env, env2, hidden, storage, c, mem, views, lane);
    } else if op.opcode.If? {
      IfSteady(op, env, env2, hidden, storage, c, mem, views, lane);
    } else {
      PlainSteady(op, env, env2, hidden, storage, c, mem, views, lane);
    }
  }

  lemma {:induction false} PlainSteady(op: Operation, env: Env, env2: Env, hidden: set<string>, storage: string,
          c: Matrix, mem: Memory, views: map<string, View>, lane: Option<Lane>)
    requires !op.opcode.For? && !op.opcode.If? && QuietOperation(op, hidden)
    requires Shadows(env, env2, hidden, storage, views)
    requires ExecOperation(op, env, mem, Context(views, None)).Success?
    ensures SameValues(ExecOperation(op, env, mem, Context(views, None)),
        ExecOperation(op, env2, mem[storage := c], Context(views, lane)), storage, c, mem, views)
  {
    hide Compute, Shadows, Quiet;
    LookupShadows(op.operands, env, env2, hidden, storage, views);
    ComputeSteady(op, Lookup(op.operands, env).value, storage, c, mem, views, lane);
  }

  lemma {:induction false} LoopSteady(region: Block, env: Env, env2: Env, hidden: set<string>, storage: string,
          c: Matrix, mem: Memory, views: map<string, View>, lane: Option<Lane>, carried: seq<Val>, i: int, step: int,
          count: nat)
    requires Quiet(region.operations, hidden) && Shadows(env, env2, hidden, storage, views)
    requires AllApart(carried, storage, views)
    requires ExecLoop(region, env, mem, Context(views, None), carried, i, step, count).Success?
    ensures SameValues(ExecLoop(region, env, mem, Context(views, None), carried, i, step, count),
        ExecLoop(region, env2, mem[storage := c], Context(views, lane), carried, i, step, count), storage, c, mem,
            views)
    decreases region, count
  {
    hide ExecOperations, Quiet, Shadows;
    if count > 0 {
      var bound := [Num(i)] + carried;
      var local, local2 := BindValues(region.args, bound, env), BindValues(region.args, bound, env2);
      BindShadows(region.args, bound, env, env2, hidden, storage, views);
      OperationsSteady(region.operations, local, local2, hidden, storage, c, mem, views, lane);
      var done := ExecOperations(region.operations, local, mem, Context(views, None)).value;
      LoopSteady(region, env, env2, hidden, storage, c, mem, views, lane, done.yielded, i + step, step, count - 1);
    }
  }

  lemma {:induction false} OperationsSteady(ops: seq<Operation>, env: Env, env2: Env, hidden: set<string>,
          storage: string, c: Matrix, mem: Memory, views: map<string, View>, lane: Option<Lane>)
    requires Quiet(ops, hidden) && Shadows(env, env2, hidden, storage, views)
    requires ExecOperations(ops, env, mem, Context(views, None)).Success?
    ensures SameFinish(ExecOperations(ops, env, mem, Context(views, None)),
        ExecOperations(ops, env2, mem[storage := c], Context(views, lane)), hidden, storage, c, mem, views)
    decreases ops, 0
  {
    hide ExecOperation, Shadows;
    if ops == [] {
    } else if ops[0].opcode.Yield? {
      assert QuietOperation(ops[0], hidden);
      LookupShadows(ops[0].operands, env, env2, hidden, storage, views);
    } else {
      OperationSteady(ops[0], env, env2, hidden, storage, c, mem, views, lane);
      hide QuietOperation;
      var vals := ExecOperation(ops[0], env, mem, Context(views, None)).value.0;
      BindShadows(ops[0].results, vals, env, env2, hidden, storage, views);
      OperationsSteady(ops[1..], BindValues(ops[0].results, vals, env), BindValues(ops[0].results, vals, env2), hidden,
          storage, c, mem, views, lane);
    }
  }
}
