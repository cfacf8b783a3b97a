/** Replaying the decomposed matmul once for each live output lane leaves the output
    exactly as the whole-tile product and store would. */
module LaneReplay {
  import opened Wrappers
  import opened Ssa
  import opened Interpreter
  import opened Linalg

  /** The lane loop of `_Execution.run`: dead lanes are skipped, every live lane runs the
      block from the same environment. */
  function RunLanes(ops: seq<Operation>, env: Env, mem: Memory, views: map<string, View>, v: View,
          lanes: seq<Lane>): Outcome<Memory>
    requires forall lane :: lane in lanes ==> InView(v, lane)
    decreases |lanes|
  {
    if lanes == [] then Success(mem)
    else if !Live(v, lanes[0]) then RunLanes(ops, env, mem, views, v, lanes[1..])
    else
      var done :- ExecOperations(ops, env, mem, Context(views, Some(lanes[0])));
      RunLanes(ops, env, done.mem, views, v, lanes[1..])
  }

  ghost predicate Reads(v: Val, m: Matrix, views: map<string, View>, mem: Memory) {
    match v
    case Num(_) => false
    case Tile(t) => t == m
    case Ref(name) => Reachable(Context(views, None), mem, name) && m == ReadAll(views[name], mem[views[name].storage])
  }

  ghost predicate Apart(v: Val, storage: string, views: map<string, View>) {
    v.Ref? ==> v.name in views && views[v.name].storage != storage
  }

  /** The operands of a decomposed store are bound, agree with the output tile, do not
      share its storage, and the chosen names are new. */
  ghost predicate Decomposable(names: seq<string>, lhs: string, rhs: string, output: string, extent: Extent, env: Env,
          views: map<string, View>, a: Matrix, b: Matrix) {
    && |names| == 11
    && (forall i :: 0 <= i < 11 ==> names[i] !in env && names[i] != KK && names[i] != ACC_ITER)
    && (forall i, j :: 0 <= i < j < 11 ==> names[i] != names[j])
    && KK !in env && ACC_ITER !in env
    && lhs in env && rhs in env && output in env
    && env[output].Ref? && env[output].name in views
    && a.cols == b.rows
    && (extent.FromSymbol? ==> extent.name in env && env[extent.name] == Num(a.cols))
    && var view := views[env[output].name];
       a.rows == view.row.rows && b.cols == view.row.cols
       && Apart(env[lhs], view.storage, views) && Apart(env[rhs], view.storage, views)
  }

  lemma {:induction false} ExtractReads(v: Val, m: Matrix, views: map<string, View>, mem: Memory, ctx: Context, i: nat,
          j: nat)
    requires Reads(v, m, views, mem) && ctx.views == views && i < m.rows && j < m.cols
    ensures ExtractAt(v, i, j, false, ctx, mem) == Success(Num(At(m, i, j)))
  {
  }

  /** Run one region-free operation and bind its value. */
  lemma {:induction false} ExecEmit(op: Operation, rest: seq<Operation>, args: seq<Val>, value: Val, env: Env,
          mem: Memory, ctx: Context)
    requires !op.opcode.For? && !op.opcode.If? && !op.opcode.Store? && !op.opcode.Yield? && |op.results| == 1
    requires Lookup(op.operands, env) == Success(args) && Compute(op, args, ctx, mem) == Success(value)
    ensures ExecOperations([op] + rest, env, mem, ctx) ==
        ExecOperations(rest, env[op.results[0].name := value], mem, ctx)
  {
    hide Compute;
    assert ([op] + rest)[1..] == rest;
    assert ExecOperation(op, env, mem, ctx) == Success(([value], mem));
    assert BindValues(op.results, [value], env) == env[op.results[0].name := value];
  }

  lemma {:induction false} Lookup1(x: string, env: Env)
    requires x in env
    ensures Lookup([x], env) == Success([env[x]])
  {
    var r := Lookup([x], env);
    assert r.Success? && r.value == [env[x]];
  }

  lemma {:induction false} Lookup2(x: string, y: string, env: Env)
    requires x in env && y in env
    ensures Lookup([x, y], env) == Success([env[x], env[y]])
  {
    var r := Lookup([x, y], env);
    assert r.Success? && r.value == [env[x], env[y]];
  }

  lemma {:induction false} Lookup3(x: string, y: string, z: string, env: Env)
    requires x in env && y in env && z in env
    ensures Lookup([x, y, z], env) == Success([env[x], env[y], env[z]])
  {
    var r := Lookup([x, y, z], env);
    assert r.Success? && r.value == [env[x], env[y], env[z]];
  }

  /** The two extractions of one iteration. */
  lemma {:induction false} ExtractsRun(ops: seq<Operation>, rest: seq<Operation>, lv: Val, rv: Val, x: int, y: int,
          i: int, j: int, k: int, env: Env, mem: Memory, ctx: Context)
    requires |ops| == 2
    requires forall n :: 0 <= n < 2 ==>
        ops[n].opcode == Extract(false) && |ops[n].operands| == 3 && |ops[n].results| == 1
    requires forall n, m :: 0 <= n < 2 && 0 <= m < 3 ==> ops[n].operands[m] in env
    requires forall m :: 0 <= m < 3 ==> ops[1].operands[m] != ops[0].results[0].name
    requires Lookup(ops[0].operands, env) == Success([lv, Num(i), Num(k)])
    requires ExtractAt(lv, i, k, false, ctx, mem) == Success(Num(x))
    requires Lookup(ops[1].operands, env) == Success([rv, Num(k), Num(j)])
    requires ExtractAt(rv, k, j, false, ctx, mem) == Success(Num(y))
    ensures ExecOperations(ops + rest, env, mem, ctx)
         == ExecOperations(rest, env[ops[0].results[0].name := Num(x)][ops[1].results[0].name := Num(y)], mem, ctx)
  {
    hide ExecOperations, ExecOperation, Compute, ExtractAt;
    ExtractComputes(ops[0], lv, i, k, x, ctx, mem);
    assert ops + rest == [ops[0]] + ([ops[1]] + rest);
    ExecEmit(ops[0], [ops[1]] + rest, [lv, Num(i), Num(k)], Num(x), env, mem, ctx);
    var e1 := env[ops[0].results[0].name := Num(x)];
    var found := Lookup(ops[1].operands, e1);
    assert found.Success? && found.value == [rv, Num(k), Num(j)];
    ExtractComputes(ops[1], rv, k, j, y, ctx, mem);
    ExecEmit(ops[1], rest, [rv, Num(k), Num(j)], Num(y), e1, mem, ctx);
  }

  /** Multiply, accumulate and yield. */
  lemma {:induction false} AccumulateRuns(ops: seq<Operation>, x: int, y: int, acc: int, env: Env, mem: Memory,
          ctx: Context)
    requires |ops| == 3 && ops[0].opcode == Binary(Mul) && ops[1].opcode == Binary(Add) && ops[2].opcode.Yield?
    requires |ops[0].operands| == 2 && |ops[0].results| == 1 && |ops[1].results| == 1
    requires ops[1].operands == [ACC_ITER, ops[0].results[0].name] && ops[2].operands == [ops[1].results[0].name]
    requires ops[0].results[0].name != ACC_ITER
    requires Lookup(ops[0].operands, env) == Success([Num(x), Num(y)]) && ACC_ITER in env && env[ACC_ITER] == Num(acc)
    ensures var r := ExecOperations(ops, env, mem, ctx);
            r.Success? && r.value.yielded == [Num(acc + x * y)] && r.value.mem == mem
  {
    hide ExecOperation, ExecOperations, Compute;
    ArithComputes(ops[0], Mul, x, y, ctx, mem);
    assert ops == [ops[0]] + ops[1..] && ops[1..] == [ops[1]] + ops[2..];
    ExecEmit(ops[0], ops[1..], [Num(x), Num(y)], Num(x * y), env, mem, ctx);
    var e1 := env[ops[0].results[0].name := Num(x * y)];
    Lookup2(ACC_ITER, ops[0].results[0].name, e1);
    ArithComputes(ops[1], Add, acc, x * y, ctx, mem);
    ExecEmit(ops[1], ops[2..], [Num(acc), Num(x * y)], Num(acc + x * y), e1, mem, ctx);
    YieldRuns(ops[2..], ops[1].results[0].name, e1[ops[1].results[0].name := Num(acc + x * y)], mem, ctx);
  }

  /** One iteration: the accumulator gains the product of the two extracted elements. */
  lemma {:induction false} BodyRuns(names: seq<string>, lhs: string, rhs: string, t: LaneTypes, env: Env, mem: Memory,
          a: Matrix, b: Matrix, i: nat, j: nat, k: nat, acc: int, ctx: Context)
    requires BodyReady(names, lhs, rhs, env, mem, a, b, i, j, ctx) && k < a.cols && a.cols == b.rows
    ensures var x := ExecOperations(LaneBody(names, lhs, rhs, t), env[KK := Num(k)][ACC_ITER := Num(acc)], mem, ctx);
            x.Success? && x.value.yielded == [Num(acc + At(a, i, k) * At(b, k, j))] && x.value.mem == mem
  {
    hide ExecOperations, ExtractAt, Reads, Lookup;
    var ops := LaneBody(names, lhs, rhs, t);
    assert names[5] != names[1] && names[5] != names[6] && names[5] != names[0] && names[6] != names[0]
        && names[6] != names[1];
    var e0 := env[KK := Num(k)][ACC_ITER := Num(acc)];
    var x, y := At(a, i, k), At(b, k, j);
    ExtractReads(env[lhs], a, ctx.views, mem, ctx, i, k);
    ExtractReads(env[rhs], b, ctx.views, mem, ctx, k, j);
    Lookup3(lhs, names[0], KK, e0);
    Lookup3(rhs, KK, names[1], e0);
    assert ops == ops[..2] + ops[2..];
    ExtractsRun(ops[..2], ops[2..], env[lhs], env[rhs], x, y, i, j, k, e0, mem, ctx);
    var e2 := e0[names[5] := Num(x)][names[6] := Num(y)];
    Lookup2(names[5], names[6], e2);
    AccumulateRuns(ops[2..], x, y, acc, e2, mem, ctx);
  }

  /** What the loop body needs: both factors readable, the lane bound, names apart. */
  ghost predicate BodyReady(names: seq<string>, lhs: string, rhs: string, env: Env, mem: Memory, a: Matrix, b: Matrix,
          i: nat, j: nat, ctx: Context) {
    && |names| == 11
    && (forall n :: 0 <= n < 11 ==> names[n] != KK && names[n] != ACC_ITER && names[n] != lhs && names[n] != rhs)
    && (forall n, m :: 0 <= n < m < 11 ==> names[n] != names[m])
    && lhs !in {KK, ACC_ITER} && rhs !in {KK, ACC_ITER}
    && lhs in env && Reads(env[lhs], a, ctx.views, mem)
    && rhs in env && Reads(env[rhs], b, ctx.views, mem)
    && i < a.rows && j < b.cols
    && names[0] in env && env[names[0]] == Num(i)
    && names[1] in env && env[names[1]] == Num(j)
  }

  lemma {:induction false} YieldRuns(ops: seq<Operation>, name: string, env: Env, mem: Memory, ctx: Context)
    requires |ops| == 1 && ops[0].opcode.Yield? && ops[0].operands == [name] && name in env
    ensures ExecOperations(ops, env, mem, ctx) == Success(Finish([env[name]], env, mem))
  {
    Lookup1(name, env);
  }

  lemma {:induction false} ExtractComputes(op: Operation, v: Val, i: int, j: int, x: int, ctx: Context, mem: Memory)
    requires op.opcode == Extract(false) && ExtractAt(v, i, j, false, ctx, mem) == Success(Num(x))
    ensures Compute(op, [v, Num(i), Num(j)], ctx, mem) == Success(Num(x))
  {
  }

  lemma {:induction false} ArithComputes(op: Operation, f: BinaryOp, x: int, y: int, ctx: Context, mem: Memory)
    requires op.opcode == Binary(f)
    ensures Compute(op, [Num(x), Num(y)], ctx, mem) == Success(Num(ApplyBinary(f, x, y)))
  {
  }

  /** The K loop turns the partial sum of the first `k` terms into the full sum. */
  lemma {:induction false} LoopSums(names: seq<string>, lhs: string, rhs: string, t: LaneTypes, region: Block, env: Env,
          mem: Memory, a: Matrix, b: Matrix, i: nat, j: nat, k: nat, ctx: Context)
    requires BodyReady(names, lhs, rhs, env, mem, a, b, i, j, ctx) && k <= a.cols && a.cols == b.rows
    requires |region.args| == 2 && region.args[0].name == KK && region.args[1].name == ACC_ITER
    requires region.operations == LaneBody(names, lhs, rhs, t)
    ensures ExecLoop(region, env, mem, ctx, [Num(DotPrefix(a, b, i, j, k))], k, 1, a.cols - k)
         == Success(([Num(DotPrefix(a, b, i, j, a.cols))], mem))
    decreases a.cols - k
  {
    hide ExecOperations, LaneBody, Reads, BindValues;
    if k < a.cols {
      var acc := DotPrefix(a, b, i, j, k);
      BodyRuns(names, lhs, rhs, t, env, mem, a, b, i, j, k, acc, ctx);
      EnterIteration(region.args, k, acc, env);
      hide BodyReady;
      LoopSums(names, lhs, rhs, t, region, env, mem, a, b, i, j, k + 1, ctx);
      assert DotPrefix(a, b, i, j, k + 1) == acc + At(a, i, k) * At(b, k, j);
    }
  }

  lemma {:induction false} EnterIteration(args: seq<Value>, k: int, acc: int, env: Env)
    requires |args| == 2 && args[0].name == KK && args[1].name == ACC_ITER
    ensures BindValues(args, [Num(k)] + [Num(acc)], env) == env[KK := Num(k)][ACC_ITER := Num(acc)]
  {
    assert args[1..][1..] == [];
    assert ([Num(k)] + [Num(acc)])[1..] == [Num(acc)];
  }

  // ----- one lane -----

  ghost function LaneBindings(names: seq<string>, lane: Lane, extent: Extent, k: nat, env: Env): Env
    requires |names| == 11
  {
    var e := env[names[0] := Num(lane.0)][names[1] := Num(lane.1)][names[2] := Num(0)][names[3] := Num(1)][names[4] :=
        Num(0)];
    if extent.FromSymbol? then e else e[names[10] := Num(k)]
  }

  lemma {:induction false} OffsetComputes(op: Operation, v: Val, ctx: Context, mem: Memory)
    requires op.opcode in {Offset(0, true), Offset(1, true)} && v.Ref? && v.name in ctx.views && ctx.lane.Some?
    ensures Compute(op, [v], ctx, mem) ==
        Success(Num(if op.opcode.axis == 0 then ctx.lane.value.0 else ctx.lane.value.1))
  {
  }

  lemma {:induction false} ConstantComputes(op: Operation, ctx: Context, mem: Memory)
    requires op.opcode.Constant?
    ensures Compute(op, [], ctx, mem) == Success(Num(op.opcode.value)) && Lookup([], map[]) == Success([])
  {
  }

  lemma {:induction false} ExtentComputes(op: Operation, v: Val, m: Matrix, ctx: Context, mem: Memory)
    requires op.opcode == ShapeDim(-1) && Reads(v, m, ctx.views, mem)
    ensures Compute(op, [v], ctx, mem) == Success(Num(m.cols))
  {
  }

  lemma {:induction false} OffsetsRun(names: seq<string>, output: string, rest: seq<Operation>, env: Env, mem: Memory,
          lane: Lane, ctx: Context)
    requires |names| == 11 && output in env && env[output].Ref? && env[output].name in ctx.views && names[0] != output
    requires ctx.lane == Some(lane)
    ensures ExecOperations([LaneOperation(Offset(0, true), [output], names[0], INDEX),
        LaneOperation(Offset(1, true), [output], names[1], INDEX)] + rest, env, mem, ctx)
         == ExecOperations(rest, env[names[0] := Num(lane.0)][names[1] := Num(lane.1)], mem, ctx)
  {
    hide ExecOperations, Compute;
    var first, second := LaneOperation(Offset(0, true), [output], names[0], INDEX),
        LaneOperation(Offset(1, true), [output], names[1], INDEX);
    assert [first, second] + rest == [first] + ([second] + rest);
    Lookup1(output, env);
    OffsetComputes(first, env[output], ctx, mem);
    ExecEmit(first, [second] + rest, [env[output]], Num(lane.0), env, mem, ctx);
    var e1 := env[names[0] := Num(lane.0)];
    Lookup1(output, e1);
    OffsetComputes(second, env[output], ctx, mem);
    ExecEmit(second, rest, [env[output]], Num(lane.1), e1, mem, ctx);
  }

  lemma {:induction false} ConstantRuns(value: int, name: string, t: Type, rest: seq<Operation>, env: Env, mem: Memory,
          ctx: Context)
    ensures ExecOperations([LaneOperation(Constant(value), [], name, t)] + rest, env, mem, ctx) ==
        ExecOperations(rest, env[name := Num(value)], mem, ctx)
  {
    hide ExecOperations, Compute;
    var op := LaneOperation(Constant(value), [], name, t);
    ConstantComputes(op, ctx, mem);
    ExecEmit(op, rest, [], Num(value), env, mem, ctx);
  }

  lemma {:induction false} ConstantsRun(names: seq<string>, t: LaneTypes, rest: seq<Operation>, env: Env, mem: Memory,
          ctx: Context)
    requires |names| == 11
    ensures
      var ops := [LaneOperation(Constant(0), [], names[2], SCALAR_INT),
          LaneOperation(Constant(1), [], names[3], SCALAR_INT), LaneOperation(Constant(0), [], names[4], t.scalar)];
      ExecOperations(ops + rest, env, mem, ctx) ==
          ExecOperations(rest, env[names[2] := Num(0)][names[3] := Num(1)][names[4] := Num(0)], mem, ctx)
  {
    hide ExecOperations, LaneOperation;
    var zero, one, init := LaneOperation(Constant(0), [], names[2], SCALAR_INT),
        LaneOperation(Constant(1), [], names[3], SCALAR_INT), LaneOperation(Constant(0), [], names[4], t.scalar);
    assert [zero, one, init] + rest == [zero] + ([one] + ([init] + rest));
    ConstantRuns(0, names[2], SCALAR_INT, [one] + ([init] + rest), env, mem, ctx);
    ConstantRuns(1, names[3], SCALAR_INT, [init] + rest, env[names[2] := Num(0)], mem, ctx);
    ConstantRuns(0, names[4], t.scalar, rest, env[names[2] := Num(0)][names[3] := Num(1)], mem, ctx);
  }

  lemma {:induction false} ExtentRuns(lhs: string, name: string, rest: seq<Operation>, env: Env, mem: Memory, a: Matrix,
          ctx: Context)
    requires lhs in env && Reads(env[lhs], a, ctx.views, mem)
    ensures ExecOperations([Operation(ShapeDim(-1), [lhs], [Value(name, INDEX64)], NO_ATTRS, [])] + rest, env, mem,
        ctx) == ExecOperations(rest, env[name := Num(a.cols)], mem, ctx)
  {
    hide ExecOperations, Compute, Reads;
    var op := Operation(ShapeDim(-1), [lhs], [Value(name, INDEX64)], NO_ATTRS, []);
    Lookup1(lhs, env);
    ExtentComputes(op, env[lhs], a, ctx, mem);
    ExecEmit(op, rest, [env[lhs]], Num(a.cols), env, mem, ctx);
  }

  /** Everything before the loop. */
  lemma {:induction false} PrefixRuns(names: seq<string>, lhs: string, output: string, extent: Extent, t: LaneTypes,
          rest: seq<Operation>, env: Env, mem: Memory, a: Matrix, lane: Lane, ctx: Context)
    requires |names| == 11 && output in env && env[output].Ref? && env[output].name in ctx.views && lhs in env
    requires ctx.lane == Some(lane)
    requires forall n :: 0 <= n < 11 ==> names[n] != output && names[n] != lhs
    requires Reads(env[lhs], a, ctx.views, mem)
    ensures ExecOperations(LanePrefix(names, lhs, output, extent, t) + rest, env, mem, ctx) ==
        ExecOperations(rest, LaneBindings(names, lane, extent, a.cols, env), mem, ctx)
  {
    hide ExecOperations, Reads, LaneOperation;
    var offsets := [LaneOperation(Offset(0, true), [output], names[0], INDEX),
        LaneOperation(Offset(1, true), [output], names[1], INDEX)];
    var constants := [LaneOperation(Constant(0), [], names[2], SCALAR_INT),
        LaneOperation(Constant(1), [], names[3], SCALAR_INT), LaneOperation(Constant(0), [], names[4], t.scalar)];
    var bound := if extent.FromSymbol? then []
        else [Operation(ShapeDim(-1), [lhs], [Value(names[10], INDEX64)], NO_ATTRS, [])];
    assert LanePrefix(names, lhs, output, extent, t) + rest == offsets + (constants + (bound + rest));
    OffsetsRun(names, output, constants + (bound + rest), env, mem, lane, ctx);
    var e2 := env[names[0] := Num(lane.0)][names[1] := Num(lane.1)];
    ConstantsRun(names, t, bound + rest, e2, mem, ctx);
    var e5 := e2[names[2] := Num(0)][names[3] := Num(1)][names[4] := Num(0)];
    if extent.FromShape? {
      ExtentRuns(lhs, names[10], rest, e5, mem, a, ctx);
    } else {
      assert bound + rest == rest;
    }
  }

  lemma {:induction false} Lookup4(a: string, b: string, c: string, d: string, env: Env)
    requires a in env && b in env && c in env && d in env
    ensures Lookup([a, b, c, d], env) == Success([env[a], env[b], env[c], env[d]])
  {
    var r := Lookup([a, b, c, d], env);
    assert r.Success? && r.value == [env[a], env[b], env[c], env[d]];
  }

  lemma {:induction false} ExecUnitFor(loop: Operation, region: Block, count: nat, initial: Val, env: Env, mem: Memory,
          ctx: Context)
    requires loop.opcode.For? && loop.regions == [region] && |loop.results| == 1
    requires Lookup(loop.operands, env) == Success([Num(0), Num(count), Num(1), initial])
    ensures var x := ExecLoop(region, env, mem, ctx, [initial], 0, 1, count);
            x.Success? && |x.value.0| == 1 ==> ExecOperation(loop, env, mem, ctx) == x
  {
    hide ExecLoop;
    var args := [Num(0), Num(count), Num(1), initial];
    assert args[3..] == [initial];
    assert RangeLength(0, count, 1) == count;
    var x := ExecLoop(region, env, mem, ctx, [initial], 0, 1, count);
    if x.Success? && |x.value.0| == 1 {
      assert x.value.0 == [x.value.0[0]];
    }
  }

  /** The loop, with its bounds and initial accumulator bound, delivers the full sum. */
  lemma {:induction false} LoopDelivers(names: seq<string>, lhs: string, rhs: string, bound: string, t: LaneTypes,
          env: Env, mem: Memory, a: Matrix, b: Matrix, lane: Lane, ctx: Context)
    requires BodyReady(names, lhs, rhs, env, mem, a, b, lane.0, lane.1, ctx) && a.cols == b.rows
    requires names[2] in env && bound in env && names[3] in env && names[4] in env
    requires env[names[2]] == Num(0) && env[bound] == Num(a.cols) && env[names[3]] == Num(1) && env[names[4]] == Num(0)
    ensures ExecOperation(LaneLoop(names, lhs, rhs, bound, t), env, mem, ctx) ==
        Success(([Num(DotPrefix(a, b, lane.0, lane.1, a.cols))], mem))
  {
    hide LaneBody, ExecOperation, ExecLoop;
    var loop := LaneLoop(names, lhs, rhs, bound, t);
    Lookup4(names[2], bound, names[3], names[4], env);
    LoopSums(names, lhs, rhs, t, loop.regions[0], env, mem, a, b, lane.0, lane.1, 0, ctx);
    ExecUnitFor(loop, loop.regions[0], a.cols, Num(0), env, mem, ctx);
  }

  lemma {:induction false} UnmaskedView(v: View, ones: Matrix)
    requires ones.rows == v.row.rows && ones.cols == v.row.cols
    requires forall i, j :: Within(ones, i, j) ==> At(ones, i, j) != 0
    ensures Masked(v, ones) == v
  {
    var valid := Masked(v, ones).valid;
    forall i | 0 <= i < v.row.rows
      ensures valid.cells[i] == v.valid.cells[i]
    {
      forall j | 0 <= j < v.row.cols
        ensures valid.cells[i][j] == v.valid.cells[i][j]
      {
        assert At(valid, i, j) == At(v.valid, i, j);
      }
    }
    assert valid.cells == v.valid.cells;
  }

  /** A decomposed store writes its scalar through the current lane only. */
  lemma {:induction false} LaneStoreWrites(op: Operation, value: int, target: string, tile: Matrix, lane: Lane,
          ctx: Context, mem: Memory)
    requires op.opcode.Store? && !op.attrs.decomposition.NotDecomposed? && ctx.lane == Some(lane)
    requires Reachable(ctx, mem, target) && InView(ctx.views[target], lane)
    requires tile.rows == ctx.views[target].row.rows && tile.cols == ctx.views[target].row.cols
    requires At(tile, lane.0, lane.1) == value
    ensures var view := ctx.views[target];
            StoreOperation(op, [Num(value), Ref(target)], [], ctx, mem) ==
                Success(mem[view.storage := StoreLanes(view, mem[view.storage], tile, [lane])])
  {
    var view := ctx.views[target];
    var args := [Num(value), Ref(target)];
    var mask := MaskOf(args, view.row.rows, view.row.cols, ctx, mem).value;
    var only := Masked(view, OnlyAt(mask, lane));
    var spread := Broadcast(Num(value), view.row.rows, view.row.cols).value;
    OnlyLaneWrites(view, mask, lane, spread, tile, mem[view.storage]);
    assert WriteThrough(only, Num(value), [lane], mem) ==
        Success(mem[view.storage := StoreLanes(only, mem[view.storage], spread, [lane])]);
  }

  /** Where every other lane is switched off, one lane writes what it writes in the whole view. */
  lemma {:induction false} OnlyLaneWrites(view: View, mask: Matrix, lane: Lane, spread: Matrix, tile: Matrix, m: Matrix)
    requires mask.rows == spread.rows == tile.rows == view.row.rows
    requires mask.cols == spread.cols == tile.cols == view.row.cols
    requires InView(view, lane) && AccessHolds(view, m) && At(mask, lane.0, lane.1) != 0
    requires At(spread, lane.0, lane.1) == At(tile, lane.0, lane.1)
    ensures AccessHolds(Masked(view, OnlyAt(mask, lane)), m)
    ensures StoreLanes(Masked(view, OnlyAt(mask, lane)), m, spread, [lane]) == StoreLanes(view, m, tile, [lane])
  {
    var only, one := Masked(view, OnlyAt(mask, lane)), [lane];
    forall i, j | 0 <= i < view.row.rows && 0 <= j < view.row.cols && Live(only, (i, j))
      ensures Within(m, At(view.row, i, j), At(view.col, i, j))
    {
      assert Live(view, (i, j));
    }
    assert Live(only, lane) <==> Live(view, lane);
    assert one[1..] == [];
  }

  /** A lane runs its prefix and its loop, and is left with the full sum to store. */
  lemma {:induction false} LaneSums(names: seq<string>, lhs: string, rhs: string, output: string, extent: Extent,
          store: Operation, t: LaneTypes, env: Env, mem: Memory, a: Matrix, b: Matrix, lane: Lane, ctx: Context)
    returns (loop: Operation, last: Operation, e: Env)
    requires Decomposable(names, lhs, rhs, output, extent, env, ctx.views, a, b) && ctx.lane == Some(lane)
    requires Reads(env[lhs], a, ctx.views, mem) && Reads(env[rhs], b, ctx.views, mem)
    requires InView(ctx.views[env[output].name], lane)
    ensures a.cols == b.rows && lane.0 < a.rows && lane.1 < b.cols
    ensures loop.opcode.For? && |loop.results| == 1 && last == LaneStore(loop.results[0].name, lhs, rhs, output, store)
    ensures ExecOperation(loop, e, mem, ctx) == Success(([Num(DotPrefix(a, b, lane.0, lane.1, a.cols))], mem))
    ensures output in e && e[output] == env[output] && output != loop.results[0].name
    ensures ExecOperations(LaneOperations(names, lhs, rhs, output, extent, store, t), env, mem, ctx) ==
        ExecOperations([loop] + [last], e, mem, ctx)
  {
    var bound := BoundName(names, extent);
    loop, last := LaneLoop(names, lhs, rhs, bound, t), LaneStore(names[9], lhs, rhs, output, store);
    LaneReadyAfterPrefix(names, lhs, rhs, output, extent, env, mem, a, b, lane, ctx);
    e := LaneBindings(names, lane, extent, a.cols, env);
    hide ExecOperations, ExecOperation, LanePrefix, BodyReady, LaneBindings, Reads, LaneBody, DotPrefix;
    PrefixRuns(names, lhs, output, extent, t, [loop] + [last], env, mem, a, lane, ctx);
    assert [loop, last] == [loop] + [last];
    hide Decomposable;
    LoopDelivers(names, lhs, rhs, bound, t, e, mem, a, b, lane, ctx);
  }

  /** One lane of the decomposed block stores one element of the matrix product. */
  lemma {:induction false} LaneRuns(names: seq<string>, lhs: string, rhs: string, output: string, target: string,
          extent: Extent, store: Operation, t: LaneTypes, env: Env, mem: Memory, a: Matrix, b: Matrix, lane: Lane,
          ctx: Context)
    requires Decomposable(names, lhs, rhs, output, extent, env, ctx.views, a, b) && ctx.lane == Some(lane)
    requires Reads(env[lhs], a, ctx.views, mem) && Reads(env[rhs], b, ctx.views, mem)
    requires store.attrs.indices == [] && env[output] == Ref(target)
    requires Reachable(ctx, mem, target) && InView(ctx.views[target], lane)
    ensures a.cols == b.rows && a.rows == ctx.views[target].row.rows && b.cols == ctx.views[target].row.cols
    ensures var view := ctx.views[target];
            var x := ExecOperations(LaneOperations(names, lhs, rhs, output, extent, store, t), env, mem, ctx);
            x.Success? && x.value.mem == mem[view.storage := StoreLanes(view, mem[view.storage], Product(a, b), [lane])]
  {
    var loop, last, e := LaneSums(names, lhs, rhs, output, extent, store, t, env, mem, a, b, lane, ctx);
    var tile := Product(a, b);
    assert Within(tile, lane.0, lane.1) && At(tile, lane.0, lane.1) == DotPrefix(a, b, lane.0, lane.1, a.cols);
    hide ExecOperations, ExecOperation, LaneOperations, Reads, StoreLanes, Product, DotPrefix;
    LoopThenStore(loop, last, At(tile, lane.0, lane.1), output, target, tile, lane, e, mem, ctx);
  }

  lemma {:induction false} LaneReadyAfterPrefix(names: seq<string>, lhs: string, rhs: string, output: string,
          extent: Extent, env: Env, mem: Memory, a: Matrix, b: Matrix, lane: Lane, ctx: Context)
    requires Decomposable(names, lhs, rhs, output, extent, env, ctx.views, a, b)
    requires Reads(env[lhs], a, ctx.views, mem) && Reads(env[rhs], b, ctx.views, mem)
    requires InView(ctx.views[env[output].name], lane)
    ensures var e := LaneBindings(names, lane, extent, a.cols, env);
            var bound := BoundName(names, extent);
            && BodyReady(names, lhs, rhs, e, mem, a, b, lane.0, lane.1, ctx) && a.cols == b.rows
            && names[2] in e && bound in e && names[3] in e && names[4] in e && output in e && e[output] == env[output]
            && output != names[9]
            && e[names[2]] == Num(0) && e[bound] == Num(a.cols) && e[names[3]] == Num(1) && e[names[4]] == Num(0)
            && a.rows == ctx.views[env[output].name].row.rows && b.cols == ctx.views[env[output].name].row.cols
  {
    hide Reads;
    var e := LaneBindings(names, lane, extent, a.cols, env);
    forall x | x in env
      ensures x in e && e[x] == env[x]
    {
      assert forall n :: 0 <= n < 11 ==> names[n] != x;
    }
    BoundLaneNames(names, lane, extent, a.cols, env);
  }

  lemma {:induction false} BoundLaneNames(names: seq<string>, lane: Lane, extent: Extent, k: nat, env: Env)
    requires |names| == 11 && forall i, j :: 0 <= i < j < 11 ==> names[i] != names[j]
    ensures var e := LaneBindings(names, lane, extent, k, env);
            && (forall n :: 0 <= n < 5 ==> names[n] in e)
            && e[names[0]] == Num(lane.0) && e[names[1]] == Num(lane.1) && e[names[2]] == Num(0)
            && e[names[3]] == Num(1) && e[names[4]] == Num(0)
            && (extent.FromShape? ==> names[10] in e && e[names[10]] == Num(k))
  {
    var n0, n1, n2, n3, n4, n10 := names[0], names[1], names[2], names[3], names[4], names[10];
    assert n0 != n1 && n0 != n2 && n0 != n3 && n0 != n4 && n0 != n10;
    assert n1 != n2 && n1 != n3 && n1 != n4 && n1 != n10;
    assert n2 != n3 && n2 != n4 && n2 != n10 && n3 != n4 && n3 != n10 && n4 != n10;
  }

  lemma {:induction false} LoopThenStore(loop: Operation, last: Operation, sum: int, output: string, target: string,
          tile: Matrix, lane: Lane, env: Env, mem: Memory, ctx: Context)
    requires loop.opcode.For? && |loop.results| == 1 && ExecOperation(loop, env, mem, ctx) == Success(([Num(sum)], mem))
    requires last.opcode.Store? && last.operands == [loop.results[0].name, output] && last.results == []
    requires last.attrs.indices == [] && last.attrs.decomposition == MatMulLane
    requires output in env && output != loop.results[0].name && env[output] == Ref(target) && ctx.lane == Some(lane)
    requires Reachable(ctx, mem, target) && InView(ctx.views[target], lane)
    requires tile.rows == ctx.views[target].row.rows && tile.cols == ctx.views[target].row.cols
    requires At(tile, lane.0, lane.1) == sum
    ensures var view := ctx.views[target];
            var x := ExecOperations([loop] + [last], env, mem, ctx);
            x.Success? && x.value.mem == mem[view.storage := StoreLanes(view, mem[view.storage], tile, [lane])]
  {
    hide StoreOperation, StoreLanes, ExecOperations;
    var e1 := env[loop.results[0].name := Num(sum)];
    assert BindValues(loop.results, [Num(sum)], env) == e1;
    LoopFirst(loop, last, sum, env, mem, ctx);
    ScalarStoreRuns(last, loop.results[0].name, sum, output, target, tile, lane, e1, mem, ctx);
  }

  lemma {:induction false} LoopFirst(loop: Operation, last: Operation, sum: int, env: Env, mem: Memory, ctx: Context)
    requires !loop.opcode.Yield? && ExecOperation(loop, env, mem, ctx) == Success(([Num(sum)], mem))
    ensures ExecOperations([loop] + [last], env, mem, ctx) ==
        ExecOperations([last], BindValues(loop.results, [Num(sum)], env), mem, ctx)
  {
    hide ExecOperation;
    assert ([loop] + [last])[1..] == [last];
  }

  /** The decomposed store of a bound scalar. */
  lemma {:induction false} ScalarStoreRuns(last: Operation, name: string, value: int, output: string, target: string,
          tile: Matrix, lane: Lane, env: Env, mem: Memory, ctx: Context)
    requires last.opcode.Store? && last.operands == [name, output] && last.results == [] && last.attrs.indices == []
    requires !last.attrs.decomposition.NotDecomposed?
    requires name in env && env[name] == Num(value) && output in env && env[output] == Ref(target)
    requires ctx.lane == Some(lane)
    requires Reachable(ctx, mem, target) && InView(ctx.views[target], lane)
    requires tile.rows == ctx.views[target].row.rows && tile.cols == ctx.views[target].row.cols
    requires At(tile, lane.0, lane.1) == value
    ensures var view := ctx.views[target];
            var x := ExecOperations([last], env, mem, ctx);
            x.Success? && x.value.mem == mem[view.storage := StoreLanes(view, mem[view.storage], tile, [lane])]
  {
    hide StoreOperation, StoreLanes;
    assert [last][1..] == [];
    Lookup2(name, output, env);
    LaneStoreWrites(last, value, target, tile, lane, ctx, mem);
    var after := StoreOperation(last, [Num(value), Ref(target)], [], ctx, mem).value;
    assert Lookup(last.attrs.indices, env) == Success([]);
    assert ExecOperation(last, env, mem, ctx) == Success(([], after));
    assert ExecOperations([last], env, mem, ctx) == ExecOperations([last][1..], BindValues([], [], env), after, ctx);
  }

  // ----- all lanes -----

  lemma {:induction false} ReadsKept(v: Val, m: Matrix, views: map<string, View>, mem: Memory, storage: string,
          contents: Matrix)
    requires Reads(v, m, views, mem) && Apart(v, storage, views)
    ensures Reads(v, m, views, mem[storage := contents])
  {
  }

  lemma {:induction false} LanesRun(names: seq<string>, lhs: string, rhs: string, output: string, target: string,
          extent: Extent, store: Operation, t: LaneTypes, ops: seq<Operation>, env: Env, mem: Memory,
          views: map<string, View>, view: View, a: Matrix, b: Matrix, lanes: seq<Lane>)
    requires Decomposable(names, lhs, rhs, output, extent, env, views, a, b) && store.attrs.indices == []
    requires env[output] == Ref(target)
    requires ops == LaneOperations(names, lhs, rhs, output, extent, store, t)
    requires Reads(env[lhs], a, views, mem) && Reads(env[rhs], b, views, mem)
    requires Reachable(Context(views, None), mem, target) && view == views[target]
    requires forall lane :: lane in lanes ==> InView(view, lane)
    ensures a.cols == b.rows && a.rows == view.row.rows && b.cols == view.row.cols
    ensures RunLanes(ops, env, mem, views, view, lanes) ==
        Success(mem[view.storage := StoreLanes(view, mem[view.storage], Product(a, b), lanes)])
    decreases |lanes|
  {
    hide ExecOperations, LaneOperations, Reads, Product;
    if lanes == [] {
      assert mem[view.storage := mem[view.storage]] == mem;
    } else {
      if Live(view, lanes[0]) {
        LaneRuns(names, lhs, rhs, output, target, extent, store, t, env, mem, a, b, lanes[0],
            Context(views, Some(lanes[0])));
        var next := StoreOne(view, mem[view.storage], Product(a, b), lanes);
        ReadsKept(env[lhs], a, views, mem, view.storage, next);
        ReadsKept(env[rhs], b, views, mem, view.storage, next);
        var after := mem[view.storage := next];
        hide Decomposable;
        LanesRun(names, lhs, rhs, output, target, extent, store, t, ops, env, after, views, view, a, b, lanes[1..]);
        assert after[view.storage := StoreLanes(view, next, Product(a, b), lanes[1..])] ==
            mem[view.storage := StoreLanes(view, next, Product(a, b), lanes[1..])];
      } else {
        LanesRun(names, lhs, rhs, output, target, extent, store, t, ops, env, mem, views, view, a, b, lanes[1..]);
      }
    }
  }

  /** Storing the first live lane, then the others. */
  lemma {:induction false} StoreOne(view: View, m: Matrix, tile: Matrix, lanes: seq<Lane>) returns (next: Matrix)
    requires AccessHolds(view, m) && tile.rows == view.row.rows && tile.cols == view.row.cols
    requires lanes != [] && (forall lane :: lane in lanes ==> InView(view, lane)) && Live(view, lanes[0])
    ensures next == StoreLanes(view, m, tile, [lanes[0]]) && next.rows == m.rows && next.cols == m.cols
    ensures StoreLanes(view, m, tile, lanes) == StoreLanes(view, next, tile, lanes[1..])
  {
    var one := [lanes[0]];
    assert one[1..] == [];
    next := StoreLanes(view, m, tile, one);
  }

  // ----- the original pair -----

  lemma {:induction false} MaterializesTo(v: Val, m: Matrix, ctx: Context, mem: Memory)
    requires Reads(v, m, ctx.views, mem)
    ensures Materialize(v, ctx, mem) == Success(Tile(m))
  {
  }

  lemma {:induction false} MatMulComputes(op: Operation, x: Val, y: Val, a: Matrix, b: Matrix, ctx: Context,
          mem: Memory)
    requires op.opcode.MatMul? && Reads(x, a, ctx.views, mem) && Reads(y, b, ctx.views, mem) && a.cols == b.rows
    ensures Compute(op, [x, y], ctx, mem) == Success(Tile(Product(a, b)))
  {
    hide Product, Materialize, Reads;
    MaterializesTo(x, a, ctx, mem);
    MaterializesTo(y, b, ctx, mem);
    assert Compute(op, [x, y], ctx, mem) == Success(Tile(Product(a, b)));
  }

  lemma {:induction false} TileStoreWrites(op: Operation, tile: Matrix, target: string, ctx: Context, mem: Memory)
    requires op.opcode.Store? && op.attrs.decomposition == NotDecomposed
    requires Reachable(ctx, mem, target) && tile.rows == ctx.views[target].row.rows
    requires tile.cols == ctx.views[target].row.cols
    ensures var view := ctx.views[target];
            StoreOperation(op, [Tile(tile), Ref(target)], [], ctx, mem) ==
                Success(mem[view.storage := StoreLanes(view, mem[view.storage], tile, Lanes(view))])
  {
    var view := ctx.views[target];
    var mask := MaskOf([Tile(tile), Ref(target)], view.row.rows, view.row.cols, ctx, mem).value;
    UnmaskedView(view, mask);
    SpreadOwnShape(tile);
  }

  lemma {:induction false} SpreadOwnShape(tile: Matrix)
    ensures Broadcast(Tile(tile), tile.rows, tile.cols) == Some(tile)
  {
    var spread := Broadcast(Tile(tile), tile.rows, tile.cols).value;
    forall i | 0 <= i < tile.rows
      ensures spread.cells[i] == tile.cells[i]
    {
      forall j | 0 <= j < tile.cols
        ensures spread.cells[i][j] == tile.cells[i][j]
      {
        assert At(spread, i, j) == At(tile, i, j);
      }
    }
    assert spread.cells == tile.cells;
  }

  /** An operand pair, the names that bind it and the output it is stored to. */
  ghost predicate StoredProduct(matmul: Operation, store: Operation, target: string, env: Env, mem: Memory,
          views: map<string, View>, a: Matrix, b: Matrix) {
    && ClosesMatMul(matmul, store)
    && |store.operands| == 2 && store.results == [] && store.attrs.indices == []
    && store.attrs.decomposition == NotDecomposed
    && matmul.operands[0] in env && matmul.operands[1] in env
    && store.operands[1] in env && env[store.operands[1]] == Ref(target) && store.operands[1] != matmul.results[0].name
    && Reads(env[matmul.operands[0]], a, views, mem) && Reads(env[matmul.operands[1]], b, views, mem)
    && a.cols == b.rows
    && Reachable(Context(views, None), mem, target)
    && a.rows == views[target].row.rows && b.cols == views[target].row.cols
  }

  /** The original pair: a whole-tile product and its store. */
  lemma {:induction false} WholeTileRuns(matmul: Operation, store: Operation, target: string, env: Env, mem: Memory,
          views: map<string, View>, a: Matrix, b: Matrix)
    requires StoredProduct(matmul, store, target, env, mem, views, a, b)
    ensures var x := ExecOperations([matmul, store], env, mem, Context(views, None));
            x.Success? && x.value.mem ==
                mem[views[target].storage := StoreLanes(views[target], mem[views[target].storage], Product(a, b),
                Lanes(views[target]))]
  {
    hide StoreOperation, StoreLanes, Product, ExecOperations, Compute, Reads;
    var ctx := Context(views, None);
    var lhs, rhs := matmul.operands[0], matmul.operands[1];
    Lookup2(lhs, rhs, env);
    assert matmul.operands == [lhs, rhs];
    MatMulComputes(matmul, env[lhs], env[rhs], a, b, ctx, mem);
    ExecEmit(matmul, [store], [env[lhs], env[rhs]], Tile(Product(a, b)), env, mem, ctx);
    assert [matmul] + [store] == [matmul, store];
    StoreRuns(store, Product(a, b), target, env[matmul.results[0].name := Tile(Product(a, b))], mem, ctx);
  }

  lemma {:induction false} StoreRuns(store: Operation, tile: Matrix, target: string, env: Env, mem: Memory,
          ctx: Context)
    requires store.opcode.Store? && |store.operands| == 2 && store.results == [] && store.attrs.indices == []
    requires store.attrs.decomposition == NotDecomposed
    requires store.operands[0] in env && env[store.operands[0]] == Tile(tile) && store.operands[1] in env
    requires env[store.operands[1]] == Ref(target)
    requires Reachable(ctx, mem, target) && tile.rows == ctx.views[target].row.rows
    requires tile.cols == ctx.views[target].row.cols
    ensures var view := ctx.views[target];
            var x := ExecOperations([store], env, mem, ctx);
            x.Success? && x.value.mem == mem[view.storage := StoreLanes(view, mem[view.storage], tile, Lanes(view))]
  {
    hide StoreOperation, StoreLanes;
    Lookup2(store.operands[0], store.operands[1], env);
    assert store.operands == [store.operands[0], store.operands[1]];
    TileStoreWrites(store, tile, target, ctx, mem);
    var after := StoreOperation(store, [Tile(tile), Ref(target)], [], ctx, mem).value;
    assert Lookup(store.attrs.indices, env) == Success([]);
    assert ExecOperation(store, env, mem, ctx) == Success(([], after));
    var one := [store];
    assert one[1..] == [];
    assert ExecOperations(one, env, mem, ctx) == ExecOperations(one[1..], BindValues([], [], env), after, ctx);
  }

  /** Asking for one more name does not change the earlier ones. */
  lemma {:induction false} FreshPrefix(existing: set<string>, n: nat, count: nat)
    ensures FreshNames(existing, n, count + 1).0[..count] == FreshNames(existing, n, count).0
    decreases count
  {
    if count > 0 {
      var index := FreshIndex(existing, n);
      FreshPrefix(existing + {TempName(index)}, index + 1, count - 1);
    }
  }

  lemma {:induction false} ElevenFresh(existing: set<string>, counter: nat) returns (names: seq<string>)
    ensures |names| == 11 && names == FreshNames(existing, counter, 11).0
    ensures FreshNames(existing, counter, 10).0 == names[..10]
    ensures forall i :: 0 <= i < 11 ==> names[i] !in existing && names[i] != KK && names[i] != ACC_ITER
    ensures forall i :: 0 <= i < 11 ==> exists m: nat :: names[i] == TempName(m)
    ensures forall i, j :: 0 <= i < j < 11 ==> names[i] != names[j]
  {
    names := FreshNames(existing, counter, 11).0;
    FreshPrefix(existing, counter, 10);
    forall i | 0 <= i < 11
      ensures names[i] != KK && names[i] != ACC_ITER
    {
      var m: nat :| names[i] == TempName(m);
      HardCodedNamesAreNotTemps(m);
    }
  }

  /** The scalar block of the pass is a lane block over eleven fresh names. */
  lemma {:induction false} GeneratedBlock(matmul: Operation, store: Operation, types: map<string, Type>,
          existing: set<string>, counter: nat)
    returns (names: seq<string>, t: LaneTypes)
    requires ClosesMatMul(matmul, store)
    ensures |names| == 11
    ensures DecomposeMatMulStore(matmul, store, types, existing, counter).0
         == LaneOperations(names, matmul.operands[0], matmul.operands[1], store.operands[1],
             ExtentOf(matmul.attrs.k, TypeOf(types, matmul.operands[0]), TypeOf(types, matmul.operands[1])), store, t)
    ensures forall i :: 0 <= i < 11 ==> names[i] !in existing && names[i] != KK && names[i] != ACC_ITER
    ensures forall i :: 0 <= i < 11 ==> exists m: nat :: names[i] == TempName(m)
    ensures forall i, j :: 0 <= i < j < 11 ==> names[i] != names[j]
  {
    hide FreshNames, LaneOperations;
    var lhs, rhs, output := matmul.operands[0], matmul.operands[1], store.operands[1];
    var outputType := TypeOf(types, output).GetOr(matmul.results[0].typ);
    t := LaneTypes(ScalarType(outputType), ScalarType(TypeOf(types, lhs).GetOr(outputType)),
        ScalarType(TypeOf(types, rhs).GetOr(outputType)));
    names := ElevenFresh(existing, counter);
    var extent := ExtentOf(matmul.attrs.k, TypeOf(types, lhs), TypeOf(types, rhs));
    if extent.FromSymbol? {
      PaddingIsUnused(names[..10], "", names[10], lhs, rhs, output, extent, store, t);
      assert names == names[..10] + [names[10]];
    }
  }

  lemma {:induction false} PaddingIsUnused(names: seq<string>, x: string, y: string, lhs: string, rhs: string,
          output: string, extent: Extent, store: Operation, t: LaneTypes)
    requires |names| == 10 && extent.FromSymbol?
    ensures LaneOperations(names + [x], lhs, rhs, output, extent, store, t) ==
        LaneOperations(names + [y], lhs, rhs, output, extent, store, t)
  {
  }

  /** Decomposition preserves meaning: replaying the scalar block the pass generates,
      once for every live lane of the output, leaves exactly the memory of the whole-tile
      product and store, for every extent of M, N and K, zero included. */
  lemma {:induction false} DecompositionPreservesMeaning(matmul: Operation, store: Operation, target: string,
          types: map<string, Type>, existing: set<string>, counter: nat, env: Env, mem: Memory,
          views: map<string, View>, a: Matrix, b: Matrix)
    requires StoredProduct(matmul, store, target, env, mem, views, a, b)
    requires Apart(env[matmul.operands[0]], views[target].storage, views)
    requires Apart(env[matmul.operands[1]], views[target].storage, views)
    requires env.Keys <= existing && KK !in env && ACC_ITER !in env
    requires
      var extent := ExtentOf(matmul.attrs.k, TypeOf(types, matmul.operands[0]), TypeOf(types, matmul.operands[1]));
      extent.FromSymbol? ==> extent.name in env && env[extent.name] == Num(a.cols)
    ensures var whole := ExecOperations([matmul, store], env, mem, Context(views, None));
            var replayed := RunLanes(DecomposeMatMulStore(matmul, store, types, existing, counter).0, env, mem, views,
                views[target], Lanes(views[target]));
            whole.Success? && replayed == Success(whole.value.mem)
  {
    hide ExecOperations, LaneOperations, Reads, DecomposeMatMulStore;
    var names, t := GeneratedBlock(matmul, store, types, existing, counter);
    var extent := ExtentOf(matmul.attrs.k, TypeOf(types, matmul.operands[0]), TypeOf(types, matmul.operands[1]));
    WholeTileRuns(matmul, store, target, env, mem, views, a, b);
    LanesRun(names, matmul.operands[0], matmul.operands[1], store.operands[1], target, extent, store, t,
        DecomposeMatMulStore(matmul, store, types, existing, counter).0,
             env, mem, views, views[target], a, b, Lanes(views[target]));
  }
}
