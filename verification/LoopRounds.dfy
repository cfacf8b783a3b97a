/** The rounds of a loop are those of Python's `range`, in its order, in the interpreter as in the
    statements that were lowered. */
module LoopRounds {
  import opened Wrappers
  import opened Arithmetic
  import opened Ssa
  import opened Interpreter
  import opened Frontend
  import opened Slicing
  import opened SliceTheorem

  /** The value is still before the stop, in the direction of the step. */
  predicate Before(x: int, stop: int, step: int) {
    (step > 0 && x < stop) || (step < 0 && x > stop)
  }

  /** `range(start, stop, step)`: from the start in steps, for as long as the stop is ahead. */
  function Range(start: int, stop: int, step: int): seq<int>
    requires step != 0
    decreases if step > 0 then stop - start else start - stop
  {
    if Before(start, stop, step) then [start] + Range(start + step, stop, step) else []
  }

  /** How many rounds there are, for every start, stop and step. */
  lemma {:induction false} RangeLengthExact(start: int, stop: int, step: int, k: nat)
    requires step != 0
    ensures k < RangeLength(start, stop, step) <==> Before(start + k * step, stop, step)
  {
    if step > 0 {
      CountsBefore(start, stop, step, k);
    } else {
      CountsBefore(-start, -stop, -step, k);
      assert k * -step == -(k * step);
    }
  }

  lemma {:induction false} CountsBefore(start: int, stop: int, step: int, k: nat)
    requires step > 0
    ensures k < (if start < stop then (stop - start - 1) / step + 1 else 0) <==> start + k * step < stop
  {
    if start < stop {
      var last := (stop - start - 1) / step;
      FloorOf(stop - start - 1, step);
      if k <= last {
        Scale(k, last, step);
      } else {
        Scale(last + 1, k, step);
      }
    } else {
      Scale(0, k, step);
    }
  }

  /** Position `k` of the range holds `start + k * step`. */
  lemma {:induction false} RangeAt(start: int, stop: int, step: int)
    requires step != 0
    ensures |Range(start, stop, step)| == RangeLength(start, stop, step)
    ensures forall k :: 0 <= k < |Range(start, stop, step)| ==> Range(start, stop, step)[k] == start + k * step
    decreases if step > 0 then stop - start else start - stop
  {
    hide RangeLength;
    var range, next := Range(start, stop, step), start + step;
    RangeLengthExact(start, stop, step, 0);
    if Before(start, stop, step) {
      var rest := Range(next, stop, step);
      RangeAt(next, stop, step);
      OneMore(start, stop, step);
      forall k | 0 <= k < |range|
        ensures range[k] == start + k * step
      {
        if k > 0 {
          assert range[k] == rest[k - 1] == next + (k - 1) * step;
          assert (k - 1) * step == k * step - step;
        }
      }
    }
  }

  lemma {:induction false} OneMore(start: int, stop: int, step: int)
    requires step != 0 && Before(start, stop, step)
    ensures RangeLength(start, stop, step) == RangeLength(start + step, stop, step) + 1
  {
    hide RangeLength;
    var n, m := RangeLength(start, stop, step), RangeLength(start + step, stop, step);
    RangeLengthExact(start, stop, step, 0);
    RangeLengthExact(start, stop, step, n);
    RangeLengthExact(start, stop, step, m);
    RangeLengthExact(start, stop, step, m + 1);
    RangeLengthExact(start + step, stop, step, m);
    var before: nat := n - 1;
    RangeLengthExact(start, stop, step, before);
    RangeLengthExact(start + step, stop, step, before);
    assert start + step + m * step == start + (m + 1) * step;
    assert start + step + before * step == start + n * step;
    if m > 0 {
      var last: nat := m - 1;
      RangeLengthExact(start + step, stop, step, last);
      assert start + step + last * step == start + m * step;
    }
  }

  // ----- the loop of the interpreter -----

  /** The body once for each value, the yielded values carried on. */
  function ExecOver(region: Block, env: Env, mem: Memory, ctx: Context, carried: seq<Val>,
          values: seq<int>): Outcome<(seq<Val>, Memory)>
    decreases |values|
  {
    if values == [] then Success((carried, mem))
    else
      var done :- ExecOperations(region.operations, BindValues(region.args, [Num(values[0])] + carried, env), mem, ctx);
      ExecOver(region, env, done.mem, ctx, done.yielded, values[1..])
  }

  lemma {:induction false} LoopIsOver(region: Block, env: Env, mem: Memory, ctx: Context, carried: seq<Val>,
          start: int, stop: int, step: int)
    requires step != 0
    ensures ExecLoop(region, env, mem, ctx, carried, start, step, RangeLength(start, stop, step)) ==
        ExecOver(region, env, mem, ctx, carried, Range(start, stop, step))
    decreases if step > 0 then stop - start else start - stop
  {
    hide ExecOperations, RangeLength, BindValues;
    RangeLengthExact(start, stop, step, 0);
    if Before(start, stop, step) {
      OneMore(start, stop, step);
      var range, rest := Range(start, stop, step), Range(start + step, stop, step);
      assert range[0] == start && range[1..] == rest;
      var done := ExecOperations(region.operations, BindValues(region.args, [Num(start)] + carried, env), mem, ctx);
      if done.Success? {
        LoopIsOver(region, env, done.value.mem, ctx, done.value.yielded, start + step, stop, step);
      }
    } else {
      assert Range(start, stop, step) == [];
    }
  }

  /** A loop runs its body for exactly the values of the range that its operands give, in order. */
  lemma {:induction false} ForRunsRange(op: Operation, env: Env, mem: Memory, ctx: Context, args: seq<Val>, start: int,
          stop: int, step: int)
    requires op.opcode.For? && op.regions != [] && Lookup(op.operands, env) == Success(args) && |args| >= 3
    requires ScalarOf(args[0], ctx, mem) == Success(start) && ScalarOf(args[1], ctx, mem) == Success(stop)
    requires ScalarOf(args[2], ctx, mem) == Success(step) && step != 0
    ensures ExecOperation(op, env, mem, ctx) ==
        (var looped := ExecOver(op.regions[0], env, mem, ctx, args[3..], Range(start, stop, step));
         if looped.Failure? then Failure(looped.error)
         else
           var values := RegionResults(op, looped.value.0);
           if values.Failure? then Failure(values.error) else Success((values.value, looped.value.1)))
  {
    hide ExecLoop, ExecOver, RegionResults, ScalarOf, Lookup, RangeLength;
    LoopIsOver(op.regions[0], env, mem, ctx, args[3..], start, stop, step);
  }

  lemma {:induction false} RoundCount(region: Block, env: Env, mem: Memory, ctx: Context, carried: seq<Val>, i: int,
          step: int, count: nat)
    requires ExecLoop(region, env, mem, ctx, carried, i, step, count).Success?
    ensures |RoundsOf(region, env, mem, ctx, carried, i, step, count)| == count
    decreases count
  {
    hide ExecOperations, TreeOf;
    if count > 0 {
      var done := ExecOperations(region.operations, BindValues(region.args, [Num(i)] + carried, env), mem, ctx).value;
      RoundCount(region, env, done.mem, ctx, done.yielded, i + step, step, count - 1);
    }
  }

  /** The rounds that are recorded carry these values. */
  lemma {:induction false} RoundsCarryRange(op: Operation, env: Env, mem: Memory, ctx: Context, args: seq<Val>,
          start: int, stop: int, step: int)
    requires op.opcode.For? && ExecOperation(op, env, mem, ctx).Success?
    requires Lookup(op.operands, env) == Success(args) && |args| >= 3
    requires ScalarOf(args[0], ctx, mem) == Success(start) && ScalarOf(args[1], ctx, mem) == Success(stop)
    requires ScalarOf(args[2], ctx, mem) == Success(step) && step != 0
    ensures
      var node := NodeOf(op, env, mem, ctx);
      && node.Looped? && |node.rounds| == |Range(start, stop, step)|
      && forall k :: 0 <= k < |node.rounds| ==> node.rounds[k].value == Range(start, stop, step)[k]
  {
    hide ExecLoop, ScalarOf, Lookup, RangeLength, RoundsOf;
    RangeAt(start, stop, step);
    RoundCount(op.regions[0], env, mem, ctx, args[3..], start, step, RangeLength(start, stop, step));
    RoundValues(op.regions[0], env, mem, ctx, args[3..], start, step, RangeLength(start, stop, step));
  }

  // ----- the loop of the statements -----

  function RunOver(k: Kernel, target: string, body: seq<Stmt>, names: NameTable, mem: Memory,
          values: seq<int>): Outcome<(NameTable, Memory)>
    decreases |values|
  {
    if values == [] then Success((names, mem))
    else
      var next :- RunStmts(k, body, names[target := Num(values[0])], mem);
      RunOver(k, target, body, next.0, next.1, values[1..])
  }

  /** Run directly, a `for` assigns its target each value of the range in turn. */
  lemma {:induction false} DirectLoopRunsRange(k: Kernel, target: string, body: seq<Stmt>, names: NameTable,
          mem: Memory, start: int, stop: int, step: int)
    requires step != 0
    ensures RunLoop(k, target, body, names, mem, start, step, RangeLength(start, stop, step)) ==
        RunOver(k, target, body, names, mem, Range(start, stop, step))
    decreases if step > 0 then stop - start else start - stop
  {
    hide RunStmts, RangeLength;
    RangeLengthExact(start, stop, step, 0);
    if Before(start, stop, step) {
      OneMore(start, stop, step);
      var range, rest := Range(start, stop, step), Range(start + step, stop, step);
      assert range[0] == start && range[1..] == rest;
      var next := RunStmts(k, body, names[target := Num(start)], mem);
      if next.Success? {
        DirectLoopRunsRange(k, target, body, next.value.0, next.value.1, start + step, stop, step);
      }
    } else {
      assert Range(start, stop, step) == [];
    }
  }
}
