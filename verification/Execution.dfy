/** The object that runs a program: `_Execution` writes arrays, the iteration stack and the
    recorded events in place. It is proved equal to the evaluator, and the events it records
    are those of the execution that the slicer is proved right about. */
module Execution {
  import opened Wrappers
  import opened Ssa
  import opened Interpreter
  import opened Slicing
  import opened SliceTheorem
  import opened BackwardSlice
  import opened LaneReplay
  import opened Linalg
  import opened MatMulDomain

  /** What a block that starts at operation `index` records; nothing is promised of a block that raises. */
  function Recorded(ops: seq<Operation>, env: Env, mem: Memory, ctx: Context, b: Instance, index: nat): seq<Event> {
    if ExecOperations(ops, env, mem, ctx).Success? then EventsOf(TreeOf(ops, env, mem, ctx), b, index) else []
  }

  function RecordedInside(op: Operation, env: Env, mem: Memory, ctx: Context, b: Instance, index: nat): seq<Event> {
    if ExecOperation(op, env, mem, ctx).Success? then InnerEvents(NodeOf(op, env, mem, ctx), b, index) else []
  }

  function RecordedRounds(op: Operation, region: Block, env: Env, mem: Memory, ctx: Context, carried: seq<Val>, i: int,
          step: int, count: nat, b: Instance, index: nat): seq<Event>
    decreases count
  {
    if count == 0 then []
    else
      var local := BindValues(region.args, [Num(i)] + carried, env);
      var done := ExecOperations(region.operations, local, mem, ctx);
      if done.Failure? then []
      else
        Recorded(region.operations, local, mem, ctx, InLoop(b, index, op, i), 0)
        + RecordedRounds(op, region, env, done.value.mem, ctx, done.value.yielded, i + step, step, count - 1, b, index)
  }

  lemma {:induction false} RoundsRecorded(parent: Node, rounds: seq<Round>, region: Block, env: Env, mem: Memory,
          ctx: Context, carried: seq<Val>, i: int, step: int, count: nat, b: Instance, index: nat)
    requires ExecLoop(region, env, mem, ctx, carried, i, step, count).Success?
    requires parent.Looped? && rounds == RoundsOf(region, env, mem, ctx, carried, i, step, count)
    requires forall j :: 0 <= j < |rounds| ==> rounds[j] < parent
    ensures RoundEvents(parent, rounds, b, index) ==
        RecordedRounds(parent.op, region, env, mem, ctx, carried, i, step, count, b, index)
    decreases count
  {
    hide ExecOperations, TreeOf, EventsOf, BindValues;
    if count > 0 {
      var local := BindValues(region.args, [Num(i)] + carried, env);
      var done := ExecOperations(region.operations, local, mem, ctx).value;
      var rest := RoundsOf(region, env, done.mem, ctx, done.yielded, i + step, step, count - 1);
      assert rounds == [Round(i, TreeOf(region.operations, local, mem, ctx))] + rest;
      assert rounds[1..] == rest && forall j :: 0 <= j < |rest| ==> rest[j] == rounds[j + 1];
      RoundsRecorded(parent, rest, region, env, done.mem, ctx, done.yielded, i + step, step, count - 1, b, index);
    }
  }

  /** One round, then the rest of the loop. */
  lemma {:induction false} RoundRecorded(op: Operation, region: Block, env: Env, mem: Memory, ctx: Context,
          carried: seq<Val>, i: int, step: int, count: nat, b: Instance, index: nat)
    requires count > 0
    ensures
      var local := BindValues(region.args, [Num(i)] + carried, env);
      match ExecOperations(region.operations, local, mem, ctx)
      case Failure(fault) => ExecLoop(region, env, mem, ctx, carried, i, step, count) == Failure(fault)
      case Success(done) =>
        && ExecLoop(region, env, mem, ctx, carried, i, step, count) ==
           ExecLoop(region, env, done.mem, ctx, done.yielded, i + step, step, count - 1)
        && RecordedRounds(op, region, env, mem, ctx, carried, i, step, count, b, index) ==
           Recorded(region.operations, local, mem, ctx, InLoop(b, index, op, i), 0)
           + RecordedRounds(op, region, env, done.mem, ctx, done.yielded, i + step, step, count - 1, b, index)
  {
    hide ExecOperations, Recorded, BindValues;
  }

  lemma {:induction false} NoRoundRecorded(op: Operation, region: Block, env: Env, mem: Memory, ctx: Context,
          carried: seq<Val>, i: int, step: int, b: Instance, index: nat)
    ensures ExecLoop(region, env, mem, ctx, carried, i, step, 0) == Success((carried, mem))
    ensures RecordedRounds(op, region, env, mem, ctx, carried, i, step, 0, b, index) == []
  {
  }

  /** A loop records what its rounds record. */
  lemma {:induction false} LoopRecorded(op: Operation, env: Env, mem: Memory, ctx: Context, args: seq<Val>, start: int,
          stop: int, step: int, b: Instance, index: nat)
    requires op.opcode.For? && op.regions != [] && Lookup(op.operands, env) == Success(args) && |args| >= 3
    requires ScalarOf(args[0], ctx, mem) == Success(start) && ScalarOf(args[1], ctx, mem) == Success(stop)
    requires ScalarOf(args[2], ctx, mem) == Success(step) && step != 0
    ensures
      var count := RangeLength(start, stop, step);
      var looped := ExecLoop(op.regions[0], env, mem, ctx, args[3..], start, step, count);
      && (looped.Failure? ==> ExecOperation(op, env, mem, ctx) == Failure(looped.error))
      && (looped.Success? ==>
            var values := RegionResults(op, looped.value.0);
            if values.Failure? then ExecOperation(op, env, mem, ctx) == Failure(values.error)
            else
              ExecOperation(op, env, mem, ctx) == Success((values.value, looped.value.1))
              && RecordedInside(op, env, mem, ctx, b, index) ==
                 RecordedRounds(op, op.regions[0], env, mem, ctx, args[3..], start, step, count, b, index))
  {
    hide ExecLoop, ScalarOf, RegionResults, RoundsOf, RecordedRounds, RoundEvents, Lookup, RangeLength;
    var count := RangeLength(start, stop, step);
    var looped := ExecLoop(op.regions[0], env, mem, ctx, args[3..], start, step, count);
    if looped.Success? && RegionResults(op, looped.value.0).Success? {
      var node := NodeOf(op, env, mem, ctx);
      RoundsRecorded(node, node.rounds, op.regions[0], env, mem, ctx, args[3..], start, step, count, b, index);
    }
  }

  /** One operation, then the rest of its block. */
  lemma {:induction false} StepRecorded(ops: seq<Operation>, env: Env, mem: Memory, ctx: Context, b: Instance,
          index: nat)
    requires ops != [] && !ops[0].opcode.Yield?
    ensures
      match ExecOperation(ops[0], env, mem, ctx)
      case Failure(fault) => ExecOperations(ops, env, mem, ctx) == Failure(fault)
      case Success(done) =>
        var bound := BindValues(ops[0].results, done.0, env);
        ExecOperations(ops, env, mem, ctx) == ExecOperations(ops[1..], bound, done.1, ctx)
        && (ExecOperations(ops, env, mem, ctx).Success? ==>
              Recorded(ops, env, mem, ctx, b, index) ==
              RecordedInside(ops[0], env, mem, ctx, b, index)
              + [Event(b.key, b.path + [index], ops[0], b.iteration)]
              + Recorded(ops[1..], bound, done.1, ctx, b, index + 1))
  {
    hide ExecOperation, BindValues, InnerEvents, NodeOf;
    var done := ExecOperation(ops[0], env, mem, ctx);
    if done.Success? && ExecOperations(ops, env, mem, ctx).Success? {
      var tree := TreeOf(ops, env, mem, ctx);
      var rest := TreeOf(ops[1..], BindValues(ops[0].results, done.value.0, env), done.value.1, ctx);
      NodeOfFits(ops[0], env, mem, ctx);
      assert tree == [NodeOf(ops[0], env, mem, ctx)] + rest && tree[1..] == rest && tree[0].op == ops[0];
      assert EventsOf(tree, b, index) == InnerEvents(tree[0], b, index)
          + [Event(b.key, b.path + [index], ops[0], b.iteration)] + EventsOf(rest, b, index + 1);
    }
  }

  class Execution {
    var memory: Memory
    var iteration: seq<int>
    var events: seq<Event>
    var key: nat
    var ctx: Context
    ghost var launched: seq<Launch>

    /** The recorded events are the trace of the launches that succeeded so far, each under its own key. */
    ghost predicate Follows(ops: seq<Operation>)
      reads this
    {
      && iteration == [] && key == |launched| && (forall i :: 0 <= i < |launched| ==> launched[i].key == i)
      && Succeeds(ops, launched) && events == Trace(Executed(ops, launched))
    }

    constructor (memory: Memory)
      ensures this.memory == memory && key == 0 && iteration == [] && events == [] && launched == []
    {
      this.memory := memory;
      ctx := Context(map[], None);
      key := 0;
      iteration := [];
      events := [];
      launched := [];
    }

    /** `block`: runs until the yield, whose values it returns; `local` is the block's own environment. */
    method Block(ops: seq<Operation>, env: Env, path: Location, ghost enclosing: seq<Parent>)
      returns (r: Outcome<seq<Val>>, local: Env)
      modifies this
      ensures iteration == old(iteration) && key == old(key) && ctx == old(ctx) && launched == old(launched)
      ensures
        match ExecOperations(ops, env, old(memory), ctx)
        case Failure(fault) => r == Failure(fault)
        case Success(done) =>
          && r == Success(done.yielded) && local == done.env && memory == done.mem
          && events == old(events) + Recorded(ops, env, old(memory), ctx, Instance(key, path, iteration, enclosing), 0)
      decreases ops, 1
    {
      hide ExecOperation, BindValues, Recorded, RecordedInside, ExecOperations;
      ghost var b := Instance(key, path, iteration, enclosing);
      local := env;
      for index := 0 to |ops|
        invariant iteration == old(iteration) && key == old(key) && ctx == old(ctx) && launched == old(launched)
        invariant ExecOperations(ops, env, old(memory), ctx) == ExecOperations(ops[index..], local, memory, ctx)
        invariant ExecOperations(ops, env, old(memory), ctx).Success? ==>
            old(events) + Recorded(ops, env, old(memory), ctx, b, 0) ==
            events + Recorded(ops[index..], local, memory, ctx, b, index)
      {
        var op, rest := ops[index], ops[index..];
        assert rest[0] == op && rest[1..] == ops[index + 1..];
        if op.opcode.Yield? {
          YieldRecorded(rest, local, memory, ctx, b, index);
          var values := Lookup(op.operands, local);
          if values.Success? {
            events := events + [Event(key, path + [index], op, iteration)];
          }
          return values, local;
        }
        StepRecorded(rest, local, memory, ctx, b, index);
        var values := Operation(op, local, path, index, enclosing);
        if values.Failure? {
          return Failure(values.error), local;
        }
        local := BindValues(op.results, values.value, local);
        events := events + [Event(key, path + [index], op, iteration)];
      }
      NothingRecorded(local, memory, ctx, b, |ops|);
      r := Success([]);
    }

    /** `operation`: loops and branches run their regions on copies of the environment. */
    method Operation(op: Operation, env: Env, path: Location, index: nat, ghost enclosing: seq<Parent>)
      returns (r: Outcome<seq<Val>>)
      modifies this
      ensures iteration == old(iteration) && key == old(key) && ctx == old(ctx) && launched == old(launched)
      ensures
        match ExecOperation(op, env, old(memory), ctx)
        case Failure(fault) => r == Failure(fault)
        case Success(done) =>
          && r == Success(done.0) && memory == done.1
          && events == old(events)
                       + RecordedInside(op, env, old(memory), ctx, Instance(key, path, iteration, enclosing), index)
      decreases op, 2
    {
      hide ExecLoop, ExecOperations, ScalarOf, RegionResults, StoreOperation, Compute, RecordedRounds, RangeLength,
          Recorded, Lookup, BindValues;
      ghost var b := Instance(key, path, iteration, enclosing);
      var found := Lookup(op.operands, env);
      if found.Failure? {
        return Failure(found.error);
      }
      var args := found.value;
      match op.opcode {
        case For =>
          r := Loop(op, env, args, path, index, enclosing);
        case If =>
          r := Branch(op, env, args, path, index, enclosing);
        case Store =>
          if |args| < 2 || op.results != [] {
            return Failure(RuntimeFault);
          }
          var indices := Lookup(op.attrs.indices, env);
          if indices.Failure? {
            return Failure(indices.error);
          }
          var stored := StoreOperation(op, args, indices.value, ctx, memory);
          if stored.Failure? {
            return Failure(stored.error);
          }
          memory := stored.value;
          r := Success([]);
        case _ =>
          var value := Compute(op, args, ctx, memory);
          if value.Failure? {
            return Failure(value.error);
          }
          r := if op.results == [] then Success([]) else if |op.results| == 1 then Success([value.value])
               else Failure(RuntimeFault);
      }
    }

    method Branch(op: Operation, env: Env, args: seq<Val>, path: Location, index: nat, ghost enclosing: seq<Parent>)
      returns (r: Outcome<seq<Val>>)
      requires op.opcode.If? && Lookup(op.operands, env) == Success(args)
      modifies this
      ensures iteration == old(iteration) && key == old(key) && ctx == old(ctx) && launched == old(launched)
      ensures
        match ExecOperation(op, env, old(memory), ctx)
        case Failure(fault) => r == Failure(fault)
        case Success(done) =>
          && r == Success(done.0) && memory == done.1
          && events == old(events)
                       + RecordedInside(op, env, old(memory), ctx, Instance(key, path, iteration, enclosing), index)
      decreases op, 1
    {
      hide ExecOperations, ScalarOf, RegionResults, Lookup;
      if args == [] {
        return Failure(RuntimeFault);
      }
      var condition := ScalarOf(args[0], ctx, memory);
      if condition.Failure? {
        return Failure(condition.error);
      }
      var taken: nat := if condition.value != 0 then 0 else 1;
      var values := [];
      if taken < |op.regions| {
        ghost var inner := Parent(path + [index], op, |iteration|);
        var done, _ := Block(op.regions[taken].operations, env, path + [index, taken], enclosing + [inner]);
        if done.Failure? {
          return Failure(done.error);
        }
        values := done.value;
      }
      r := RegionResults(op, values);
    }

    method Loop(op: Operation, env: Env, args: seq<Val>, path: Location, index: nat, ghost enclosing: seq<Parent>)
      returns (r: Outcome<seq<Val>>)
      requires op.opcode.For? && Lookup(op.operands, env) == Success(args)
      modifies this
      ensures iteration == old(iteration) && key == old(key) && ctx == old(ctx) && launched == old(launched)
      ensures
        match ExecOperation(op, env, old(memory), ctx)
        case Failure(fault) => r == Failure(fault)
        case Success(done) =>
          && r == Success(done.0) && memory == done.1
          && events == old(events)
                       + RecordedInside(op, env, old(memory), ctx, Instance(key, path, iteration, enclosing), index)
      decreases op, 1
    {
      hide ExecOperations, ScalarOf, RegionResults, RecordedInside, Recorded, BindValues, Lookup, RangeLength, ExecLoop,
          RecordedRounds;
      if |args| < 3 || op.regions == [] {
        return Failure(RuntimeFault);
      }
      var start, stop, step := ScalarOf(args[0], ctx, memory), ScalarOf(args[1], ctx, memory),
          ScalarOf(args[2], ctx, memory);
      if start.Failure? {
        return Failure(start.error);
      }
      if stop.Failure? {
        return Failure(stop.error);
      }
      if step.Failure? {
        return Failure(step.error);
      }
      if step.value == 0 {
        return Failure(RuntimeFault);
      }
      ghost var b := Instance(key, path, iteration, enclosing);
      LoopRecorded(op, env, memory, ctx, args, start.value, stop.value, step.value, b, index);
      hide ExecOperation;
      var previous, region, count := iteration, op.regions[0], RangeLength(start.value, stop.value, step.value);
      var carried, induction, n := args[3..], start.value, count;
      while n > 0
        invariant 0 <= n <= count && iteration == old(iteration) && key == old(key) && ctx == old(ctx)
        invariant launched == old(launched)
        invariant ExecLoop(region, env, old(memory), ctx, args[3..], start.value, step.value, count) ==
            ExecLoop(region, env, memory, ctx, carried, induction, step.value, n)
        invariant ExecLoop(region, env, memory, ctx, carried, induction, step.value, n).Success? ==>
            old(events) + RecordedRounds(op, region, env, old(memory), ctx, args[3..], start.value, step.value, count,
                b, index) ==
            events + RecordedRounds(op, region, env, memory, ctx, carried, induction, step.value, n, b, index)
        decreases n
      {
        iteration := previous + [induction];
        var local := BindValues(region.args, [Num(induction)] + carried, env);
        ghost var inner := Parent(path + [index], op, |previous| + 1);
        RoundRecorded(op, region, env, memory, ctx, carried, induction, step.value, n, b, index);
        var done, _ := Block(region.operations, local, path + [index, 0], enclosing + [inner]);
        iteration := previous;
        if done.Failure? {
          return Failure(done.error);
        }
        carried, induction, n := done.value, induction + step.value, n - 1;
      }
      NoRoundRecorded(op, region, env, memory, ctx, carried, induction, step.value, b, index);
      r := RegionResults(op, carried);
    }

    /** One program, or one lane of it: the block runs on a copy of the environment. */
    method Launch(ops: seq<Operation>, env: Env, entered: Context) returns (r: Outcome<()>)
      requires Follows(ops)
      modifies this
      ensures
        match ExecOperations(ops, env, old(memory), entered)
        case Failure(fault) => r == Failure(fault)
        case Success(done) =>
          && r.Success? && memory == done.mem && Follows(ops)
          && launched == old(launched) + [BackwardSlice.Launch(old(key), env, old(memory), entered)]
    {
      hide ExecOperations, TreeOf, EventsOf;
      ctx := entered;
      ghost var before := BackwardSlice.Launch(key, env, memory, entered);
      var done, _ := Block(ops, env, [], []);
      if done.Failure? {
        return Failure(done.error);
      }
      ExecutedGrows(ops, launched, before);
      launched := launched + [before];
      key := key + 1;
      r := Success(());
    }

    /** The lane loop of `run`. */
    method Lanes(ops: seq<Operation>, env: Env, views: map<string, View>, target: View) returns (r: Outcome<()>)
      requires Follows(ops)
      modifies this
      ensures
        match RunLanes(ops, env, old(memory), views, target, Interpreter.Lanes(target))
        case Failure(fault) => r == Failure(fault)
        case Success(after) => r.Success? && memory == after && Follows(ops) && old(launched) <= launched
    {
      hide ExecOperations, Follows;
      var lanes := Interpreter.Lanes(target);
      for n := 0 to |lanes|
        invariant Follows(ops) && old(launched) <= launched
        invariant RunLanes(ops, env, old(memory), views, target, lanes) ==
            RunLanes(ops, env, memory, views, target, lanes[n..])
      {
        assert lanes[n..][0] == lanes[n] && lanes[n..][1..] == lanes[n + 1..];
        if Live(target, lanes[n]) {
          var done := Launch(ops, env, Context(views, Some(lanes[n])));
          if done.Failure? {
            return Failure(done.error);
          }
        }
      }
      r := Success(());
    }

    /** The program loop of `run`, for a decomposed matmul of three named tensors. */
    method Programs(ops: seq<Operation>, env: Env, t: Tensors, programs: seq<Blocks>, order: seq<nat>)
      returns (r: Outcome<()>)
      requires Follows(ops) && Launchable(order, |programs|)
      modifies this
      ensures
        match RunPrograms(ops, env, old(memory), t, programs, order)
        case Failure(fault) => r == Failure(fault)
        case Success(after) => r.Success? && memory == after && Follows(ops) && old(launched) <= launched
    {
      hide RunLanes, Follows;
      for n := 0 to |order|
        invariant Follows(ops) && old(launched) <= launched
        invariant RunPrograms(ops, env, old(memory), t, programs, order) ==
            RunPrograms(ops, env, memory, t, programs, order[n..])
      {
        assert order[n..][0] == order[n] && order[n..][1..] == order[n + 1..];
        var p := programs[order[n]];
        var done := Lanes(ops, env, ViewsOf(t, p), p.c);
        if done.Failure? {
          return Failure(done.error);
        }
      }
      r := Success(());
    }
  }

  /** One more launch adds its own events to the trace. */
  lemma {:induction false} ExecutedGrows(ops: seq<Operation>, launches: seq<Launch>, next: Launch)
    requires Succeeds(ops, launches) && ExecOperations(ops, next.env, next.mem, next.ctx).Success?
    ensures Succeeds(ops, launches + [next])
    ensures Trace(Executed(ops, launches + [next])) == Trace(Executed(ops, launches))
        + Recorded(ops, next.env, next.mem, next.ctx, Start(next.key), 0)
  {
    hide ExecOperations, TreeOf, EventsOf;
    var tree := TreeOf(ops, next.env, next.mem, next.ctx);
    assert Executed(ops, launches + [next]) == Executed(ops, launches) + [Segment(next.key, tree)];
    TraceGrows(Executed(ops, launches), Segment(next.key, tree));
  }

  lemma {:induction false} TraceGrows(segments: seq<Segment>, next: Segment)
    ensures Trace(segments + [next]) == Trace(segments) + EventsOf(next.nodes, Start(next.key), 0)
    decreases |segments|
  {
    hide EventsOf;
    var all := segments + [next];
    if segments == [] {
      assert all[1..] == [] && Trace(all[1..]) == [];
    } else {
      TraceGrows(segments[1..], next);
      assert all[1..] == segments[1..] + [next];
    }
  }

  lemma {:induction false} NothingLaunched(ops: seq<Operation>)
    ensures Succeeds(ops, []) && Trace(Executed(ops, [])) == []
  {
  }

  lemma {:induction false} ReadyCloses(matmul: Operation, store: Operation, t: Tensors, types: map<string, Type>,
          existing: set<string>, env: Env, mem: Memory, lhs: Matrix, rhs: Matrix, out: Matrix, programs: seq<Blocks>)
    requires LaunchReady(matmul, store, t, types, existing, env, mem, lhs, rhs, out, programs)
    ensures ClosesMatMul(matmul, store)
  {
  }

  /** A run over an accepted matmul domain, in any order of the programs, ends with the product in the output. */
  method ReplayMatMul(matmul: Operation, store: Operation, t: Tensors, types: map<string, Type>, existing: set<string>,
          counter: nat, env: Env, memory: Memory, ghost lhs: Matrix, ghost rhs: Matrix, ghost s: Strides,
          programs: seq<Blocks>, order: seq<nat>)
    returns (output: Matrix, events: seq<Event>, ghost launches: seq<Launch>)
    requires t.outStorage in memory
    requires LaunchReady(matmul, store, t, types, existing, env, memory, lhs, rhs, memory[t.outStorage], programs)
    requires DomainAccepted(lhs, rhs, memory[t.outStorage], s, programs)
    requires Launchable(order, |programs|) && forall n: nat :: n < |programs| ==> n in order
    ensures output == Product(lhs, rhs)
    ensures
      var ops := DecomposeMatMulStore(matmul, store, types, existing, counter).0;
      && Succeeds(ops, launches) && events == Trace(Executed(ops, launches))
      && forall i :: 0 <= i < |launches| ==> launches[i].key == i
  {
    hide LaunchReady, DomainAccepted, DecomposeMatMulStore, RunPrograms, ClosesMatMul, Executed, Trace, Product,
        ViewsOf, ExecOperations, Launchable;
    ReadyCloses(matmul, store, t, types, existing, env, memory, lhs, rhs, memory[t.outStorage], programs);
    var ops := DecomposeMatMulStore(matmul, store, types, existing, counter).0;
    var run := new Execution(memory);
    NothingLaunched(ops);
    AcceptedLaunchComputesProduct(matmul, store, t, types, existing, counter, env, memory, lhs, rhs, s, programs,
        order);
    var done := run.Programs(ops, env, t, programs, order);
    output, events, launches := run.memory[t.outStorage], run.events, run.launched;
  }

  lemma {:induction false} YieldRecorded(ops: seq<Operation>, env: Env, mem: Memory, ctx: Context, b: Instance,
          index: nat)
    requires ops != [] && ops[0].opcode.Yield?
    ensures
      match Lookup(ops[0].operands, env)
      case Failure(fault) => ExecOperations(ops, env, mem, ctx) == Failure(fault)
      case Success(values) =>
        ExecOperations(ops, env, mem, ctx) == Success(Finish(values, env, mem))
        && Recorded(ops, env, mem, ctx, b, index) == [Event(b.key, b.path + [index], ops[0], b.iteration)]
  {
    var nodes := [Simple(ops[0])];
    assert nodes[1..] == [] && EventsOf(nodes[1..], b, index + 1) == [];
    var own := [Event(b.key, b.path + [index], ops[0], b.iteration)];
    assert EventsOf(nodes, b, index) == [] + own + [] && [] + own + [] == own;
  }

  lemma {:induction false} NothingRecorded(env: Env, mem: Memory, ctx: Context, b: Instance, index: nat)
    ensures ExecOperations([], env, mem, ctx) == Success(Finish([], env, mem))
    ensures Recorded([], env, mem, ctx, b, index) == []
  {
  }
}
