/** Whole traces: every program and lane of a run of an accepted program, and the slice
    that the worklist takes from their links. */
module SliceTheorem {
  import opened Wrappers
  import opened Ssa
  import opened Interpreter
  import opened Scoping
  import opened Slicing
  import opened SlicingCorrect

  // ----- the dictionary of block arguments -----

  /** `describe`: a later argument of the same name replaces an earlier one. */
  function ArgumentsOf(ops: seq<Operation>, path: Location, index: nat, depth: nat): map<string, Argument>
    decreases ops, 0
  {
    if ops == [] then map[]
    else
      RegionArguments(ops[0], ops[0].regions, 0, path + [index], InnerDepth(ops[0], depth))
      + ArgumentsOf(ops[1..], path, index + 1, depth)
  }

  function RegionArguments(op: Operation, regions: seq<Block>, r: nat, at: Location, depth: nat): map<string, Argument>
    decreases regions, 0
  {
    if regions == [] then map[]
    else
      Declared(op, regions[0].args, at, depth) + ArgumentsOf(regions[0].operations, at + [r], 0, depth)
      + RegionArguments(op, regions[1..], r + 1, at, depth)
  }

  function Declared(op: Operation, values: seq<Value>, at: Location, depth: nat): map<string, Argument> {
    map name | name in NameSet(values) :: Argument(at, op, PositionOf(values, name), depth)
  }

  lemma {:induction false} ArgumentKeys(ops: seq<Operation>, path: Location, index: nat, depth: nat)
    ensures ArgumentsOf(ops, path, index, depth).Keys == ArgNames(ops)
    decreases ops, 0
  {
    if ops != [] {
      RegionKeys(ops[0], ops[0].regions, 0, path + [index], InnerDepth(ops[0], depth));
      ArgumentKeys(ops[1..], path, index + 1, depth);
    }
  }

  lemma {:induction false} RegionKeys(op: Operation, regions: seq<Block>, r: nat, at: Location, depth: nat)
    ensures RegionArguments(op, regions, r, at, depth).Keys == RegionArgNames(regions)
    decreases regions, 0
  {
    if regions != [] {
      ArgumentKeys(regions[0].operations, at + [r], 0, depth);
      RegionKeys(op, regions[1..], r + 1, at, depth);
    }
  }

  /** The verifier accepts no argument whose name was defined before it, anywhere in the program. */
  lemma {:induction false} ArgsAreFirst(ops: seq<Operation>, s: Scope, slots: Option<seq<seq<Type>>>)
    requires VerifyOperations(ops, s, slots).Success?
    ensures ArgNames(ops) !! s.definitions && ArgsFirst(ops)
    decreases ops, 0
  {
    if ops != [] {
      hide VerifyOperation;
      var op, last := ops[0], |ops| == 1;
      var next := VerifyOperation(op, last, s, slots).value;
      OperationScoped(op, last, s, slots);
      ElementsConcat(Names(op.results), RegionResultNames(op.regions));
      NamesOf(op.results);
      OperationArgsAreFirst(op, last, s, slots);
      ArgsAreFirst(ops[1..], next, slots);
    }
  }

  lemma {:induction false} OperationArgsAreFirst(op: Operation, last: bool, s: Scope, slots: Option<seq<seq<Type>>>)
    requires VerifyOperation(op, last, s, slots).Success?
    ensures RegionArgNames(op.regions) !! s.definitions && OperationArgsFirst(op)
    decreases op, 0
  {
    ResultsDefined(op.results, s.visible, s.definitions);
    RegionArgsAreFirst(op.regions, Scope(s.visible, s.definitions + NameSet(op.results)), Slots(op, s.visible));
  }

  lemma {:induction false} RegionArgsAreFirst(regions: seq<Block>, s: Scope, slots: seq<seq<Type>>)
    requires VerifyRegions(regions, s, slots).Success?
    ensures RegionArgNames(regions) !! s.definitions
    ensures forall r :: 0 <= r < |regions| ==> ArgsFirst(regions[r].operations)
    decreases regions, 0
  {
    if regions != [] {
      hide VerifyOperations, BindArguments, ArgsFirst;
      var entered := BindArguments(regions[0].args, s).value;
      var inner := VerifyBlock(regions[0], s, Some(slots)).value;
      ArgumentsBound(regions[0].args, s);
      ArgsAreFirst(regions[0].operations, entered, Some(slots));
      BlockScoped(regions[0], s, Some(slots));
      RegionArgsAreFirst(regions[1..], Scope(s.visible, inner.definitions), slots);
      forall r | 0 <= r < |regions|
        ensures ArgsFirst(regions[r].operations)
      {
        if r > 0 {
          assert regions[r] == regions[1..][r - 1];
        }
      }
    }
  }

  lemma {:induction false} ElementsConcat(a: seq<string>, b: seq<string>)
    ensures Elements(a + b) == Elements(a) + Elements(b)
  {
  }

  // ----- the execution that the interpreter performs -----

  /** What ran when a block succeeded. */
  function TreeOf(ops: seq<Operation>, env: Env, mem: Memory, ctx: Context): seq<Node>
    requires ExecOperations(ops, env, mem, ctx).Success?
    decreases ops, 0
  {
    if ops == [] then []
    else if ops[0].opcode.Yield? then [Simple(ops[0])]
    else
      var done := ExecOperation(ops[0], env, mem, ctx).value;
      [NodeOf(ops[0], env, mem, ctx)] + TreeOf(ops[1..], BindValues(ops[0].results, done.0, env), done.1, ctx)
  }

  function NodeOf(op: Operation, env: Env, mem: Memory, ctx: Context): Node
    requires ExecOperation(op, env, mem, ctx).Success?
    decreases op, 0
  {
    var args := Lookup(op.operands, env).value;
    match op.opcode
    case For =>
      var start, stop, step := ScalarOf(args[0], ctx, mem).value, ScalarOf(args[1], ctx, mem).value,
          ScalarOf(args[2], ctx, mem).value;
      Looped(op, RoundsOf(op.regions[0], env, mem, ctx, args[3..], start, step, RangeLength(start, stop, step)))
    case If =>
      var index: nat := if ScalarOf(args[0], ctx, mem).value != 0 then 0 else 1;
      Branched(op, if index < |op.regions| then Some(Arm(index, TreeOf(op.regions[index].operations, env, mem, ctx)))
          else None)
    case _ => Simple(op)
  }

  function RoundsOf(region: Block, env: Env, mem: Memory, ctx: Context, carried: seq<Val>, i: int, step: int,
          count: nat): seq<Round>
    requires ExecLoop(region, env, mem, ctx, carried, i, step, count).Success?
    decreases region, count
  {
    if count == 0 then []
    else
      var local := BindValues(region.args, [Num(i)] + carried, env);
      var done := ExecOperations(region.operations, local, mem, ctx).value;
      [Round(i, TreeOf(region.operations, local, mem, ctx))]
          + RoundsOf(region, env, done.mem, ctx, done.yielded, i + step, step, count - 1)
  }

  /** The execution fits the program. */
  lemma {:induction false} TreeFits(ops: seq<Operation>, env: Env, mem: Memory, ctx: Context)
    requires ExecOperations(ops, env, mem, ctx).Success?
    ensures NodesFit(TreeOf(ops, env, mem, ctx), ops)
    decreases ops, 0
  {
    if ops != [] && !ops[0].opcode.Yield? {
      var done := ExecOperation(ops[0], env, mem, ctx).value;
      NodeOfFits(ops[0], env, mem, ctx);
      TreeFits(ops[1..], BindValues(ops[0].results, done.0, env), done.1, ctx);
    }
  }

  lemma {:induction false} NodeOfFits(op: Operation, env: Env, mem: Memory, ctx: Context)
    requires ExecOperation(op, env, mem, ctx).Success?
    ensures NodeFits(NodeOf(op, env, mem, ctx), op)
    decreases op, 0
  {
    var args := Lookup(op.operands, env).value;
    if op.opcode.For? {
      var start, stop, step := ScalarOf(args[0], ctx, mem).value, ScalarOf(args[1], ctx, mem).value,
          ScalarOf(args[2], ctx, mem).value;
      RoundsOfFit(NodeOf(op, env, mem, ctx), NodeOf(op, env, mem, ctx).rounds, op.regions[0], env, mem, ctx, args[3..],
          start, step, RangeLength(start, stop, step));
      RoundValues(op.regions[0], env, mem, ctx, args[3..], start, step, RangeLength(start, stop, step));
      SteppedDistinct(RoundsOf(op.regions[0], env, mem, ctx, args[3..], start, step, RangeLength(start, stop, step)),
          start, step);
    } else if op.opcode.If? {
      var index: nat := if ScalarOf(args[0], ctx, mem).value != 0 then 0 else 1;
      if index < |op.regions| {
        TreeFits(op.regions[index].operations, env, mem, ctx);
      }
    }
  }

  /** One round and what is left of the loop after it. */
  ghost predicate RoundThen(region: Block, env: Env, mem: Memory, ctx: Context, carried: seq<Val>, i: int, step: int,
          count: nat, local: Env, done: Finish, first: Round, rest: seq<Round>) {
    hide ExecOperations, TreeOf, RoundsOf, ExecLoop, BindValues;
    && count > 0 && local == BindValues(region.args, [Num(i)] + carried, env)
    && ExecOperations(region.operations, local, mem, ctx) == Success(done)
    && first == Round(i, TreeOf(region.operations, local, mem, ctx))
    && ExecLoop(region, env, done.mem, ctx, done.yielded, i + step, step, count - 1).Success?
    && rest == RoundsOf(region, env, done.mem, ctx, done.yielded, i + step, step, count - 1)
  }

  lemma {:induction false} RoundsStepped(region: Block, env: Env, mem: Memory, ctx: Context, carried: seq<Val>, i: int,
          step: int, count: nat)
    returns (local: Env, done: Finish, first: Round, rest: seq<Round>)
    requires ExecLoop(region, env, mem, ctx, carried, i, step, count).Success? && count > 0
    ensures RoundThen(region, env, mem, ctx, carried, i, step, count, local, done, first, rest)
    ensures RoundsOf(region, env, mem, ctx, carried, i, step, count) == [first] + rest
  {
    hide ExecOperations, TreeOf, BindValues;
    local := BindValues(region.args, [Num(i)] + carried, env);
    done := ExecOperations(region.operations, local, mem, ctx).value;
    first, rest := Round(i, TreeOf(region.operations, local, mem, ctx)),
        RoundsOf(region, env, done.mem, ctx, done.yielded, i + step, step, count - 1);
  }

  lemma {:induction false} NoRoundsLeft(region: Block, env: Env, mem: Memory, ctx: Context, carried: seq<Val>, i: int,
          step: int, count: nat)
    requires ExecLoop(region, env, mem, ctx, carried, i, step, count).Success?
    ensures count == 0 ==> RoundsOf(region, env, mem, ctx, carried, i, step, count) == []
  {
    hide ExecOperations, TreeOf;
  }

  lemma {:induction false} RoundValues(region: Block, env: Env, mem: Memory, ctx: Context, carried: seq<Val>, i: int,
          step: int, count: nat)
    requires ExecLoop(region, env, mem, ctx, carried, i, step, count).Success?
    ensures Stepped(RoundsOf(region, env, mem, ctx, carried, i, step, count), i, step)
    decreases count
  {
    hide ExecLoop, ExecOperations, RoundsOf, TreeOf, BindValues, Stepped;
    if count == 0 {
      NoRoundsLeft(region, env, mem, ctx, carried, i, step, count);
      SteppedNever(i, step);
    } else {
      var local, done, first, rest := RoundsStepped(region, env, mem, ctx, carried, i, step, count);
      RoundValues(region, env, done.mem, ctx, done.yielded, i + step, step, count - 1);
      SteppedCons(first, rest, i, step);
    }
  }

  lemma {:induction false} SteppedNever(i: int, step: int)
    ensures Stepped([], i, step)
  {
  }

  ghost predicate Stepped(rounds: seq<Round>, i: int, step: int) {
    forall j :: 0 <= j < |rounds| ==> rounds[j].value == i + j * step
  }

  lemma {:induction false} SteppedCons(r: Round, rounds: seq<Round>, i: int, step: int)
    requires r.value == i && Stepped(rounds, i + step, step)
    ensures Stepped([r] + rounds, i, step)
  {
    forall j | 0 <= j < |[r] + rounds|
      ensures ([r] + rounds)[j].value == i + j * step
    {
      if j > 0 {
        assert rounds[j - 1].value == i + step + (j - 1) * step;
        assert (j - 1) * step + step == j * step;
      }
    }
  }

  lemma {:induction false} SteppedDistinct(rounds: seq<Round>, i: int, step: int)
    requires Stepped(rounds, i, step) && step != 0
    ensures DistinctRounds(rounds)
  {
    forall j, k | 0 <= j < k < |rounds|
      ensures rounds[j].value != rounds[k].value
    {
      assert (k - j) * step == k * step - j * step;
      NonZeroProduct(k - j, step);
    }
  }

  lemma {:induction false} NonZeroProduct(a: int, b: int)
    requires a != 0 && b != 0
    ensures a * b != 0
  {
  }

  /** The rounds are those of a loop that succeeded. */
  ghost predicate LoopRan(rounds: seq<Round>, region: Block, env: Env, mem: Memory, ctx: Context, carried: seq<Val>,
          i: int, step: int, count: nat) {
    hide ExecOperations, TreeOf, BindValues;
    ExecLoop(region, env, mem, ctx, carried, i, step, count).Success?
        && rounds == RoundsOf(region, env, mem, ctx, carried, i, step, count)
  }

  lemma {:induction false} LoopRanStep(rounds: seq<Round>, region: Block, env: Env, mem: Memory, ctx: Context,
          carried: seq<Val>, i: int, step: int, count: nat)
    returns (local: Env, done: Finish, first: Round, rest: seq<Round>)
    requires LoopRan(rounds, region, env, mem, ctx, carried, i, step, count) && count > 0
    ensures rounds == [first] + rest
    ensures LoopRan(rest, region, env, done.mem, ctx, done.yielded, i + step, step, count - 1)
    ensures RoundThen(region, env, mem, ctx, carried, i, step, count, local, done, first, rest)
  {
    hide ExecOperations, TreeOf, BindValues;
    local, done, first, rest := RoundsStepped(region, env, mem, ctx, carried, i, step, count);
  }

  lemma {:induction false} BodyFits(region: Block, env: Env, mem: Memory, ctx: Context, carried: seq<Val>, i: int,
          step: int, count: nat, local: Env, done: Finish, first: Round, rest: seq<Round>)
    requires RoundThen(region, env, mem, ctx, carried, i, step, count, local, done, first, rest)
    ensures NodesFit(first.body, region.operations)
    decreases region, 0
  {
    hide ExecOperations, TreeOf, BindValues, NodesFit, ExecLoop, RoundsOf;
    TreeFits(region.operations, local, mem, ctx);
  }

  lemma {:induction false} RoundsOfFit(parent: Node, rounds: seq<Round>, region: Block, env: Env, mem: Memory,
          ctx: Context, carried: seq<Val>, i: int, step: int, count: nat)
    requires LoopRan(rounds, region, env, mem, ctx, carried, i, step, count)
    requires forall j :: 0 <= j < |rounds| ==> rounds[j] < parent
    ensures RoundsFit(parent, rounds, region.operations)
    decreases region, 1, count
  {
    if count > 0 {
      hide LoopRan, NodesFit, RoundThen, RoundsFit;
      var local, done, first, rest := LoopRanStep(rounds, region, env, mem, ctx, carried, i, step, count);
      ShorterRounds(parent, rounds, first, rest);
      BodyFits(region, env, mem, ctx, carried, i, step, count, local, done, first, rest);
      RoundsOfFit(parent, rest, region, env, done.mem, ctx, done.yielded, i + step, step, count - 1);
      RoundsFitCons(parent, rounds, first, rest, region.operations);
    } else {
      hide LoopRan;
      NoneRan(rounds, region, env, mem, ctx, carried, i, step);
    }
  }

  lemma {:induction false} NoneRan(rounds: seq<Round>, region: Block, env: Env, mem: Memory, ctx: Context,
          carried: seq<Val>, i: int, step: int)
    requires LoopRan(rounds, region, env, mem, ctx, carried, i, step, 0)
    ensures rounds == []
  {
    NoRoundsLeft(region, env, mem, ctx, carried, i, step, 0);
  }

  lemma {:induction false} ShorterRounds(parent: Node, rounds: seq<Round>, first: Round, rest: seq<Round>)
    requires rounds == [first] + rest && forall j :: 0 <= j < |rounds| ==> rounds[j] < parent
    ensures forall j :: 0 <= j < |rest| ==> rest[j] < parent
  {
    assert forall j :: 0 <= j < |rest| ==> rest[j] == rounds[j + 1];
  }

  lemma {:induction false} RoundsFitCons(parent: Node, rounds: seq<Round>, first: Round, rest: seq<Round>,
          ops: seq<Operation>)
    requires rounds == [first] + rest && (forall j :: 0 <= j < |rounds| ==> rounds[j] < parent)
    requires (forall j :: 0 <= j < |rest| ==> rest[j] < parent)
    requires NodesFit(first.body, ops) && RoundsFit(parent, rest, ops)
    ensures RoundsFit(parent, rounds, ops)
  {
    assert rounds[1..] == rest;
  }

  // ----- whole traces -----

  /** One program and lane: its key and what its block executed. */
  datatype Segment = Segment(key: nat, nodes: seq<Node>)

  function Start(key: nat): Instance {
    Instance(key, [], [], [])
  }

  function Trace(segments: seq<Segment>): seq<Event> {
    if segments == [] then [] else EventsOf(segments[0].nodes, Start(segments[0].key), 0) + Trace(segments[1..])
  }

  function TraceLinks(segments: seq<Segment>, n: nat, p: Prov): seq<set<nat>> {
    if segments == [] then []
    else
      Expected(segments[0].nodes, Start(segments[0].key), 0, n, p)
      + TraceLinks(segments[1..], n + |EventsOf(segments[0].nodes, Start(segments[0].key), 0)|, p)
  }

  ghost predicate DistinctKeys(segments: seq<Segment>) {
    forall i, j :: 0 <= i < j < |segments| ==> segments[i].key != segments[j].key
  }

  /** Nothing has been recorded under these keys. */
  ghost predicate Unused(t: Tables, segments: seq<Segment>) {
    && (forall k, i :: k in t.defs && 0 <= i < |segments| ==> k.0 != segments[i].key)
    && (forall k, i :: k in t.lastYields && 0 <= i < |segments| ==> k.0 != segments[i].key)
  }

  /** The names a program's entry block starts with come from outside the trace. */
  function EntryProv(names: set<string>): Prov {
    map x | x in names :: {}
  }

  /** The static facts of a program that the slicer follows: every block argument in use has
      a dictionary entry that serves its own loop. */
  ghost predicate Sliceable(program: seq<Operation>, names: set<string>) {
    && ScopedOperations(program, names) && UsesFit(Dictionary(program), program, [], 0, [], 0)
    && ArgsFirst(program) && ArgNames(program) !! names
  }

  function Dictionary(program: seq<Operation>): map<string, Argument> {
    ArgumentsOf(program, [], 0, 0)
  }

  lemma {:induction false} StartReady(program: seq<Operation>, names: set<string>, key: nat, t: Tables)
    requires Sliceable(program, names)
    requires (forall k :: k in t.defs ==> k.0 != key) && (forall k :: k in t.lastYields ==> k.0 != key)
    ensures Static(program, Dictionary(program), program, program, Start(key), 0, names)
    ensures Dynamic(Dictionary(program), Start(key), 0, EntryProv(names), t, ArgNames(program))
  {
    var args, b, p := Dictionary(program), Start(key), EntryProv(names);
    ArgumentKeys(program, [], 0, 0);
    assert program[0..] == program;
    forall rest: seq<nat> | rest != []
      ensures Parents(program, b.path + rest) == ParentsAt(program, b.path, rest, |b.iteration|, b.enclosing)
    {
      assert b.path + rest == rest;
    }
    forall x | x in p
      ensures NameRight(x, p, t, b, args)
    {
      assert (key, x) !in t.defs;
    }
  }

  lemma {:induction false} SegmentsFollow(program: seq<Operation>, names: set<string>, segments: seq<Segment>, n: nat,
          t: Tables)
    requires Sliceable(program, names) && DistinctKeys(segments) && Unused(t, segments)
    requires forall i :: 0 <= i < |segments| ==> NodesFit(segments[i].nodes, program)
    ensures EdgesOf(program, Dictionary(program), t, Trace(segments), n) == TraceLinks(segments, n, EntryProv(names))
    decreases |segments|
  {
    hide EdgesOf, Run, EventsOf, Expected, Sliceable, NodesFit, Effect, Unused, Static, Dynamic, Dictionary, EntryProv;
    if segments != [] {
      var args, first, rest, p := Dictionary(program), segments[0], segments[1..], EntryProv(names);
      var b := Start(first.key);
      var events := EventsOf(first.nodes, b, 0);
      FirstUnused(t, segments);
      StartReady(program, names, first.key, t);
      EntryProvKeys(names);
      FollowNodes(program, args, first.nodes, program, program, b, 0, n, p, t);
      var u := Run(t, program, events, n);
      StillUnused(b, Defines(program), t, u, EndsYielded(first.nodes), segments);
      SegmentsFollow(program, names, rest, n + |events|, u);
      EdgesConcat(program, args, t, events, Trace(rest), n);
    } else {
      NoEvents(program, t, n);
    }
  }

  lemma {:induction false} NoEvents(program: seq<Operation>, t: Tables, n: nat)
    ensures EdgesOf(program, Dictionary(program), t, [], n) == []
  {
  }

  lemma {:induction false} FirstUnused(t: Tables, segments: seq<Segment>)
    requires segments != [] && Unused(t, segments)
    ensures (forall k :: k in t.defs ==> k.0 != segments[0].key)
    ensures forall k :: k in t.lastYields ==> k.0 != segments[0].key
  {
  }

  lemma {:induction false} EntryProvKeys(names: set<string>)
    ensures EntryProv(names).Keys == names
  {
  }

  lemma {:induction false} StillUnused(b: Instance, results: set<string>, t: Tables, u: Tables, yielded: bool,
          segments: seq<Segment>)
    requires segments != [] && DistinctKeys(segments) && Unused(t, segments) && b == Start(segments[0].key)
    requires Effect(b, 0, results, t, u, yielded)
    ensures Unused(u, segments[1..]) && DistinctKeys(segments[1..])
  {
    forall k, i | k in u.defs && 0 <= i < |segments[1..]|
      ensures k.0 != segments[1..][i].key
    {
      assert segments[1..][i] == segments[i + 1];
      assert segments[0].key != segments[i + 1].key;
      assert SameDef(t, u, k) || k.0 == b.key;
    }
    forall k, i | k in u.lastYields && 0 <= i < |segments[1..]|
      ensures k.0 != segments[1..][i].key
    {
      assert segments[1..][i] == segments[i + 1];
      assert segments[0].key != segments[i + 1].key;
      assert k.0 != b.key ==> k in t.lastYields;
    }
  }

  // ----- links go backward -----

  /** The links of consecutive events, from index `n` on, point to earlier events. */
  ghost predicate Backward(links: seq<set<nat>>, n: nat) {
    forall i, v :: 0 <= i < |links| && v in links[i] ==> v < n + i
  }

  lemma {:induction false} BackwardConcat(a: seq<set<nat>>, b: seq<set<nat>>, n: nat, m: nat)
    requires Backward(a, n) && Backward(b, m) && m == n + |a|
    ensures Backward(a + b, n)
  {
    forall i, v | 0 <= i < |a + b| && v in (a + b)[i]
      ensures v < n + i
    {
      if i >= |a| {
        assert v in b[i - |a|];
      }
    }
  }

  /** Everything the tables hold has an index below `n`. */
  ghost predicate FiledBefore(t: Tables, n: nat) {
    (forall k :: k in t.defs ==> t.defs[k].index < n) && forall k :: k in t.lastYields ==> t.lastYields[k] < n
  }

  lemma {:induction false} ResolveBelow(name: string, seen: set<string>, args: map<string, Argument>, t: Tables,
          key: nat, iteration: seq<int>, n: nat)
    requires FiledBefore(t, n)
    ensures forall v :: v in Resolve(name, seen, args, t, key, iteration) ==> v < n
    decreases |args.Keys - seen|, 1, 0
  {
    if name !in seen && name in args {
      var a := args[name];
      if a.op.opcode.For? && 1 <= a.depth <= |iteration| && |a.op.operands| >= a.position + 3 {
        Smaller(args.Keys - (seen + {name}), args.Keys - seen);
        if a.position == 0 {
          ResolveAllBelow(a.op.operands[..3], seen + {name}, args, t, key, iteration, n);
        } else {
          ResolveBelow(a.op.operands[a.position + 2], seen + {name}, args, t, key, iteration, n);
        }
      }
    }
  }

  lemma {:induction false} ResolveAllBelow(names: seq<string>, seen: set<string>, args: map<string, Argument>,
          t: Tables, key: nat, iteration: seq<int>, n: nat)
    requires FiledBefore(t, n)
    ensures forall v :: v in ResolveAll(names, seen, args, t, key, iteration) ==> v < n
    decreases |args.Keys - seen|, 2, |names|
  {
    hide FiledBefore;
    if names != [] {
      ResolveBelow(names[0], seen, args, t, key, iteration, n);
      ResolveAllBelow(names[1..], seen, args, t, key, iteration, n);
    }
  }

  lemma {:induction false} RecordBelow(t: Tables, e: Event, parents: seq<Parent>, n: nat)
    requires FiledBefore(t, n)
    ensures FiledBefore(Record(t, e, parents, n), n + 1)
  {
    hide YieldKey;
  }

  /** The slicer links every event to earlier ones, whatever the program, the dictionary and
      the trace. */
  lemma {:induction false} EdgesBackward(program: seq<Operation>, args: map<string, Argument>, t: Tables,
          events: seq<Event>, n: nat)
    requires FiledBefore(t, n)
    ensures Backward(EdgesOf(program, args, t, events, n), n)
    decreases |events|
  {
    hide Parents, Record, LinksOf, FiledBefore;
    if events != [] {
      var parents := Parents(program, events[0].location);
      LinksBelow(events[0], parents, args, t, n);
      RecordBelow(t, events[0], parents, n);
      EdgesBackward(program, args, Record(t, events[0], parents, n), events[1..], n + 1);
      EdgesStep(program, args, t, events, n, events[1..]);
      var own, later := [LinksOf(events[0], parents, args, t)],
          EdgesOf(program, args, Record(t, events[0], parents, n), events[1..], n + 1);
      hide EdgesOf;
      BackwardConcat(own, later, n, n + 1);
    }
  }

  lemma {:induction false} LinksBelow(e: Event, parents: seq<Parent>, args: map<string, Argument>, t: Tables, n: nat)
    requires FiledBefore(t, n)
    ensures forall v :: v in LinksOf(e, parents, args, t) ==> v < n
  {
    ResolveAllBelow(References(e.op) + ControlNames(parents), {}, args, t, e.key, e.iteration, n);
    hide ResolveAll, References, ControlNames;
  }

  lemma {:induction false} RoundsUnfold(parent: Node, rounds: seq<Round>, b: Instance, index: nat, n: nat, p: Prov,
          last: Option<nat>, inner: Instance, events: seq<Event>, m: nat, q: Prov, done: Option<nat>)
    requires parent.Looped? && parent.op.regions != [] && rounds != []
    requires forall i :: 0 <= i < |rounds| ==> rounds[i] < parent
    requires inner == InLoop(b, index, parent.op, rounds[0].value) && events == EventsOf(rounds[0].body, inner, 0)
    requires m == n + |events|
    requires q == RoundProv(p, parent.op, last) && done == if m > 0 then Some(m - 1) else None
    ensures RoundEvents(parent, rounds, b, index) == events + RoundEvents(parent, rounds[1..], b, index)
    ensures RoundExpected(parent, rounds, b, index, n, p, last) == Expected(rounds[0].body, inner, 0, n, q)
        + RoundExpected(parent, rounds[1..], b, index, m, p, done)
  {
    hide EventsOf, Expected, RoundProv;
  }
}
