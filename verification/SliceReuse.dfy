/** A run on which the slicer misses a dependency. Two loops in sequence carry the same name,
    as the frontend writes a kernel that updates one name in two loops. The program is
    accepted and runs from every start; in the first loop the slicer looks the carried name
    up in the second, and loses the initial value. */
module SliceReuse {
  import opened Wrappers
  import opened Ssa
  import opened VerifierSteps
  import opened Interpreter
  import opened Scoping
  import opened Slicing
  import opened SlicingCorrect
  import opened SliceTheorem
  import opened BackwardSlice
  import opened SliceMisses
  import opened LoopEntries

  function ConstantOp(result: string, value: int): Operation {
    Operation(Constant(value), [], [Value(result, INDEX)], NO_ATTRS, [])
  }

  function YieldOp(): Operation {
    Operation(Yield, ["%x_iter"], [], NO_ATTRS, [])
  }

  /** `for i in range(0, 1)` around a body that hands `x` on. */
  function CarryLoop(initial: string, result: string): Operation {
    Operation(For, ["%0", "%1", "%1", initial], [Value(result, INDEX)],
              NO_ATTRS.(induction := "%i", iterArgs := [IterArg("x", initial, "%x_iter")]),
              [Block([Value("%i", INDEX), Value("%x_iter", INDEX)], [YieldOp()])])
  }

  function FirstLoop(): Operation {
    CarryLoop("%2", "%3")
  }

  function SecondLoop(): Operation {
    CarryLoop("%3", "%4")
  }

  function TwoLoops(): Program {
    Program([], [], [Block([], Operations())], {})
  }

  function Operations(): seq<Operation> {
    [ConstantOp("%0", 0), ConstantOp("%1", 1), ConstantOp("%2", 5), FirstLoop(), SecondLoop()]
  }

  // ----- the verifier accepts it -----

  lemma {:induction false} LoopVerifies(initial: string, result: string, s: Scope, last: bool)
    requires initial in s.visible && s.visible[initial] == INDEX && "%0" in s.visible && s.visible["%0"] == INDEX
    requires "%1" in s.visible && s.visible["%1"] == INDEX
    requires NewIn(s, result) && NewIn(s, "%i") && NewIn(s, "%x_iter") && result != "%i" && result != "%x_iter"
    ensures VerifyOperation(CarryLoop(initial, result), last, s, None) == Success(Grown(s, result, INDEX))
  {
    var op, operands, body := CarryLoop(initial, result), ["%0", "%1", "%1", initial], [YieldOp()];
    var inside := Inside(s, result, "%i", "%x_iter", INDEX);
    assert "%i" != "%x_iter";
    YieldVerifies("%x_iter", inside, INDEX);
    hide VerifyOperation, VerifyOperations;
    CarryLoopVerifies(op, operands, result, "%i", "%x_iter", INDEX, body, s, last, None, inside);
    assert inside.definitions - {"%i", "%x_iter"} == s.definitions + {result};
  }

  /** The scope after the first `k` operations. */
  function ScopeAt(k: nat): Scope {
    if k == 0 then Scope(map[], {}) else Grown(ScopeAt(k - 1), "%" + Digits(k - 1), INDEX)
  }

  lemma {:induction false} ScopesAt()
    ensures ScopeAt(0) == Scope(map[], {})
    ensures ScopeAt(1) == Scope(map["%0" := INDEX], {"%0"})
    ensures ScopeAt(2) == Scope(map["%0" := INDEX, "%1" := INDEX], {"%0", "%1"})
    ensures ScopeAt(3) == Scope(map["%0" := INDEX, "%1" := INDEX, "%2" := INDEX], {"%0", "%1", "%2"})
    ensures ScopeAt(4) == Scope(map["%0" := INDEX, "%1" := INDEX, "%2" := INDEX, "%3" := INDEX],
        {"%0", "%1", "%2", "%3"})
    ensures ScopeAt(1) == Grown(ScopeAt(0), "%0", INDEX) && ScopeAt(2) == Grown(ScopeAt(1), "%1", INDEX)
    ensures ScopeAt(3) == Grown(ScopeAt(2), "%2", INDEX) && ScopeAt(4) == Grown(ScopeAt(3), "%3", INDEX)
    ensures ScopeAt(5) == Grown(ScopeAt(4), "%4", INDEX)
  {
    assert "%" + Digits(0) == "%0" && "%" + Digits(1) == "%1" && "%" + Digits(2) == "%2" && "%" + Digits(3) == "%3"
        && "%" + Digits(4) == "%4";
  }

  lemma {:induction false} StepsVerify()
    ensures VerifyOperation(ConstantOp("%0", 0), false, ScopeAt(0), None) == Success(ScopeAt(1))
    ensures VerifyOperation(ConstantOp("%1", 1), false, ScopeAt(1), None) == Success(ScopeAt(2))
    ensures VerifyOperation(ConstantOp("%2", 5), false, ScopeAt(2), None) == Success(ScopeAt(3))
    ensures VerifyOperation(FirstLoop(), false, ScopeAt(3), None) == Success(ScopeAt(4))
    ensures VerifyOperation(SecondLoop(), true, ScopeAt(4), None) == Success(ScopeAt(5))
  {
    hide VerifyOperation, ScopeAt;
    ScopesAt();
    PlainVerifies(ConstantOp("%0", 0), false, ScopeAt(0), None);
    PlainVerifies(ConstantOp("%1", 1), false, ScopeAt(1), None);
    PlainVerifies(ConstantOp("%2", 5), false, ScopeAt(2), None);
    LoopVerifies("%2", "%3", ScopeAt(3), false);
    LoopVerifies("%3", "%4", ScopeAt(4), true);
  }

  lemma {:induction false} TwoLoopsAccepted()
    ensures VerifyProgram(TwoLoops()).Success?
  {
    hide ScopeAt, VerifyOperations, VerifyOperation, ConstantOp, FirstLoop, SecondLoop;
    StepsVerify();
    NoYieldHere();
    FiveVerify(ConstantOp("%0", 0), ConstantOp("%1", 1), ConstantOp("%2", 5), FirstLoop(), SecondLoop(), ScopeAt(0),
        ScopeAt(1), ScopeAt(2), ScopeAt(3), ScopeAt(4), ScopeAt(5), None);
    ScopesAt();
    EntryIsEmpty();
    BlockAccepted(TwoLoops(), ScopeAt(0), ScopeAt(5));
  }

  lemma {:induction false} NoYieldHere()
    ensures !ConstantOp("%0", 0).opcode.Yield? && !ConstantOp("%1", 1).opcode.Yield?
    ensures !ConstantOp("%2", 5).opcode.Yield? && !FirstLoop().opcode.Yield?
  {
  }

  lemma {:induction false} EntryIsEmpty()
    ensures EntryScope(TwoLoops()) == Scope(map[], {})
  {
    assert ProgramSymbols(TwoLoops()) == {};
  }

  lemma {:induction false} BlockAccepted(program: Program, s: Scope, finished: Scope)
    requires program == TwoLoops() && EntryScope(program) == s
    requires VerifyOperations(program.blocks[0].operations, s, None) == Success(finished)
    ensures VerifyProgram(program).Success?
  {
    hide VerifyOperations, Operations;
    var block := program.blocks[0];
    assert BindArguments(block.args, s) == Success(s);
    assert VerifyBlock(block, s, None) == Success(Scope(finished.visible, finished.definitions - NameSet(block.args)));
    assert VerifyOutputs(program, [], {}, finished.visible) == Success(());
  }

  // ----- it runs, and what runs -----

  function LoopNode(op: Operation): Node {
    Looped(op, [Round(0, [Simple(YieldOp())])])
  }

  function RunTree(): seq<Node> {
    [Simple(ConstantOp("%0", 0)), Simple(ConstantOp("%1", 1)), Simple(ConstantOp("%2", 5)), LoopNode(FirstLoop()),
        LoopNode(SecondLoop())]
  }

  /** The operation runs, and the rest of the block after it. */
  lemma {:induction false} RunsThen(op: Operation, rest: seq<Operation>, env: Env, mem: Memory, ctx: Context,
          node: Node, nodes: seq<Node>, v: Val, next: Env)
    requires !op.opcode.Yield? && ExecOperation(op, env, mem, ctx) == Success(([v], mem))
    requires NodeOf(op, env, mem, ctx) == node
    requires next == BindValues(op.results, [v], env) && ExecOperations(rest, next, mem, ctx).Success?
    requires TreeOf(rest, next, mem, ctx) == nodes
    ensures ExecOperations([op] + rest, env, mem, ctx).Success? && TreeOf([op] + rest, env, mem, ctx) == [node] + nodes
  {
    hide ExecOperation, NodeOf, BindValues;
    var ops := [op] + rest;
    assert ops[0] == op && ops[1..] == rest;
  }

  lemma {:induction false} BindsOne(name: string, v: Val, env: Env)
    ensures BindValues([Value(name, INDEX)], [v], env) == env[name := v]
  {
    var values, vals := [Value(name, INDEX)], [v];
    assert values[1..] == [] && vals[1..] == [];
    assert BindValues(values[1..], vals[1..], env[name := v]) == env[name := v];
  }

  lemma {:induction false} LoopRuns(initial: string, result: string, env: Env, mem: Memory, ctx: Context)
    requires "%0" in env && env["%0"] == Num(0) && "%1" in env && env["%1"] == Num(1) && initial in env
    ensures ExecOperation(CarryLoop(initial, result), env, mem, ctx) == Success(([env[initial]], mem))
    ensures NodeOf(CarryLoop(initial, result), env, mem, ctx) == LoopNode(CarryLoop(initial, result))
  {
    var op := CarryLoop(initial, result);
    LoopOperands(op, initial, env);
    OneRound(op.regions[0], env, mem, ctx, env[initial]);
    LoopEnds(op, env, mem, ctx, env[initial]);
  }

  lemma {:induction false} LoopOperands(op: Operation, initial: string, env: Env)
    requires op.operands == ["%0", "%1", "%1", initial] && (forall name :: name in op.operands ==> name in env)
    requires env["%0"] == Num(0) && env["%1"] == Num(1)
    ensures
      var args := Lookup(op.operands, env);
      args.Success? && |args.value| == 4 && args.value[0] == Num(0) && args.value[1] == Num(1)
          && args.value[2] == Num(1)
    ensures Lookup(op.operands, env).value[3..] == [env[initial]]
  {
    assert op.operands[3] == initial;
  }

  lemma {:induction false} LoopEnds(op: Operation, env: Env, mem: Memory, ctx: Context, v: Val)
    requires op.opcode.For? && |op.results| == 1 && |op.regions| == 1 && Lookup(op.operands, env).Success?
    requires
      var args := Lookup(op.operands, env).value;
      |args| == 4 && args[0] == Num(0) && args[1] == Num(1) && args[2] == Num(1) && args[3..] == [v]
    requires ExecLoop(op.regions[0], env, mem, ctx, [v], 0, 1, 1) == Success(([v], mem))
    requires RoundsOf(op.regions[0], env, mem, ctx, [v], 0, 1, 1) == [Round(0, [Simple(YieldOp())])]
    ensures ExecOperation(op, env, mem, ctx) == Success(([v], mem)) && NodeOf(op, env, mem, ctx) == LoopNode(op)
  {
    hide ExecLoop, RoundsOf, Lookup, ExecOperations, TreeOf, Compute, StoreOperation;
    assert RangeLength(0, 1, 1) == 1;
    assert ScalarOf(Num(0), ctx, mem) == Success(0) && ScalarOf(Num(1), ctx, mem) == Success(1);
  }

  lemma {:induction false} OneRound(region: Block, env: Env, mem: Memory, ctx: Context, v: Val)
    requires region == Block([Value("%i", INDEX), Value("%x_iter", INDEX)], [YieldOp()])
    ensures ExecLoop(region, env, mem, ctx, [v], 0, 1, 1) == Success(([v], mem))
    ensures RoundsOf(region, env, mem, ctx, [v], 0, 1, 1) == [Round(0, [Simple(YieldOp())])]
  {
    var values, vals := region.args, [Num(0)] + [v];
    assert values[1..] == [Value("%x_iter", INDEX)] && vals[1..] == [v];
    BindsOne("%x_iter", v, env["%i" := Num(0)]);
    var local := BindValues(values, vals, env);
    assert local == env["%i" := Num(0)]["%x_iter" := v];
    YieldsCarried(local, mem, ctx, v);
    assert ExecLoop(region, env, mem, ctx, [v], 1, 1, 0) == Success(([v], mem));
    assert RoundsOf(region, env, mem, ctx, [v], 1, 1, 0) == [];
  }

  lemma {:induction false} YieldsCarried(local: Env, mem: Memory, ctx: Context, v: Val)
    requires "%x_iter" in local && local["%x_iter"] == v
    ensures ExecOperations([YieldOp()], local, mem, ctx) == Success(Finish([v], local, mem))
    ensures TreeOf([YieldOp()], local, mem, ctx) == [Simple(YieldOp())]
  {
    var names := YieldOp().operands;
    assert forall name :: name in names ==> name in local;
    assert Lookup(names, local).value == [v];
  }

  lemma {:induction false} ConstantRuns(result: string, value: int, env: Env, mem: Memory, ctx: Context)
    ensures ExecOperation(ConstantOp(result, value), env, mem, ctx) == Success(([Num(value)], mem))
    ensures NodeOf(ConstantOp(result, value), env, mem, ctx) == Simple(ConstantOp(result, value))
  {
  }

  /** From every environment and memory the program runs, each loop for one round. */
  lemma {:induction false} TwoLoopsRun(env: Env, mem: Memory, ctx: Context)
    ensures ExecOperations(Operations(), env, mem, ctx).Success? && TreeOf(Operations(), env, mem, ctx) == RunTree()
  {
    var e1 := env["%0" := Num(0)];
    var e2 := e1["%1" := Num(1)];
    var e3 := e2["%2" := Num(5)];
    var e4 := e3["%3" := Num(5)];
    var e5 := e4["%4" := Num(5)];
    ConstantRuns("%0", 0, env, mem, ctx);
    ConstantRuns("%1", 1, e1, mem, ctx);
    ConstantRuns("%2", 5, e2, mem, ctx);
    LoopRuns("%2", "%3", e3, mem, ctx);
    LoopRuns("%3", "%4", e4, mem, ctx);
    BindsOne("%0", Num(0), env);
    BindsOne("%1", Num(1), e1);
    BindsOne("%2", Num(5), e2);
    BindsOne("%3", Num(5), e3);
    BindsOne("%4", Num(5), e4);
    assert ExecOperations([], e5, mem, ctx).Success? && TreeOf([], e5, mem, ctx) == [];
    FiveRun(env, e1, e2, e3, e4, e5, mem, ctx);
  }

  lemma {:induction false} FiveRun(env: Env, e1: Env, e2: Env, e3: Env, e4: Env, e5: Env, mem: Memory, ctx: Context)
    requires ExecOperation(ConstantOp("%0", 0), env, mem, ctx) == Success(([Num(0)], mem))
    requires NodeOf(ConstantOp("%0", 0), env, mem, ctx) == Simple(ConstantOp("%0", 0))
    requires ExecOperation(ConstantOp("%1", 1), e1, mem, ctx) == Success(([Num(1)], mem))
    requires NodeOf(ConstantOp("%1", 1), e1, mem, ctx) == Simple(ConstantOp("%1", 1))
    requires ExecOperation(ConstantOp("%2", 5), e2, mem, ctx) == Success(([Num(5)], mem))
    requires NodeOf(ConstantOp("%2", 5), e2, mem, ctx) == Simple(ConstantOp("%2", 5))
    requires ExecOperation(FirstLoop(), e3, mem, ctx) == Success(([Num(5)], mem))
    requires NodeOf(FirstLoop(), e3, mem, ctx) == LoopNode(FirstLoop())
    requires ExecOperation(SecondLoop(), e4, mem, ctx) == Success(([Num(5)], mem))
    requires NodeOf(SecondLoop(), e4, mem, ctx) == LoopNode(SecondLoop())
    requires e1 == BindValues([Value("%0", INDEX)], [Num(0)], env)
    requires e2 == BindValues([Value("%1", INDEX)], [Num(1)], e1)
    requires e3 == BindValues([Value("%2", INDEX)], [Num(5)], e2)
    requires e4 == BindValues([Value("%3", INDEX)], [Num(5)], e3)
    requires e5 == BindValues([Value("%4", INDEX)], [Num(5)], e4)
    requires ExecOperations([], e5, mem, ctx).Success? && TreeOf([], e5, mem, ctx) == []
    ensures ExecOperations(Operations(), env, mem, ctx).Success? && TreeOf(Operations(), env, mem, ctx) == RunTree()
  {
    hide ExecOperation, ExecOperations, NodeOf, TreeOf, BindValues;
    var n := RunTree();
    RunsThen(SecondLoop(), [], e4, mem, ctx, n[4], [], Num(5), e5);
    RunsThen(FirstLoop(), [SecondLoop()] + [], e3, mem, ctx, n[3], [n[4]] + [], Num(5), e4);
    RunsThen(ConstantOp("%2", 5), [FirstLoop()] + ([SecondLoop()] + []), e2, mem, ctx, n[2], [n[3]] + ([n[4]] + []),
        Num(5), e3);
    RunsThen(ConstantOp("%1", 1), [ConstantOp("%2", 5)] + ([FirstLoop()] + ([SecondLoop()] + [])), e1, mem, ctx, n[1],
        [n[2]] + ([n[3]] + ([n[4]] + [])), Num(1), e2);
    RunsThen(ConstantOp("%0", 0),
        [ConstantOp("%1", 1)] + ([ConstantOp("%2", 5)] + ([FirstLoop()] + ([SecondLoop()] + []))), env, mem, ctx,
             n[0], [n[1]] + ([n[2]] + ([n[3]] + ([n[4]] + []))), Num(0), e1);
    hide FirstLoop, SecondLoop, ConstantOp;
    assert Operations() == [ConstantOp("%0", 0)]
        + ([ConstantOp("%1", 1)] + ([ConstantOp("%2", 5)] + ([FirstLoop()] + ([SecondLoop()] + []))));
    assert n == [n[0]] + ([n[1]] + ([n[2]] + ([n[3]] + ([n[4]] + []))));
  }

  // ----- what the slicer makes of it -----

  function InFirst(key: nat): Instance {
    InLoop(Start(key), 3, FirstLoop(), 0)
  }

  function Body(): seq<Node> {
    [Simple(YieldOp())]
  }

  lemma {:induction false} AfterSimple(op: Operation, rest: seq<Node>, b: Instance, index: nat, n: nat, p: Prov,
          q: Prov)
    requires q == Defined(p, op.results, n)
    ensures EventsOf([Simple(op)] + rest, b, index) == [Event(b.key, b.path + [index], op, b.iteration)]
        + EventsOf(rest, b, index + 1)
    ensures Expected([Simple(op)] + rest, b, index, n, p) == [ExpectedLinks(Simple(op), b, n, p)]
        + Expected(rest, b, index + 1, n + 1, q)
  {
    hide Expected, EventsOf, ExpectedLinks, Defined;
    var nodes := [Simple(op)] + rest;
    assert nodes[0] == Simple(op) && nodes[1..] == rest;
    NothingInside(op, b, index, n, p);
    EventsStep(nodes, b, index);
    ExpectedStep(nodes, b, index, n, p);
    var events, links := EventsOf(rest, b, index + 1), Expected(rest, b, index + 1, n + 1, q);
    hide InnerEvents, InnerExpected;
    assert [] + [Event(b.key, b.path + [index], op, b.iteration)]
        + events == [Event(b.key, b.path + [index], op, b.iteration)] + events;
    assert [] + [ExpectedLinks(Simple(op), b, n, p)] + links == [ExpectedLinks(Simple(op), b, n, p)] + links;
  }

  lemma {:induction false} NothingInside(op: Operation, b: Instance, index: nat, n: nat, p: Prov)
    ensures InnerEvents(Simple(op), b, index) == [] && InnerExpected(Simple(op), b, index, n, p) == []
  {
  }

  /** The first event and links of a loop's first round come first. */
  lemma {:induction false} LoopFirst(node: Node, rest: seq<Node>, b: Instance, index: nat, n: nat, p: Prov,
          inner: Instance, q: Prov)
    requires node == LoopNode(FirstLoop()) && inner == InLoop(b, index, FirstLoop(), 0)
    requires q == RoundProv(p, FirstLoop(), None)
    ensures var e := Event(b.key, inner.path + [0], YieldOp(), inner.iteration);
            && |EventsOf([node] + rest, b, index)| > 0 && EventsOf([node] + rest, b, index)[0] == e
            && |Expected([node] + rest, b, index, n, p)| > 0
            && Expected([node] + rest, b, index, n, p)[0] == ExpectedLinks(Simple(YieldOp()), inner, n, q)
  {
    var body := Body();
    assert body == [Simple(YieldOp())] + [];
    AfterSimple(YieldOp(), [], inner, 0, n, q, Defined(q, [], n));
    var events, links := EventsOf(body, inner, 0), Expected(body, inner, 0, n, q);
    hide ExpectedLinks, RoundProv, FirstLoop;
    LoopHasRegion();
    RoundFirst(node, b, index, n, p, inner, q, events, links);
    var nodes := [node] + rest;
    assert nodes[0] == node;
    EventsStep(nodes, b, index);
    ExpectedStep(nodes, b, index, n, p);
    hide EventsOf, Expected, InnerEvents, InnerExpected;
  }

  lemma {:induction false} LoopHasRegion()
    ensures FirstLoop().regions != []
  {
  }

  lemma {:induction false} RoundFirst(node: Node, b: Instance, index: nat, n: nat, p: Prov, inner: Instance, q: Prov,
          events: seq<Event>, links: seq<set<nat>>)
    requires node == LoopNode(FirstLoop()) && FirstLoop().regions != [] && inner == InLoop(b, index, FirstLoop(), 0)
    requires q == RoundProv(p, FirstLoop(), None)
    requires events == EventsOf(Body(), inner, 0) && links == Expected(Body(), inner, 0, n, q) && |events| > 0
    requires |links| > 0
    ensures |InnerEvents(node, b, index)| > 0 && InnerEvents(node, b, index)[0] == events[0]
    ensures |InnerExpected(node, b, index, n, p)| > 0 && InnerExpected(node, b, index, n, p)[0] == links[0]
  {
    hide EventsOf, Expected, RoundProv, FirstLoop;
    assert node.rounds[0] == Round(0, Body());
    assert RoundEvents(node, node.rounds, b, index) == events + RoundEvents(node, node.rounds[1..], b, index);
  }

  lemma {:induction false} InitialHere(p: Prov)
    requires "%2" in p && p["%2"] == {2}
    ensures var q := RoundProv(p, FirstLoop(), None); "%x_iter" in q && q["%x_iter"] == {2}
  {
    var args := FirstLoop().regions[0].args;
    assert args[1] in args && args[0].name != "%x_iter";
    PositionUnique(args, 1);
    assert FirstLoop().operands[3] == "%2";
  }

  lemma {:induction false} DefinedHere(p: Prov, name: string, n: nat)
    ensures var q := Defined(p, [Value(name, INDEX)], n); name in q && q[name] == {n}
  {
    var values := [Value(name, INDEX)];
    assert values[0] in values && name in NameSet(values);
  }

  /** The yield in the first loop is event 3, and hands on the constant 5 of event 2. */
  lemma {:induction false} YieldComesFrom(key: nat, p: Prov)
    ensures var b := Start(key);
            var trace, right := EventsOf(RunTree(), b, 0), Expected(RunTree(), b, 0, 0, p);
            && |trace| > 3 && trace[0] == Event(key, [0], ConstantOp("%0", 0), [])
            && trace[1] == Event(key, [1], ConstantOp("%1", 1), [])
            && trace[2] == Event(key, [2], ConstantOp("%2", 5), []) && trace[3] == Event(key, [3, 0, 0], YieldOp(), [0])
            && |right| > 3 && 2 in right[3]
  {
    hide EventsOf, Expected, Defined, RoundProv, ExpectedLinks;
    var b, n := Start(key), RunTree();
    var p1 := Defined(p, [Value("%0", INDEX)], 0);
    var p2 := Defined(p1, [Value("%1", INDEX)], 1);
    var p3 := Defined(p2, [Value("%2", INDEX)], 2);
    DefinedHere(p2, "%2", 2);
    InitialHere(p3);
    var q := RoundProv(p3, FirstLoop(), None);
    LoopFirst(n[3], [n[4]], b, 3, 3, p3, InFirst(key), q);
    YieldReads(q, InFirst(key));
    Unfold(key, n, p, p1, p2, p3);
  }

  lemma {:induction false} YieldReads(q: Prov, inner: Instance)
    requires "%x_iter" in q && q["%x_iter"] == {2}
    ensures 2 in ExpectedLinks(Simple(YieldOp()), inner, 3, q)
  {
    var names := References(YieldOp()) + ControlNames(inner.enclosing);
    assert names[0] == "%x_iter";
  }

  lemma {:induction false} Unfold(key: nat, n: seq<Node>, p: Prov, p1: Prov, p2: Prov, p3: Prov)
    requires n == RunTree() && p1 == Defined(p, [Value("%0", INDEX)], 0) && p2 == Defined(p1, [Value("%1", INDEX)], 1)
    requires p3 == Defined(p2, [Value("%2", INDEX)], 2)
    requires
      var events, links := EventsOf([n[3]] + [n[4]], Start(key), 3), Expected([n[3]] + [n[4]], Start(key), 3, 3, p3);
      |events| > 0 && events[0] == Event(key, [3, 0, 0], YieldOp(), [0]) && |links| > 0 && 2 in links[0]
    ensures var b := Start(key);
            var trace, right := EventsOf(n, b, 0), Expected(n, b, 0, 0, p);
            && |trace| > 3 && trace[0] == Event(key, [0], ConstantOp("%0", 0), [])
            && trace[1] == Event(key, [1], ConstantOp("%1", 1), [])
            && trace[2] == Event(key, [2], ConstantOp("%2", 5), []) && trace[3] == Event(key, [3, 0, 0], YieldOp(), [0])
            && |right| > 3 && 2 in right[3]
  {
    hide EventsOf, Expected, Defined, ExpectedLinks, FirstLoop, SecondLoop;
    var b, tail := Start(key), [n[3]] + [n[4]];
    AfterSimple(ConstantOp("%2", 5), tail, b, 2, 2, p2, p3);
    AfterSimple(ConstantOp("%1", 1), [n[2]] + tail, b, 1, 1, p1, p2);
    AfterSimple(ConstantOp("%0", 0), [n[1]] + ([n[2]] + tail), b, 0, 0, p, p1);
    assert n == [n[0]] + ([n[1]] + ([n[2]] + tail));
    assert [] + [0] == [0] && [] + [1] == [1] && [] + [2] == [2];
  }

  // ----- the dictionary -----

  lemma {:induction false} NoArguments(path: Location)
    ensures ArgumentsOf([YieldOp()], path, 0, 1) == map[]
  {
    var op := YieldOp();
    assert RegionArguments(op, op.regions, 0, path + [0], 1) == map[];
    assert [op][1..] == [] && ArgumentsOf([op][1..], path, 1, 1) == map[];
  }

  lemma {:induction false} LoopArguments(initial: string, result: string, at: nat)
    ensures var op := CarryLoop(initial, result);
            RegionArguments(op, op.regions, 0, [at], 1) ==
                map["%i" := Argument([at], op, 0, 1), "%x_iter" := Argument([at], op, 1, 1)]
  {
    var op := CarryLoop(initial, result);
    var region := op.regions[0];
    NoArguments([at, 0]);
    PositionUnique(region.args, 0);
    PositionUnique(region.args, 1);
    assert "%i" != "%x_iter";
    assert Declared(op, region.args, [at], 1) ==
        map["%i" := Argument([at], op, 0, 1), "%x_iter" := Argument([at], op, 1, 1)];
    assert op.regions[1..] == [] && RegionArguments(op, op.regions[1..], 1, [at], 1) == map[];
    assert [at] + [0] == [at, 0];
  }

  /** The dictionary knows the carried argument as the second loop's. */
  lemma {:induction false} DictionaryShares()
    ensures Dictionary(Operations()) ==
        map["%i" := Argument([4], SecondLoop(), 0, 1), "%x_iter" := Argument([4], SecondLoop(), 1, 1)]
  {
    LoopArguments("%2", "%3", 3);
    LoopArguments("%3", "%4", 4);
    var first, second := RegionArguments(FirstLoop(), FirstLoop().regions, 0, [3], 1),
        RegionArguments(SecondLoop(), SecondLoop().regions, 0, [4], 1);
    assert first + (second + map[]) == second;
    NoRegionArguments(ConstantOp("%0", 0), [0]);
    NoRegionArguments(ConstantOp("%1", 1), [1]);
    NoRegionArguments(ConstantOp("%2", 5), [2]);
    hide RegionArguments;
    FiveArguments(ConstantOp("%0", 0), ConstantOp("%1", 1), ConstantOp("%2", 5), FirstLoop(), SecondLoop(), first,
        second);
  }

  lemma {:induction false} NoRegionArguments(op: Operation, at: Location)
    requires op.regions == []
    ensures RegionArguments(op, op.regions, 0, at, 0) == map[]
  {
  }

  lemma {:induction false} FiveArguments(a: Operation, b: Operation, c: Operation, d: Operation, e: Operation,
          first: map<string, Argument>, second: map<string, Argument>)
    requires !a.opcode.For? && !b.opcode.For? && !c.opcode.For? && d.opcode.For? && e.opcode.For?
    requires RegionArguments(a, a.regions, 0, [0], 0) == map[] && RegionArguments(b, b.regions, 0, [1], 0) == map[]
    requires RegionArguments(c, c.regions, 0, [2], 0) == map[]
    requires RegionArguments(d, d.regions, 0, [3], 1) == first && RegionArguments(e, e.regions, 0, [4], 1) == second
    ensures Dictionary([a, b, c, d, e]) == first + (second + map[])
  {
    hide RegionArguments, ArgumentsOf;
    ArgumentsStep(e, [], 5);
    ArgumentsStep(e, [], 4);
    ArgumentsStep(d, [e], 3);
    ArgumentsStep(c, [d] + [e], 2);
    ArgumentsStep(b, [c] + ([d] + [e]), 1);
    ArgumentsStep(a, [b] + ([c] + ([d] + [e])), 0);
    assert [a] + ([b] + ([c] + ([d] + [e]))) == [a, b, c, d, e] && [e] + [] == [e];
  }

  lemma {:induction false} ArgumentsStep(op: Operation, rest: seq<Operation>, index: nat)
    ensures ArgumentsOf([op] + rest, [], index, 0) == RegionArguments(op, op.regions, 0, [index], InnerDepth(op, 0))
        + ArgumentsOf(rest, [], index + 1, 0)
    ensures ArgumentsOf([], [], index, 0) == map[]
  {
    hide RegionArguments;
    assert ([op] + rest)[1..] == rest && [] + [index] == [index];
  }

  // ----- the links of the yield -----

  lemma {:induction false} RecordConstant(t: Tables, key: nat, at: Location, result: string, value: int,
          parents: seq<Parent>, n: nat)
    ensures Record(t, Event(key, at, ConstantOp(result, value), []), parents, n) ==
        Tables(t.defs[(key, result) := Origin(n, [])], t.lastYields)
  {
    var e := Event(key, at, ConstantOp(result, value), []);
    assert Keys(key, e.op.results) == {(key, result)};
  }

  /** The carried name is looked up in the second loop, whose initial value does not exist yet. */
  lemma {:induction false} ResolvesToNothing(args: map<string, Argument>, t: Tables, key: nat)
    requires args == map["%i" := Argument([4], SecondLoop(), 0, 1), "%x_iter" := Argument([4], SecondLoop(), 1, 1)]
    requires t == Tables(map[(key, "%0") := Origin(0, []), (key, "%1") := Origin(1, []), (key, "%2") := Origin(2, [])],
        map[])
    ensures Resolve("%x_iter", {}, args, t, key, [0]) == {} && Resolve("%0", {}, args, t, key, [0]) == {0}
    ensures Resolve("%1", {}, args, t, key, [0]) == {1}
  {
    assert SecondLoop().operands[3] == "%3" && "%3" !in args && "%3" != "%x_iter";
    assert Resolve("%3", {} + {"%x_iter"}, args, t, key, [0]) == {};
    assert Prefix<int>([], [0]);
  }

  lemma {:induction false} FourNames(args: map<string, Argument>, t: Tables, key: nat)
    requires Resolve("%x_iter", {}, args, t, key, [0]) == {} && Resolve("%0", {}, args, t, key, [0]) == {0}
    requires Resolve("%1", {}, args, t, key, [0]) == {1}
    ensures ResolveAll(["%x_iter", "%0", "%1", "%1"], {}, args, t, key, [0]) == {0, 1}
  {
    hide Resolve;
    var names := ["%x_iter", "%0", "%1", "%1"];
    assert names[1..] == ["%0", "%1", "%1"] && names[1..][1..] == ["%1", "%1"] && names[1..][1..][1..] == ["%1"]
        && names[1..][1..][1..][1..] == [];
    assert ResolveAll(["%1"], {}, args, t, key, [0]) == {1};
    assert ResolveAll(["%1", "%1"], {}, args, t, key, [0]) == {1};
  }

  lemma {:induction false} YieldParents()
    ensures Parents(Operations(), [3, 0, 0]) == [Parent([3], FirstLoop(), 1)]
  {
    var rest: seq<nat> := [3, 0, 0];
    assert rest[2..] == [0] && [] + [3] == [3] && [] + [3, 0] == [3, 0];
    assert ParentsAt(FirstLoop().regions[0].operations, [3, 0], rest[2..], 1, [Parent([3], FirstLoop(), 1)]) ==
        [Parent([3], FirstLoop(), 1)];
  }

  lemma {:induction false} YieldLinks(args: map<string, Argument>, t: Tables, key: nat)
    requires args == map["%i" := Argument([4], SecondLoop(), 0, 1), "%x_iter" := Argument([4], SecondLoop(), 1, 1)]
    requires t == Tables(map[(key, "%0") := Origin(0, []), (key, "%1") := Origin(1, []), (key, "%2") := Origin(2, [])],
        map[])
    ensures LinksOf(Event(key, [3, 0, 0], YieldOp(), [0]), Parents(Operations(), [3, 0, 0]), args, t) == {0, 1}
  {
    ResolvesToNothing(args, t, key);
    FourNames(args, t, key);
    YieldParents();
    var parents := [Parent([3], FirstLoop(), 1)];
    assert parents[1..] == [] && ControlNames(parents[1..]) == [];
    assert FirstLoop().operands[..3] == ["%0", "%1", "%1"];
    assert References(YieldOp()) + ControlNames(parents) == ["%x_iter", "%0", "%1", "%1"];
  }

  lemma {:induction false} EdgeAt(program: seq<Operation>, args: map<string, Argument>, t: Tables, events: seq<Event>,
          n: nat, k: nat)
    requires k < |events|
    ensures |EdgesOf(program, args, t, events, n)| == |events|
    ensures EdgesOf(program, args, t, events, n)[k] ==
        LinksOf(events[k], Parents(program, events[k].location), args, Run(t, program, events[..k], n))
    decreases k
  {
    EdgeCount(program, args, t, events, n);
    hide LinksOf, Record, Parents;
    if k > 0 {
      EdgeAt(program, args, Record(t, events[0], Parents(program, events[0].location), n), events[1..], n + 1, k - 1);
      assert events[..k][1..] == events[1..][..k - 1] && events[..k][0] == events[0];
    }
  }

  lemma {:induction false} ThreeRecorded(key: nat, trace: seq<Event>)
    requires trace == [Event(key, [0], ConstantOp("%0", 0), []), Event(key, [1], ConstantOp("%1", 1), []),
        Event(key, [2], ConstantOp("%2", 5), [])]
    ensures Run(NO_TABLES, Operations(), trace, 0) ==
        Tables(map[(key, "%0") := Origin(0, []), (key, "%1") := Origin(1, []), (key, "%2") := Origin(2, [])], map[])
  {
    var program := Operations();
    RecordConstant(NO_TABLES, key, [0], "%0", 0, Parents(program, [0]), 0);
    var t1 := Tables(map[(key, "%0") := Origin(0, [])], map[]);
    RecordConstant(t1, key, [1], "%1", 1, Parents(program, [1]), 1);
    var t2 := Tables(map[(key, "%0") := Origin(0, []), (key, "%1") := Origin(1, [])], map[]);
    RecordConstant(t2, key, [2], "%2", 5, Parents(program, [2]), 2);
    hide Record, Parents, ConstantOp, Operations;
    var two := trace[1..];
    var one := two[1..];
    RunStep(program, NO_TABLES, trace, 0, two);
    RunStep(program, t1, two, 1, one);
    RunStep(program, t2, one, 2, one[1..]);
    assert one[1..] == [];
  }

  /** From every start the accepted program runs, and the slicer does not link the yield of
      the first loop, event 3, to the value that it hands on, which event 2 produced. */
  lemma {:induction false} SharedArgumentsMiss(launch: Launch)
    ensures VerifyProgram(TwoLoops()).Success? && Succeeds(Operations(), [launch])
    ensures var segments := Executed(Operations(), [launch]);
            var edges, right := EdgesOf(Operations(), Dictionary(Operations()), NO_TABLES, Trace(segments), 0),
                TraceLinks(segments, 0, EntryProv({}));
            |edges| > 3 && |right| > 3 && 2 in right[3] && 2 !in edges[3]
  {
    hide EventsOf, Expected, RunTree, Operations, EdgesOf, Run, TreeOf, ExecOperations, VerifyProgram, LinksOf,
        EntryProv, Trace, TraceLinks, Dictionary, ConstantOp, YieldOp;
    TwoLoopsAccepted();
    TwoLoopsRun(launch.env, launch.mem, launch.ctx);
    var segments := Executed(Operations(), [launch]);
    OneLaunch(launch);
    var trace := EventsOf(RunTree(), Start(launch.key), 0);
    YieldComesFrom(launch.key, EntryProv({}));
    OneSegment(segments, trace);
    MissedAt(launch.key, trace);
  }

  lemma {:induction false} OneLaunch(launch: Launch)
    requires ExecOperations(Operations(), launch.env, launch.mem, launch.ctx).Success?
    requires TreeOf(Operations(), launch.env, launch.mem, launch.ctx) == RunTree()
    ensures Succeeds(Operations(), [launch]) && Executed(Operations(), [launch]) == [Segment(launch.key, RunTree())]
  {
    hide ExecOperations, TreeOf, Operations, RunTree;
  }

  lemma {:induction false} OneSegment(segments: seq<Segment>, trace: seq<Event>)
    requires |segments| == 1 && trace == EventsOf(segments[0].nodes, Start(segments[0].key), 0)
    ensures Trace(segments) == trace
    ensures TraceLinks(segments, 0, EntryProv({})) ==
        Expected(segments[0].nodes, Start(segments[0].key), 0, 0, EntryProv({}))
  {
    hide EventsOf, Expected, EntryProv;
    assert segments[1..] == [] && Trace(segments[1..]) == [];
    assert TraceLinks(segments[1..], |trace|, EntryProv({})) == [];
  }

  lemma {:induction false} MissedAt(key: nat, trace: seq<Event>)
    requires |trace| > 3 && trace[0] == Event(key, [0], ConstantOp("%0", 0), [])
    requires trace[1] == Event(key, [1], ConstantOp("%1", 1), [])
    requires trace[2] == Event(key, [2], ConstantOp("%2", 5), []) && trace[3] == Event(key, [3, 0, 0], YieldOp(), [0])
    ensures
      var edges := EdgesOf(Operations(), Dictionary(Operations()), NO_TABLES, trace, 0);
      |edges| > 3 && edges[3] == {0, 1}
  {
    hide Operations, ConstantOp, YieldOp, EdgesOf, Run, LinksOf, Dictionary, Parents, SecondLoop;
    DictionaryShares();
    var first := trace[..3];
    assert first == [Event(key, [0], ConstantOp("%0", 0), []), Event(key, [1], ConstantOp("%1", 1), []),
        Event(key, [2], ConstantOp("%2", 5), [])];
    ThreeRecorded(key, first);
    YieldLinks(Dictionary(Operations()), Run(NO_TABLES, Operations(), first, 0), key);
    EdgeAt(Operations(), Dictionary(Operations()), NO_TABLES, trace, 0, 3);
  }

  // ----- an instance of the exact condition -----

  /** The carried argument of the first loop. */
  function OwnArgument(): Argument {
    Argument([3], FirstLoop(), 1, 1)
  }

  /** In the first round of the first loop the argument comes from event 2 alone; the entry is the
      second loop's, whose initial value nothing has defined, so the link is wrong. */
  lemma {:induction false} SharedEntryIsWrong(launch: Launch)
    ensures VerifyProgram(TwoLoops()).Success? && Succeeds(Operations(), [launch])
    ensures var trace := Trace(Executed(Operations(), [launch]));
            && |trace| > 3 && trace[3].iteration == [0] && trace[3].key == launch.key
            && Sources(Operations(), trace[..3], launch.key, OwnArgument(), [0]) == {2}
            && Resolve("%x_iter", {}, Dictionary(Operations()), TablesAt(Operations(), trace, 3), launch.key, [0])
                != {2}
  {
    hide EventsOf, Expected, RunTree, Operations, Run, TreeOf, ExecOperations, VerifyProgram, EntryProv, Trace,
        TraceLinks, Dictionary, ConstantOp, YieldOp, TablesAt, Resolve, FirstLoop, SecondLoop, Sources, YieldedBy,
        StartedBy, Defines, Direct, BindsAt;
    TwoLoopsAccepted();
    TwoLoopsRun(launch.env, launch.mem, launch.ctx);
    var segments := Executed(Operations(), [launch]);
    OneLaunch(launch);
    var trace := EventsOf(RunTree(), Start(launch.key), 0);
    YieldComesFrom(launch.key, EntryProv({}));
    OneSegment(segments, trace);
    DictionaryShares();
    OwnBinds();
    assert trace[..3] == [Event(launch.key, [0], ConstantOp("%0", 0), []),
        Event(launch.key, [1], ConstantOp("%1", 1), []), Event(launch.key, [2], ConstantOp("%2", 5), [])];
    SourcesHere(launch.key, trace[..3]);
    assert TwoLoops().blocks[0].operations == Operations();
    EntryExact(TwoLoops(), [launch], 3, "%x_iter", OwnArgument());
  }

  lemma {:induction false} OwnBinds()
    ensures BindsAt(Operations(), [3], "%x_iter", OwnArgument()) && "%x_iter" !in Defines(Operations())
    ensures OwnArgument().location == [3]
    ensures var args := map["%i" := Argument([4], SecondLoop(), 0, 1), "%x_iter" := Argument([4], SecondLoop(), 1, 1)];
            Direct(OwnArgument(), args) && Direct(args["%x_iter"], args)
  {
    var op, rest: Location := FirstLoop(), [3];
    assert OperationAt(Operations(), rest, 0) == Some((op, 1));
    var v := Value("%x_iter", INDEX);
    assert v in op.regions[0].args;
    assert PositionOf(op.regions[0].args[1..], "%x_iter") == 0;
    NoResultNamedSo();
  }

  lemma {:induction false} NoResultNamedSo()
    ensures "%x_iter" !in Defines(Operations())
  {
    hide Names;
    var ops, names := Operations(), ["%0", "%1", "%2", "%3", "%4"];
    LoopDefines("%2", "%3");
    LoopDefines("%3", "%4");
    assert forall i :: 0 <= i < 3 ==> ops[i].regions == [];
    forall i | 0 <= i < 5
      ensures Names(ops[i].results) + RegionResultNames(ops[i].regions) == [names[i]]
    {
    }
    hide Operations, ResultNames, RegionResultNames;
    OneResultEach(ops, names);
    assert names[0] != "%x_iter" && names[1] != "%x_iter" && names[2] != "%x_iter" && names[3] != "%x_iter";
    assert names[4] != "%x_iter";
  }

  lemma {:induction false} OneResultEach(ops: seq<Operation>, names: seq<string>)
    requires |ops| == |names|
    requires forall i :: 0 <= i < |ops| ==> Names(ops[i].results) + RegionResultNames(ops[i].regions) == [names[i]]
    ensures ResultNames(ops) == names
    decreases |ops|
  {
    hide RegionResultNames;
    if ops != [] {
      OneResultEach(ops[1..], names[1..]);
    }
  }

  lemma {:induction false} LoopDefines(initial: string, result: string)
    ensures RegionResultNames(CarryLoop(initial, result).regions) == []
  {
    var regions := CarryLoop(initial, result).regions;
    var body := regions[0].operations;
    assert regions[1..] == [] && body[1..] == [] && ResultNames(body) == [];
  }

  lemma {:induction false} SourcesHere(key: nat, past: seq<Event>)
    requires past == [Event(key, [0], ConstantOp("%0", 0), []), Event(key, [1], ConstantOp("%1", 1), []),
        Event(key, [2], ConstantOp("%2", 5), [])]
    ensures Sources(Operations(), past, key, OwnArgument(), [0]) == {2}
    ensures StartedBy(past, key, OwnArgument(), [0]) == {2}
    ensures StartedBy(past, key, Argument([4], SecondLoop(), 1, 1), [0]) == {}
  {
    hide Operations, LatestYield;
    NameHere(past, key, 0, "%0", 0);
    NameHere(past, key, 1, "%1", 1);
    NameHere(past, key, 2, "%2", 5);
    assert FirstLoop().operands[3] == "%2" && SecondLoop().operands[3] == "%3";
    assert LatestDefinition(past, key, "%2", 2) && Prefix<int>([], [0]);
    assert DefinedBy(past, key, "%2", [0]) == {2} && DefinedBy(past, key, "%3", [0]) == {};
    NoneYielded(past, key);
  }

  lemma {:induction false} NameHere(past: seq<Event>, key: nat, i: nat, result: string, value: int)
    requires i < |past| && past[i].op == ConstantOp(result, value) && past[i].key == key
    ensures forall x :: DefinesName(past[i], key, x) <==> x == result
    ensures !past[i].op.opcode.Yield?
  {
    assert past[i].op.results == [Value(result, INDEX)];
    assert Value(result, INDEX) in past[i].op.results;
  }

  lemma {:induction false} NoneYielded(past: seq<Event>, key: nat)
    requires forall i :: 0 <= i < |past| ==> !past[i].op.opcode.Yield?
    ensures YieldedBy(Operations(), past, key, OwnArgument(), [0]) == {}
  {
    hide Operations, Parents;
  }
}
