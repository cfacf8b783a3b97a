/** The boundaries that a slice reports besides its links: a name that resolving meets again, or
    one that nothing it knows explains. */
module SliceStops {
  import opened Wrappers
  import opened Ssa
  import opened Interpreter
  import opened Scoping
  import opened Slicing
  import opened SlicingCorrect
  import opened SliceTheorem
  import opened BackwardSlice

  datatype Stop = Cyclic(name: string) | Unresolved(name: string)

  /** The stops of `resolve`; the roots are the inputs and symbols that a program declares. */
  function StopsAt(name: string, seen: set<string>, args: map<string, Argument>, t: Tables, key: nat,
          iteration: seq<int>, roots: set<string>): set<Stop>
    decreases |args.Keys - seen|, 1, 0
  {
    if name in seen then {Cyclic(name)}
    else if (key, name) in t.defs && Prefix(t.defs[(key, name)].iteration, iteration) then {}
    else if name in args && args[name].op.opcode.For? && 1 <= args[name].depth <= |iteration|
        && |args[name].op.operands| >= args[name].position + 3 then
      var a := args[name];
      assert args.Keys - (seen + {name}) < args.Keys - seen;
      Smaller(args.Keys - (seen + {name}), args.Keys - seen);
      if a.position == 0 then StopsAll(a.op.operands[..3], seen + {name}, args, t, key, iteration, roots)
      else if (key, a.location, iteration[..a.depth - 1]) in t.lastYields then {}
      else StopsAt(a.op.operands[a.position + 2], seen + {name}, args, t, key, iteration, roots)
    else if name in roots then {}
    else {Unresolved(name)}
  }

  function StopsAll(names: seq<string>, seen: set<string>, args: map<string, Argument>, t: Tables, key: nat,
          iteration: seq<int>, roots: set<string>): set<Stop>
    decreases |args.Keys - seen|, 2, |names|
  {
    if names == [] then {}
    else
      StopsAt(names[0], seen, args, t, key, iteration, roots)
      + StopsAll(names[1..], seen, args, t, key, iteration, roots)
  }

  function StopsOf(e: Event, parents: seq<Parent>, args: map<string, Argument>, t: Tables,
          roots: set<string>): set<Stop> {
    StopsAll(References(e.op) + ControlNames(parents), {}, args, t, e.key, e.iteration, roots)
  }

  /** The stops of every event, in order, with the tables as they stand at each. */
  function StopsAlong(program: seq<Operation>, args: map<string, Argument>, t: Tables, events: seq<Event>, n: nat,
          roots: set<string>): seq<set<Stop>>
    decreases |events|
  {
    if events == [] then []
    else
      var parents := Parents(program, events[0].location);
      [StopsOf(events[0], parents, args, t, roots)]
          + StopsAlong(program, args, Record(t, events[0], parents, n), events[1..], n + 1, roots)
  }

  // ----- what may stop -----

  /** Only names given from outside stop, and only those that are no roots. */
  ghost predicate Outer(stops: set<Stop>, names: set<string>, roots: set<string>) {
    forall s :: s in stops ==> s.Unresolved? && s.name in names && s.name !in roots
  }

  ghost predicate AllOuter(program: seq<Operation>, args: map<string, Argument>, t: Tables, events: seq<Event>, n: nat,
          names: set<string>, roots: set<string>)
    decreases |events|
  {
    events != [] ==>
      var parents := Parents(program, events[0].location);
      && Outer(StopsOf(events[0], parents, args, t, roots), names, roots)
      && AllOuter(program, args, Record(t, events[0], parents, n), events[1..], n + 1, names, roots)
  }

  /** What is in scope and not an argument of a loop around has been filed, or is given from outside. */
  ghost predicate Filed(p: Prov, t: Tables, b: Instance, names: set<string>) {
    forall x :: x in p && !DeclaredIn(x, b.enclosing) && (b.key, x) !in t.defs ==> x in names
  }

  lemma {:induction false} StopsRight(x: string, seen: set<string>, p: Prov, t: Tables, b: Instance,
          args: map<string, Argument>, names: set<string>, roots: set<string>)
    requires Follows(p, t, b, args) && x in p && Fits(x, args, b.enclosing) && Outside(seen, x, args, b.enclosing)
    requires Filed(p, t, b, names)
    ensures Outer(StopsAt(x, seen, args, t, b.key, b.iteration, roots), names, roots)
    decreases DepthOf(x, args, b.enclosing), 0, 0
  {
    hide Fits, DeclaredIn, Binds;
    assert NameRight(x, p, t, b, args);
    if DeclaredIn(x, b.enclosing) {
      var a := args[x];
      if a.position == 0 {
        assert forall j :: 0 <= j < 3 ==> a.op.operands[..3][j] == a.op.operands[j];
        AllStopsRight(a.op.operands[..3], seen + {x}, a.depth, p, t, b, args, names, roots);
      } else if (b.key, a.location, b.iteration[..a.depth - 1]) !in t.lastYields {
        StopsRight(a.op.operands[a.position + 2], seen + {x}, p, t, b, args, names, roots);
      }
    }
  }

  lemma {:induction false} AllStopsRight(xs: seq<string>, seen: set<string>, depth: nat, p: Prov, t: Tables,
          b: Instance, args: map<string, Argument>, names: set<string>, roots: set<string>)
    requires Follows(p, t, b, args) && Filed(p, t, b, names)
    requires forall s :: s in seen ==> DeclaredIn(s, b.enclosing) && s in args && args[s].depth >= depth
    requires forall i :: 0 <= i < |xs| ==> Lower(xs[i], depth, p, b, args)
    ensures Outer(StopsAll(xs, seen, args, t, b.key, b.iteration, roots), names, roots)
    decreases depth, 1, |xs|
  {
    hide Fits, DeclaredIn, Follows, Filed;
    if xs != [] {
      assert Lower(xs[0], depth, p, b, args);
      assert Outside(seen, xs[0], args, b.enclosing);
      StopsRight(xs[0], seen, p, t, b, args, names, roots);
      AllStopsRight(xs[1..], seen, depth, p, t, b, args, names, roots);
    }
  }

  lemma {:induction false} NamesStopRight(xs: seq<string>, p: Prov, t: Tables, b: Instance,
          args: map<string, Argument>, names: set<string>, roots: set<string>)
    requires Follows(p, t, b, args) && Filed(p, t, b, names)
    requires forall i :: 0 <= i < |xs| ==> InScope(xs[i], p, args, b.enclosing)
    ensures Outer(StopsAll(xs, {}, args, t, b.key, b.iteration, roots), names, roots)
  {
    hide Follows, Filed;
    if xs != [] {
      assert InScope(xs[0], p, args, b.enclosing);
      StopsRight(xs[0], {}, p, t, b, args, names, roots);
      NamesStopRight(xs[1..], p, t, b, args, names, roots);
    }
  }

  lemma {:induction false} OwnStops(op: Operation, args: map<string, Argument>, b: Instance, index: nat, p: Prov,
          t: Tables, names: set<string>, roots: set<string>)
    requires Follows(p, t, b, args) && ControlInScope(b.enclosing, p, args) && Filed(p, t, b, names)
    requires forall name :: name in References(op) ==> InScope(name, p, args, b.enclosing)
    ensures Outer(StopsOf(Event(b.key, b.path + [index], op, b.iteration), b.enclosing, args, t, roots), names, roots)
  {
    hide Follows, Filed, InScope, Outer;
    var xs := References(op) + ControlNames(b.enclosing);
    forall i | 0 <= i < |xs|
      ensures InScope(xs[i], p, args, b.enclosing)
    {
      if i < |References(op)| {
        assert xs[i] in References(op);
      } else {
        assert xs[i] == ControlNames(b.enclosing)[i - |References(op)|];
      }
    }
    NamesStopRight(xs, p, t, b, args, names, roots);
  }

  // ----- filing -----

  /** No definition is ever taken out of the tables. */
  lemma {:induction false} DefinitionsStay(program: seq<Operation>, t: Tables, events: seq<Event>, n: nat)
    ensures t.defs.Keys <= Run(t, program, events, n).defs.Keys
    decreases |events|
  {
    hide Parents, YieldKey, Keys;
    if events != [] {
      DefinitionsStay(program, Record(t, events[0], Parents(program, events[0].location), n), events[1..], n + 1);
    }
  }

  lemma {:induction false} StillFiled(p: Prov, t: Tables, u: Tables, b: Instance, names: set<string>)
    requires Filed(p, t, b, names) && t.defs.Keys <= u.defs.Keys
    ensures Filed(p, u, b, names)
  {
    hide DeclaredIn;
  }

  lemma {:induction false} FiledOwn(op: Operation, b: Instance, index: nat, n: nat, p: Prov, t: Tables,
          names: set<string>)
    requires Filed(p, t, b, names)
    ensures Filed(Defined(p, op.results, n), Record(t, Event(b.key, b.path + [index], op, b.iteration), b.enclosing, n),
        b, names)
  {
    hide DeclaredIn, YieldKey;
    forall x | x in NameSet(op.results)
      ensures (b.key, x) in Keys(b.key, op.results)
    {
      var v :| v in op.results && v.name == x;
    }
  }

  lemma {:induction false} FiledInside(p: Prov, q: Prov, t: Tables, b: Instance, inner: Instance, names: set<string>,
          parent: Parent)
    requires Filed(p, t, b, names) && inner.key == b.key && inner.enclosing == b.enclosing + [parent]
    requires forall x :: x in q ==> x in p || Declares(parent, x)
    ensures Filed(q, t, inner, names)
  {
    hide DeclaredIn, Declares;
    forall x | x in q && !DeclaredIn(x, inner.enclosing) && (inner.key, x) !in t.defs
      ensures x in names
    {
      FitsSnoc(x, map[], b.enclosing, parent);
    }
  }

  // ----- sequences of events -----

  lemma {:induction false} OuterConcat(program: seq<Operation>, args: map<string, Argument>, t: Tables, a: seq<Event>,
          c: seq<Event>, n: nat, names: set<string>, roots: set<string>)
    requires AllOuter(program, args, t, a, n, names, roots)
    requires AllOuter(program, args, Run(t, program, a, n), c, n + |a|, names, roots)
    ensures AllOuter(program, args, t, a + c, n, names, roots)
    decreases |a|
  {
    hide Outer, StopsOf, Record, Parents;
    if a == [] {
      assert a + c == c;
    } else {
      assert (a + c)[0] == a[0] && (a + c)[1..] == a[1..] + c;
      OuterConcat(program, args, Record(t, a[0], Parents(program, a[0].location), n), a[1..], c, n + 1, names, roots);
    }
  }

  lemma {:induction false} OuterStep(program: seq<Operation>, args: map<string, Argument>, t: Tables, e: Event,
          rest: seq<Event>, n: nat, parents: seq<Parent>, names: set<string>, roots: set<string>)
    requires Parents(program, e.location) == parents && Outer(StopsOf(e, parents, args, t, roots), names, roots)
    requires AllOuter(program, args, Record(t, e, parents, n), rest, n + 1, names, roots)
    ensures AllOuter(program, args, t, [e] + rest, n, names, roots)
  {
    hide Outer, StopsOf, Record, Parents;
    assert ([e] + rest)[0] == e && ([e] + rest)[1..] == rest;
  }

  lemma {:induction false} AllOuterMeans(program: seq<Operation>, args: map<string, Argument>, t: Tables,
          events: seq<Event>, n: nat, names: set<string>, roots: set<string>)
    requires AllOuter(program, args, t, events, n, names, roots)
    ensures |StopsAlong(program, args, t, events, n, roots)| == |events|
    ensures forall m :: 0 <= m < |events| ==> Outer(StopsAlong(program, args, t, events, n, roots)[m], names, roots)
    decreases |events|
  {
    hide Outer, StopsOf, Record, Parents;
    if events != [] {
      var parents := Parents(program, events[0].location);
      AllOuterMeans(program, args, Record(t, events[0], parents, n), events[1..], n + 1, names, roots);
    }
  }

  // ----- through an execution -----

  lemma {:induction false} NodesStop(program: seq<Operation>, args: map<string, Argument>, nodes: seq<Node>,
          all: seq<Operation>, ops: seq<Operation>, b: Instance, index: nat, n: nat, p: Prov, t: Tables,
          names: set<string>, roots: set<string>)
    requires NodesFit(nodes, ops) && Static(program, args, all, ops, b, index, p.Keys)
    requires Dynamic(args, b, index, p, t, ArgNames(ops)) && Filed(p, t, b, names)
    ensures AllOuter(program, args, t, EventsOf(nodes, b, index), n, names, roots)
    decreases nodes, 2, 0
  {
    hide InnerFollowed, Follows, FreshYields, Ahead, ControlInScope, Record, LinksOf, Run, InnerEvents, Located,
        ScopedOperation, OperationFits, OperationArgsFirst, NodesFit, NodeFits, ArgNames, Defines, Dynamic, DefsWithin,
        Filed, AllOuter, Outer, StopsOf, Static, EventsOf, ExpectedLinks, Effect, References, RegionDefines, Parents;
    FitStep(nodes, ops);
    if ops == [] {
      NoStops(program, args, t, b, index, n, names, roots);
    } else {
      var node, op := nodes[0], ops[0];
      var inner, e := InnerEvents(node, b, index), Event(b.key, b.path + [index], op, b.iteration);
      StaticParents(program, args, all, ops, b, index, p.Keys);
      StaticStep(program, args, all, ops, b, index, p.Keys);
      InnerStop(program, args, node, all, ops, b, index, n, p, t, names, roots);
      var t1, m := Run(t, program, inner, n), n + |inner|;
      AtOwn(program, args, node, all, ops, b, index, n, p, t);
      DefinitionsStay(program, t, inner, n);
      StillFiled(p, t, t1, b, names);
      OwnStops(op, args, b, index, p, t1, names, roots);
      var t2, rest := Record(t1, e, b.enclosing, m), EventsOf(nodes[1..], b, index + 1);
      if op.opcode.Yield? {
        assert nodes[1..] == [];
        NoStops(program, args, t2, b, index + 1, m + 1, names, roots);
      } else {
        RecordOwn(op, args, b, index, m, p, t1, ArgNames(ops[1..]));
        FiledOwn(op, b, index, m, p, t1, names);
        DefinedKeys(p, op.results, m);
        NodesStop(program, args, nodes[1..], all, ops[1..], b, index + 1, m + 1, Defined(p, op.results, m), t2, names,
            roots);
      }
      EventsStep(nodes, b, index);
      OuterStep(program, args, t1, e, rest, m, b.enclosing, names, roots);
      OuterConcat(program, args, t, inner, [e] + rest, n, names, roots);
      assert inner + ([e] + rest) == inner + [e] + rest;
    }
  }

  lemma {:induction false} NoStops(program: seq<Operation>, args: map<string, Argument>, t: Tables, b: Instance,
          index: nat, n: nat, names: set<string>, roots: set<string>)
    ensures AllOuter(program, args, t, EventsOf([], b, index), n, names, roots)
  {
  }

  lemma {:induction false} StaticParents(program: seq<Operation>, args: map<string, Argument>, all: seq<Operation>,
          ops: seq<Operation>, b: Instance, index: nat, names: set<string>)
    requires Static(program, args, all, ops, b, index, names)
    ensures Parents(program, b.path + [index]) == b.enclosing
  {
    hide Located, Parents;
    ParentsHere(program, all, b, index);
  }

  /** The state in which an operation's own event is linked. */
  lemma {:induction false} AtOwn(program: seq<Operation>, args: map<string, Argument>, node: Node, all: seq<Operation>,
          ops: seq<Operation>, b: Instance, index: nat, n: nat, p: Prov, t: Tables)
    requires ops != [] && NodeFits(node, ops[0]) && Static(program, args, all, ops, b, index, p.Keys)
    requires Dynamic(args, b, index, p, t, ArgNames(ops))
    ensures var t1 := Run(t, program, InnerEvents(node, b, index), n);
            && Follows(p, t1, b, args) && FreshYields(t1, b, index + 1)
            && Ahead(t1, ArgNames(ops[1..]), b.key, b.iteration) && ControlInScope(b.enclosing, p, args)
    ensures forall name :: name in References(ops[0]) ==> InScope(name, p, args, b.enclosing)
    ensures NameSet(ops[0].results) !! ArgNames(ops[1..]) && NameSet(ops[0].results) !! p.Keys
  {
    assert node.op == ops[0];
    hide InnerFollowed, Follows, FreshYields, Ahead, ControlInScope, LinksOf, Run, InnerEvents, ScopedOperation,
        OperationFits, OperationArgsFirst, NodeFits, ArgNames, Dynamic, Static, ExpectedLinks, Effect, RegionDefines;
    StaticStep(program, args, all, ops, b, index, p.Keys);
    FollowInner(program, args, node, all, ops, b, index, n, p, t);
    AfterInner(program, args, node, b, index, n, p, t, ops);
  }

  lemma {:induction false} InnerStop(program: seq<Operation>, args: map<string, Argument>, node: Node,
          all: seq<Operation>, ops: seq<Operation>, b: Instance, index: nat, n: nat, p: Prov, t: Tables,
          names: set<string>, roots: set<string>)
    requires ops != [] && NodeFits(node, ops[0]) && Static(program, args, all, ops, b, index, p.Keys)
    requires Dynamic(args, b, index, p, t, ArgNames(ops)) && Filed(p, t, b, names)
    ensures AllOuter(program, args, t, InnerEvents(node, b, index), n, names, roots)
    decreases node, 2, 0
  {
    StaticStep(program, args, all, ops, b, index, p.Keys);
    DynamicParts(args, b, index, p, t, ArgNames(ops));
    hide Dynamic, ScopedOperation, OperationFits, OperationArgsFirst, Follows, ArgNames, RegionArgNames, RegionDefines,
        Ahead, Static, Filed, AllOuter;
    match node
    case Simple(_) => NothingStops(program, args, t, n, names, roots);
    case Looped(op, rounds) =>
      FreshLoop(t, b, index, rounds);
      NothingFiled(t, b, index);
      AheadLoop(t, ops[0], b, rounds, ArgNames(ops));
      RoundsStop(program, args, node, rounds, all, b, index, n, p, t, None, names, roots);
    case Branched(op, arm) =>
      if arm.None? {
        NothingStops(program, args, t, n, names, roots);
      } else {
        ArmStop(program, args, node, all, b, index, n, p, t, ArgNames(ops), names, roots);
      }
  }

  lemma {:induction false} NothingStops(program: seq<Operation>, args: map<string, Argument>, t: Tables, n: nat,
          names: set<string>, roots: set<string>)
    ensures AllOuter(program, args, t, [], n, names, roots)
  {
  }

  lemma {:induction false} ArmStop(program: seq<Operation>, args: map<string, Argument>, node: Node,
          all: seq<Operation>, b: Instance, index: nat, n: nat, p: Prov, t: Tables, ahead: set<string>,
          names: set<string>, roots: set<string>)
    requires node.Branched? && node.arm.Some? && index < |all| && NodeFits(node, all[index]) && Located(program, all, b)
    requires ScopedOperation(all[index], p.Keys)
    requires OperationFits(args, all[index], b.path + [index], b.enclosing, |b.iteration|)
    requires OperationArgsFirst(all[index])
    requires Dynamic(args, b, index, p, t, ahead) && Filed(p, t, b, names)
    requires RegionArgNames(all[index].regions) <= args.Keys && RegionArgNames(all[index].regions) <= ahead
    ensures AllOuter(program, args, t, InnerEvents(node, b, index), n, names, roots)
    decreases node, 1, 0
  {
    var op, arm := all[index], node.arm.value;
    var inner, ops := InArm(b, index, op, arm.region), op.regions[arm.region].operations;
    ArmReady(op, args, b, index, arm.region, p, t, ahead);
    StaticInside(program, args, all, b, index, arm.region, inner, p.Keys);
    FiledInside(p, p, t, b, inner, names, Parent(b.path + [index], op, |b.iteration|));
    hide Dynamic, ArgNames, RegionArgNames, Filed, AllOuter;
    NodesStop(program, args, arm.body, ops, ops, inner, 0, n, p, t, names, roots);
  }

  lemma {:induction false} RoundsStop(program: seq<Operation>, args: map<string, Argument>, parent: Node,
          rounds: seq<Round>, all: seq<Operation>, b: Instance, index: nat, n: nat, p: Prov, t: Tables,
          last: Option<nat>, names: set<string>, roots: set<string>)
    requires parent.Looped? && parent.op.regions != [] && forall i :: 0 <= i < |rounds| ==> rounds[i] < parent
    requires LoopStatic(program, args, all, b, index, parent.op, p.Keys)
    requires LoopDynamic(args, parent.op, b, index, rounds, p, t, last) && Filed(p, t, b, names)
    requires RoundsFit(parent, rounds, parent.op.regions[0].operations) && DistinctRounds(rounds)
    ensures AllOuter(program, args, t, RoundEvents(parent, rounds, b, index), n, names, roots)
    decreases parent, 1, |rounds|
  {
    hide LoopStatic, LoopDynamic, NodesFit, RoundsFit, DistinctRounds, Filed, AllOuter, RoundEvents, RoundExpected,
        Between, Run, EventsOf, InLoop, Expected, RoundProv;
    if rounds == [] {
      NoRounds(parent, rounds, b, index);
      NothingStops(program, args, t, n, names, roots);
    } else {
      RoundsFitParts(parent, rounds, parent.op.regions[0].operations);
      var inner, q, events, u, m, done := FirstRound(program, args, parent, rounds, all, b, index, n, p, t, last);
      BetweenParts(program, args, parent, rounds, b, index, n, p, t, last, inner, q, events, u, m, done);
      RoundStops(program, args, parent, rounds, all, b, index, n, p, t, last, names, roots);
      DefinitionsStay(program, t, events, n);
      StillFiled(p, t, u, b, names);
      RoundsStop(program, args, parent, rounds[1..], all, b, index, m, p, u, done, names, roots);
      RoundsStep(parent, rounds, b, index, n, p, last, inner, events, m, done);
      OuterConcat(program, args, t, events, RoundEvents(parent, rounds[1..], b, index), n, names, roots);
    }
  }

  lemma {:induction false} RoundsFitParts(parent: Node, rounds: seq<Round>, ops: seq<Operation>)
    requires rounds != [] && (forall i :: 0 <= i < |rounds| ==> rounds[i] < parent) && RoundsFit(parent, rounds, ops)
    ensures NodesFit(rounds[0].body, ops) && RoundsFit(parent, rounds[1..], ops)
  {
  }

  lemma {:induction false} BetweenParts(program: seq<Operation>, args: map<string, Argument>, parent: Node,
          rounds: seq<Round>, b: Instance, index: nat, n: nat, p: Prov, t: Tables, last: Option<nat>, inner: Instance,
          q: Prov, events: seq<Event>, u: Tables, m: nat, done: Option<nat>)
    requires Between(program, args, parent, rounds, b, index, n, p, t, last, inner, q, events, u, m, done)
    ensures parent.Looped? && rounds != [] && inner == InLoop(b, index, parent.op, rounds[0].value)
    ensures events == EventsOf(rounds[0].body, inner, 0) && u == Run(t, program, events, n) && events != []
    ensures m == n + |events| && done == Some(m - 1)
  {
    hide Run, EventsOf, InLoop, Expected, EdgesOf, RoundProv, InnerEffect, LastIs;
  }

  lemma {:induction false} RoundStops(program: seq<Operation>, args: map<string, Argument>, parent: Node,
          rounds: seq<Round>, all: seq<Operation>, b: Instance, index: nat, n: nat, p: Prov, t: Tables,
          last: Option<nat>, names: set<string>, roots: set<string>)
    requires parent.Looped? && parent.op.regions != [] && rounds != [] && rounds[0] < parent
    requires LoopStatic(program, args, all, b, index, parent.op, p.Keys)
    requires LoopDynamic(args, parent.op, b, index, rounds, p, t, last) && Filed(p, t, b, names)
    requires NodesFit(rounds[0].body, parent.op.regions[0].operations)
    ensures AllOuter(program, args, t, EventsOf(rounds[0].body, InLoop(b, index, parent.op, rounds[0].value), 0), n,
        names, roots)
    decreases parent, 0, 0
  {
    var op, ops := parent.op, parent.op.regions[0].operations;
    var inner, q := InLoop(b, index, op, rounds[0].value), RoundProv(p, op, last);
    assert op.opcode.For?;
    hide LoopStatic, LoopDynamic, NodesFit, AllOuter, Static, Dynamic, Filed;
    BodyReady(program, args, all, b, index, op, rounds, p, t, last, inner, q);
    FiledInside(p, q, t, b, inner, names, Parent(b.path + [index], op, |b.iteration| + 1));
    NodesStop(program, args, rounds[0].body, ops, ops, inner, 0, n, q, t, names, roots);
  }

  // ----- whole traces -----

  lemma {:induction false} SegmentsStop(program: seq<Operation>, names: set<string>, segments: seq<Segment>, n: nat,
          t: Tables, roots: set<string>)
    requires Sliceable(program, names) && DistinctKeys(segments) && Unused(t, segments)
    requires forall i :: 0 <= i < |segments| ==> NodesFit(segments[i].nodes, program)
    ensures AllOuter(program, Dictionary(program), t, Trace(segments), n, names, roots)
    decreases |segments|
  {
    hide Run, EventsOf, Sliceable, NodesFit, Effect, Unused, Static, Dynamic, Dictionary, EntryProv, AllOuter, Followed;
    if segments == [] {
      NothingStops(program, Dictionary(program), t, n, names, roots);
    } else {
      var args, first, rest, p := Dictionary(program), segments[0], segments[1..], EntryProv(names);
      var b := Start(first.key);
      var events := EventsOf(first.nodes, b, 0);
      FirstUnused(t, segments);
      StartReady(program, names, first.key, t);
      EntryProvKeys(names);
      FollowNodes(program, args, first.nodes, program, program, b, 0, n, p, t);
      assert Filed(p, t, b, names);
      NodesStop(program, args, first.nodes, program, program, b, 0, n, p, t, names, roots);
      var u := Run(t, program, events, n);
      FollowedEffect(program, args, first.nodes, b, n, p, t, Defines(program));
      StillUnused(b, Defines(program), t, u, EndsYielded(first.nodes), segments);
      SegmentsStop(program, names, rest, n + |events|, u, roots);
      OuterConcat(program, args, t, events, Trace(rest), n, names, roots);
    }
  }

  lemma {:induction false} FollowedEffect(program: seq<Operation>, args: map<string, Argument>, nodes: seq<Node>,
          b: Instance, n: nat, p: Prov, t: Tables, results: set<string>)
    requires Followed(program, args, nodes, b, 0, n, p, t, results)
    ensures Effect(b, 0, results, t, Run(t, program, EventsOf(nodes, b, 0), n), EndsYielded(nodes))
  {
    hide Effect, Run, EventsOf, EdgesOf, Expected, EndsYielded;
  }

  /** Where the dictionary's entries fit, resolving never meets a name again, and the only names it
      cannot explain are entry arguments and symbols that the program does not declare: on every
      full trace, over any programs and lanes. */
  lemma {:induction false} AcceptedTracesStop(program: Program, launches: seq<Launch>)
    requires VerifyProgram(program).Success?
    requires var ops := program.blocks[0].operations;
             UsesFit(Dictionary(ops), ops, [], 0, [], 0) && Succeeds(ops, launches)
    requires forall i, j :: 0 <= i < j < |launches| ==> launches[i].key != launches[j].key
    ensures var ops, roots := program.blocks[0].operations, NameSet(program.inputs) + program.symbols;
            var stops := StopsAlong(ops, Dictionary(ops), NO_TABLES, Trace(Executed(ops, launches)), 0, roots);
            && |stops| == |Trace(Executed(ops, launches))|
            && forall m, s :: 0 <= m < |stops| && s in stops[m] ==>
                 s.Unresolved? && s.name in Needed(program) && s.name !in roots
  {
    hide AllOuter, StopsAlong, Dictionary, Trace, VerifyProgram, UsesFit, NameSet, Needed, NodeFits, ExecOperation,
        NodeOf;
    NeededScoped(program);
    var ops, names, roots := program.blocks[0].operations, Needed(program), NameSet(program.inputs) + program.symbols;
    var segments := Executed(ops, launches);
    ScopedArgsApart(ops, names, names);
    AcceptedArgsFirst(program);
    forall i | 0 <= i < |segments|
      ensures NodesFit(segments[i].nodes, ops)
    {
      TreeFits(ops, launches[i].env, launches[i].mem, launches[i].ctx);
    }
    SegmentsStop(ops, names, segments, 0, NO_TABLES, roots);
    AllOuterMeans(ops, Dictionary(ops), NO_TABLES, Trace(segments), 0, names, roots);
  }
}
