/** What the slicer loses when two loops share the name of a carried argument. In a later
    round a carried value comes from the yield that ended the round before; the slicer finds
    that yield if the dictionary's entry is the loop's own, and cannot find it if following
    the dictionary from the name never comes to the loop. */
module SliceMisses {
  import opened Wrappers
  import opened Ssa
  import opened Interpreter
  import opened Scoping
  import opened Slicing
  import opened SlicingCorrect
  import opened SliceTheorem
  import opened BackwardSlice

  type YieldSlot = (nat, Location, seq<int>)

  /** The event is the yield that is filed under a slot. */
  predicate Fills(program: seq<Operation>, e: Event, slot: YieldSlot) {
    var parents := Parents(program, e.location);
    e.op.opcode.Yield? && parents != [] && YieldKey(e.key, parents[|parents| - 1], e.iteration) == slot
  }

  /** Event `j` is the last of a trace that fills a slot. */
  predicate LatestYield(program: seq<Operation>, trace: seq<Event>, slot: YieldSlot, j: nat) {
    j < |trace| && Fills(program, trace[j], slot) && forall i :: j < i < |trace| ==> !Fills(program, trace[i], slot)
  }

  /** Event `d` is the last of a trace, in one program and lane, that defines a name. */
  predicate LatestDefinition(trace: seq<Event>, key: nat, x: string, d: nat) {
    && d < |trace| && DefinesName(trace[d], key, x)
    && forall i :: d < i < |trace| ==> !DefinesName(trace[i], key, x)
  }

  predicate DefinesName(e: Event, key: nat, x: string) {
    e.key == key && x in NameSet(e.op.results)
  }

  /** What the tables hold after a trace: for each name its latest definition, and for each slot
      its latest yield. */
  ghost predicate TablesSound(t: Tables, program: seq<Operation>, trace: seq<Event>) {
    DefsSound(t, trace) && YieldsSound(t, program, trace)
  }

  ghost predicate DefsSound(t: Tables, trace: seq<Event>) {
    && (forall k :: k in t.defs ==>
          LatestDefinition(trace, k.0, k.1, t.defs[k].index) && t.defs[k].iteration == trace[t.defs[k].index].iteration)
    && (forall key: nat, x, d: nat :: LatestDefinition(trace, key, x, d) ==> (key, x) in t.defs)
  }

  ghost predicate YieldsSound(t: Tables, program: seq<Operation>, trace: seq<Event>) {
    && (forall slot :: slot in t.lastYields ==> LatestYield(program, trace, slot, t.lastYields[slot]))
    && (forall slot, j: nat :: LatestYield(program, trace, slot, j) ==> slot in t.lastYields)
  }

  lemma {:induction false} RecordSound(t: Tables, program: seq<Operation>, trace: seq<Event>, e: Event,
          next: seq<Event>)
    requires TablesSound(t, program, trace) && next == trace + [e]
    ensures TablesSound(Record(t, e, Parents(program, e.location), |trace|), program, next)
  {
    DefsRecorded(t, program, trace, e, next);
    YieldsRecorded(t, program, trace, e, next);
  }

  lemma {:induction false} DefinedKeys(e: Event)
    ensures forall k: (nat, string) :: k in Keys(e.key, e.op.results) <==> DefinesName(e, k.0, k.1)
  {
    forall k: (nat, string)
      ensures k in Keys(e.key, e.op.results) <==> DefinesName(e, k.0, k.1)
    {
      if DefinesName(e, k.0, k.1) {
        var v :| v in e.op.results && v.name == k.1;
        assert k == (e.key, v.name);
      }
    }
  }

  lemma {:induction false} LatestSnoc(trace: seq<Event>, e: Event, key: nat, x: string, d: nat)
    ensures LatestDefinition(trace + [e], key, x, d) <==>
        if d == |trace| then DefinesName(e, key, x)
        else LatestDefinition(trace, key, x, d) && !DefinesName(e, key, x)
  {
    hide DefinesName;
    var next := trace + [e];
    assert next[|trace|] == e && forall i :: 0 <= i < |trace| ==> next[i] == trace[i];
  }

  lemma {:induction false} DefsRecorded(t: Tables, program: seq<Operation>, trace: seq<Event>, e: Event,
          next: seq<Event>)
    requires DefsSound(t, trace) && next == trace + [e]
    ensures DefsSound(Record(t, e, Parents(program, e.location), |trace|), next)
  {
    hide Parents, YieldKey, Keys, DefinesName, LatestDefinition;
    DefinedKeys(e);
    var n, u := |trace|, Record(t, e, Parents(program, e.location), |trace|);
    forall k | k in u.defs
      ensures LatestDefinition(next, k.0, k.1, u.defs[k].index) && u.defs[k].index < |next|
      ensures u.defs[k].index < |next| ==> u.defs[k].iteration == next[u.defs[k].index].iteration
    {
      LatestSnoc(trace, e, k.0, k.1, u.defs[k].index);
      LatestBelow(trace, k.0, k.1, u.defs[k].index);
    }
    forall key: nat, x, d: nat | LatestDefinition(next, key, x, d)
      ensures (key, x) in u.defs
    {
      LatestSnoc(trace, e, key, x, d);
    }
  }

  lemma {:induction false} LatestBelow(trace: seq<Event>, key: nat, x: string, d: nat)
    ensures LatestDefinition(trace, key, x, d) ==> d < |trace|
  {
  }

  lemma {:induction false} YieldsRecorded(t: Tables, program: seq<Operation>, trace: seq<Event>, e: Event,
          next: seq<Event>)
    requires YieldsSound(t, program, trace) && next == trace + [e]
    ensures YieldsSound(Record(t, e, Parents(program, e.location), |trace|), program, next)
  {
    hide Parents, YieldKey;
    var n, parents := |trace|, Parents(program, e.location);
    var u := Record(t, e, parents, n);
    forall slot | slot in u.lastYields
      ensures LatestYield(program, next, slot, u.lastYields[slot])
    {
      assert next[n] == e;
      if !Fills(program, e, slot) {
        assert LatestYield(program, trace, slot, t.lastYields[slot]);
      }
    }
    forall slot, j: nat | LatestYield(program, next, slot, j)
      ensures slot in u.lastYields
    {
      if j < n {
        assert LatestYield(program, trace, slot, j) by {
          assert forall i :: j < i < |trace| ==> next[i] == trace[i];
        }
      }
    }
  }

  lemma {:induction false} RunSound(t: Tables, program: seq<Operation>, done: seq<Event>, events: seq<Event>)
    requires TablesSound(t, program, done)
    ensures TablesSound(Run(t, program, events, |done|), program, done + events)
    decreases |events|
  {
    hide TablesSound, Record, Parents;
    if events == [] {
      assert done + events == done;
    } else {
      var next := done + [events[0]];
      RecordSound(t, program, done, events[0], next);
      RunSound(Record(t, events[0], Parents(program, events[0].location), |done|), program, next, events[1..]);
      assert next + events[1..] == done + events;
    }
  }

  /** Following the dictionary from a name comes to a carried argument of the loop at `loc`. */
  predicate Leads(x: string, seen: set<string>, args: map<string, Argument>, loc: Location)
    decreases |args.Keys - seen|
  {
    && x !in seen && x in args && |args[x].op.operands| >= args[x].position + 3
    && var a := args[x];
       assert args.Keys - (seen + {x}) < args.Keys - seen;
       Smaller(args.Keys - (seen + {x}), args.Keys - seen);
       if a.position == 0 then exists j :: 0 <= j < 3 && Leads(a.op.operands[j], seen + {x}, args, loc)
       else a.location == loc || Leads(a.op.operands[a.position + 2], seen + {x}, args, loc)
  }

  /** The yields of the trace define nothing. */
  predicate QuietYields(trace: seq<Event>) {
    forall i :: 0 <= i < |trace| && trace[i].op.opcode.Yield? ==> trace[i].op.results == []
  }

  lemma {:induction false} ResolveMisses(x: string, seen: set<string>, args: map<string, Argument>, t: Tables,
          program: seq<Operation>, trace: seq<Event>, slot: YieldSlot, iteration: seq<int>)
    requires TablesSound(t, program, trace) && QuietYields(trace) && slot in t.lastYields
    requires !Leads(x, seen, args, slot.1)
    ensures t.lastYields[slot] !in Resolve(x, seen, args, t, slot.0, iteration)
    decreases |args.Keys - seen|, 1, 0
  {
    hide TablesSound, QuietYields, LatestYield;
    DefinitionsMiss(t, program, trace, slot);
    if x !in seen && !((slot.0, x) in t.defs && Prefix(t.defs[(slot.0, x)].iteration, iteration)) && x in args {
      var a := args[x];
      if a.op.opcode.For? && 1 <= a.depth <= |iteration| && |a.op.operands| >= a.position + 3 {
        Smaller(args.Keys - (seen + {x}), args.Keys - seen);
        var other := (slot.0, a.location, iteration[..a.depth - 1]);
        if a.position == 0 {
          var names := a.op.operands[..3];
          assert forall j :: 0 <= j < 3 ==> names[j] == a.op.operands[j];
          ResolveAllMisses(names, seen + {x}, args, t, program, trace, slot, iteration);
        } else if other in t.lastYields {
          SlotsApart(t, program, trace, slot, other);
        } else {
          ResolveMisses(a.op.operands[a.position + 2], seen + {x}, args, t, program, trace, slot, iteration);
        }
      }
    }
  }

  /** A yield that is filed defines nothing. */
  lemma {:induction false} DefinitionsMiss(t: Tables, program: seq<Operation>, trace: seq<Event>, slot: YieldSlot)
    requires TablesSound(t, program, trace) && QuietYields(trace) && slot in t.lastYields
    ensures forall k :: k in t.defs ==> t.defs[k].index != t.lastYields[slot]
  {
    hide Parents, YieldKey;
    assert LatestYield(program, trace, slot, t.lastYields[slot]);
    forall k | k in t.defs
      ensures t.defs[k].index != t.lastYields[slot]
    {
      assert LatestDefinition(trace, k.0, k.1, t.defs[k].index);
    }
  }

  /** One yield is filed under one location. */
  lemma {:induction false} SlotsApart(t: Tables, program: seq<Operation>, trace: seq<Event>, slot: YieldSlot,
          other: YieldSlot)
    requires TablesSound(t, program, trace) && slot in t.lastYields && other in t.lastYields && slot.1 != other.1
    ensures t.lastYields[other] != t.lastYields[slot]
  {
    hide Parents, YieldKey, DefsSound;
    assert LatestYield(program, trace, slot, t.lastYields[slot]);
    assert LatestYield(program, trace, other, t.lastYields[other]);
  }

  lemma {:induction false} ResolveAllMisses(names: seq<string>, seen: set<string>, args: map<string, Argument>,
          t: Tables, program: seq<Operation>, trace: seq<Event>, slot: YieldSlot, iteration: seq<int>)
    requires TablesSound(t, program, trace) && QuietYields(trace) && slot in t.lastYields
    requires forall j :: 0 <= j < |names| ==> !Leads(names[j], seen, args, slot.1)
    ensures t.lastYields[slot] !in ResolveAll(names, seen, args, t, slot.0, iteration)
    decreases |args.Keys - seen|, 2, |names|
  {
    hide TablesSound, QuietYields;
    if names != [] {
      ResolveMisses(names[0], seen, args, t, program, trace, slot, iteration);
      ResolveAllMisses(names[1..], seen, args, t, program, trace, slot, iteration);
    }
  }

  // ----- what the events of a program define -----

  /** The event's operation defines results of the program, and a yield none. */
  ghost predicate Ordinary(e: Event, names: set<string>) {
    NameSet(e.op.results) <= names && (e.op.opcode.Yield? ==> e.op.results == [])
  }

  ghost predicate AllOrdinary(events: seq<Event>, names: set<string>) {
    forall i :: 0 <= i < |events| ==> Ordinary(events[i], names)
  }

  lemma {:induction false} OrdinaryConcat(a: seq<Event>, b: seq<Event>, names: set<string>)
    requires AllOrdinary(a, names) && AllOrdinary(b, names)
    ensures AllOrdinary(a + b, names)
  {
    hide Ordinary;
  }

  lemma {:induction false} OrdinaryMore(events: seq<Event>, names: set<string>, more: set<string>)
    requires AllOrdinary(events, names) && names <= more
    ensures AllOrdinary(events, more)
  {
  }

  lemma {:induction false} OwnOrdinary(op: Operation, e: Event, visible: set<string>, names: set<string>)
    requires ScopedOperation(op, visible) && e.op == op && NameSet(op.results) <= names
    ensures AllOrdinary([e], names)
  {
  }

  lemma {:induction false} NodesOrdinary(nodes: seq<Node>, ops: seq<Operation>, visible: set<string>, b: Instance,
          index: nat)
    requires NodesFit(nodes, ops) && ScopedOperations(ops, visible)
    ensures AllOrdinary(EventsOf(nodes, b, index), Defines(ops))
    decreases nodes, 1, 0
  {
    hide AllOrdinary, EventsOf, InnerEvents, ScopedOperation, NodeFits, Defines, RegionDefines;
    if ops == [] {
      NoneOrdinary(b, index, ops);
    } else {
      var names := Defines(ops);
      var e := Event(b.key, b.path + [index], nodes[0].op, b.iteration);
      DefinesCons(ops);
      FitStep(nodes, ops);
      EventsStep(nodes, b, index);
      InnerOrdinary(nodes[0], ops[0], visible, b, index);
      OrdinaryMore(InnerEvents(nodes[0], b, index), RegionDefines(ops[0].regions), names);
      OwnOrdinary(ops[0], e, visible, names);
      OrdinaryConcat(InnerEvents(nodes[0], b, index), [e], names);
      if ops[0].opcode.Yield? {
        assert nodes[1..] == [];
        NoneOrdinary(b, index + 1, ops);
      } else {
        NodesOrdinary(nodes[1..], ops[1..], visible + NameSet(ops[0].results), b, index + 1);
        OrdinaryMore(EventsOf(nodes[1..], b, index + 1), Defines(ops[1..]), names);
      }
      OrdinaryConcat(InnerEvents(nodes[0], b, index) + [e], EventsOf(nodes[1..], b, index + 1), names);
    }
  }

  lemma {:induction false} NoneOrdinary(b: Instance, index: nat, ops: seq<Operation>)
    ensures AllOrdinary(EventsOf([], b, index), Defines(ops))
  {
  }

  lemma {:induction false} InnerOrdinary(node: Node, op: Operation, visible: set<string>, b: Instance, index: nat)
    requires NodeFits(node, op) && ScopedOperation(op, visible)
    ensures AllOrdinary(InnerEvents(node, b, index), RegionDefines(op.regions))
    decreases node, 1, 0
  {
    hide AllOrdinary, EventsOf, RoundEvents, Defines, RegionDefines;
    var names := RegionDefines(op.regions);
    match node {
      case Simple(_) => OrdinaryNone(names);
      case Looped(_, rounds) =>
        assert op.regions[0] in op.regions && ScopedBlock(op.regions[0], visible);
        RegionDefinesAt(op.regions, 0);
        RoundsOrdinary(node, rounds, op.regions[0].operations, visible + NameSet(op.regions[0].args), b, index);
        OrdinaryMore(RoundEvents(node, rounds, b, index), Defines(op.regions[0].operations), names);
      case Branched(_, arm) =>
        if arm.Some? {
          var r := arm.value.region;
          assert op.regions[r] in op.regions && ScopedBlock(op.regions[r], visible);
          RegionDefinesAt(op.regions, r);
          var inner := InArm(b, index, node.op, r);
          NodesOrdinary(arm.value.body, op.regions[r].operations, visible + NameSet(op.regions[r].args), inner, 0);
          OrdinaryMore(EventsOf(arm.value.body, inner, 0), Defines(op.regions[r].operations), names);
        } else {
          OrdinaryNone(names);
        }
    }
  }

  lemma {:induction false} OrdinaryNone(names: set<string>)
    ensures AllOrdinary([], names)
  {
  }

  lemma {:induction false} RoundsOrdinary(parent: Node, rounds: seq<Round>, ops: seq<Operation>, visible: set<string>,
          b: Instance, index: nat)
    requires parent.Looped? && (forall i :: 0 <= i < |rounds| ==> rounds[i] < parent) && RoundsFit(parent, rounds, ops)
    requires ScopedOperations(ops, visible)
    ensures AllOrdinary(RoundEvents(parent, rounds, b, index), Defines(ops))
    decreases parent, 0, |rounds|
  {
    hide AllOrdinary, EventsOf, ScopedOperations, NodesFit;
    var names := Defines(ops);
    if rounds == [] {
      OrdinaryNone(names);
    } else {
      var inner := InLoop(b, index, parent.op, rounds[0].value);
      NodesOrdinary(rounds[0].body, ops, visible, inner, 0);
      RoundsOrdinary(parent, rounds[1..], ops, visible, b, index);
      OrdinaryConcat(EventsOf(rounds[0].body, inner, 0), RoundEvents(parent, rounds[1..], b, index), names);
    }
  }

  lemma {:induction false} TraceOrdinary(program: seq<Operation>, names: set<string>, segments: seq<Segment>)
    requires ScopedOperations(program, names)
    requires forall i :: 0 <= i < |segments| ==> NodesFit(segments[i].nodes, program)
    ensures AllOrdinary(Trace(segments), Defines(program))
    decreases |segments|
  {
    hide AllOrdinary, EventsOf, ScopedOperations, NodesFit;
    if segments == [] {
      OrdinaryNone(Defines(program));
    } else {
      NodesOrdinary(segments[0].nodes, program, names, Start(segments[0].key), 0);
      TraceOrdinary(program, names, segments[1..]);
      OrdinaryConcat(EventsOf(segments[0].nodes, Start(segments[0].key), 0), Trace(segments[1..]),
          Defines(program));
    }
  }

  // ----- carried values in later rounds -----

  /** The tables when event `m` of a trace is linked. */
  function TablesAt(program: seq<Operation>, trace: seq<Event>, m: nat): Tables
    requires m <= |trace|
  {
    Run(NO_TABLES, program, trace[..m], 0)
  }

  lemma {:induction false} SoundAt(program: seq<Operation>, trace: seq<Event>, m: nat)
    requires m <= |trace|
    ensures TablesSound(TablesAt(program, trace, m), program, trace[..m])
  {
    RunSound(NO_TABLES, program, [], trace[..m]);
    assert [] + trace[..m] == trace[..m];
  }

  /** On every full trace of an accepted program: let event `j` be the latest yield of the
      loop at `loc` in the outer iteration of event `m`, so that `j` handed out the carried
      values that event `m` sees. A carried argument of the loop, if no result has its name,
      resolves to exactly `j` if its dictionary entry is the loop's own; if following the dictionary never comes to
      the loop, `j` is missed. */
  lemma {:induction false} CarriedLinks(program: Program, launches: seq<Launch>, m: nat, x: string, loc: Location,
          depth: nat, j: nat)
    requires VerifyProgram(program).Success?
    requires var ops := program.blocks[0].operations;
             && Succeeds(ops, launches) && x in Dictionary(ops)
             && var trace := Trace(Executed(ops, launches));
                m < |trace| && 1 <= depth <= |trace[m].iteration|
                    && LatestYield(ops, trace[..m], (trace[m].key, loc, trace[m].iteration[..depth - 1]), j)
    ensures var ops := program.blocks[0].operations;
            var trace, args := Trace(Executed(ops, launches)), Dictionary(ops);
            var a, links := args[x], Resolve(x, {}, args, TablesAt(ops, trace, m), trace[m].key, trace[m].iteration);
            && ((a.location == loc && a.depth == depth && a.position > 0 && a.op.opcode.For?
                 && |a.op.operands| >= a.position + 3 && x !in Defines(ops)) ==> links == {j})
            && (!Leads(x, {}, args, loc) ==> j !in links)
  {
    NeededScoped(program);
    var ops, names := program.blocks[0].operations, Needed(program);
    var segments := Executed(ops, launches);
    var trace, args := Trace(segments), Dictionary(ops);
    hide EventsOf, ScopedOperations, NodesFit, TreeOf, ExecOperations, VerifyProgram, Parents, ArgumentsOf, TablesSound,
        Leads, Resolve, Run, AllOrdinary, LatestYield;
    forall i | 0 <= i < |segments|
      ensures NodesFit(segments[i].nodes, ops)
    {
      TreeFits(ops, launches[i].env, launches[i].mem, launches[i].ctx);
    }
    TraceOrdinary(ops, names, segments);
    SoundAt(ops, trace, m);
    ArgumentKeys(ops, [], 0, 0);
    CarriedLink(ops, trace, args, m, x, loc, depth, j);
  }

  lemma {:induction false} CarriedLink(ops: seq<Operation>, trace: seq<Event>, args: map<string, Argument>, m: nat,
          x: string, loc: Location, depth: nat, j: nat)
    requires m < |trace| && x in args
    requires AllOrdinary(trace, Defines(ops))
    requires 1 <= depth <= |trace[m].iteration|
    requires LatestYield(ops, trace[..m], (trace[m].key, loc, trace[m].iteration[..depth - 1]), j)
    requires TablesSound(TablesAt(ops, trace, m), ops, trace[..m])
    ensures var a, links := args[x], Resolve(x, {}, args, TablesAt(ops, trace, m), trace[m].key, trace[m].iteration);
            && ((a.location == loc && a.depth == depth && a.position > 0 && a.op.opcode.For?
                 && |a.op.operands| >= a.position + 3 && x !in Defines(ops)) ==> links == {j})
            && (!Leads(x, {}, args, loc) ==> j !in links)
  {
    hide Defines, TablesAt;
    var t, slot := TablesAt(ops, trace, m), (trace[m].key, loc, trace[m].iteration[..depth - 1]);
    assert slot in t.lastYields && LatestYield(ops, trace[..m], slot, t.lastYields[slot]);
    OneLatest(ops, trace[..m], slot, j, t.lastYields[slot]);
    QuietSoFar(trace, Defines(ops), m);
    DefinedAreResults(t, ops, trace, m, Defines(ops));
    if !Leads(x, {}, args, loc) {
      ResolveMisses(x, {}, args, t, ops, trace[..m], slot, trace[m].iteration);
    }
  }

  lemma {:induction false} QuietSoFar(trace: seq<Event>, names: set<string>, m: nat)
    requires m <= |trace| && AllOrdinary(trace, names)
    ensures QuietYields(trace[..m])
  {
    forall i | 0 <= i < m && trace[..m][i].op.opcode.Yield?
      ensures trace[..m][i].op.results == []
    {
      assert Ordinary(trace[i], names);
    }
  }

  lemma {:induction false} DefinedAreResults(t: Tables, program: seq<Operation>, trace: seq<Event>, m: nat,
          names: set<string>)
    requires m <= |trace| && TablesSound(t, program, trace[..m]) && AllOrdinary(trace, names)
    ensures forall k :: k in t.defs ==> k.1 in names
  {
    forall k | k in t.defs
      ensures k.1 in names
    {
      assert Ordinary(trace[t.defs[k].index], names);
    }
  }

  lemma {:induction false} OneLatest(program: seq<Operation>, trace: seq<Event>, slot: YieldSlot, i: nat, j: nat)
    requires LatestYield(program, trace, slot, i) && LatestYield(program, trace, slot, j)
    ensures i == j
  {
    hide Fills;
  }
}
