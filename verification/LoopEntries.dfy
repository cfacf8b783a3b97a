/** When the slicer links a block argument right, although two loops may share its name. What a
    loop hands to its argument comes from its own last yield, its initial operand or its bounds;
    the slicer follows the entry of the dictionary instead. */
module LoopEntries {
  import opened Wrappers
  import opened Ssa
  import opened Interpreter
  import opened Scoping
  import opened Slicing
  import opened SlicingCorrect
  import opened SliceTheorem
  import opened BackwardSlice
  import opened SliceMisses

  // ----- the dictionary and the program -----

  /** The operation at a location, and the loop depth inside it. */
  function OperationAt(ops: seq<Operation>, rest: Location, depth: nat): Option<(Operation, nat)>
    decreases |rest|
  {
    if rest == [] || rest[0] >= |ops| then None
    else if |rest| == 1 then Some((ops[rest[0]], InnerDepth(ops[rest[0]], depth)))
    else if rest[1] >= |ops[rest[0]].regions| then None
    else OperationAt(ops[rest[0]].regions[rest[1]].operations, rest[2..], InnerDepth(ops[rest[0]], depth))
  }

  /** The loop at a location binds the name, at some position. */
  predicate BindsAt(program: seq<Operation>, loc: Location, x: string, a: Argument) {
    && a.location == loc && OperationAt(program, loc, 0) == Some((a.op, a.depth))
    && a.op.opcode.For? && a.op.regions != [] && x in NameSet(a.op.regions[0].args)
    && a.position == PositionOf(a.op.regions[0].args, x)
  }

  /** The entry's location is below the block at `path`, and the loop there binds the name. */
  ghost predicate Entered(all: seq<Operation>, path: Location, depth: nat, x: string, a: Argument) {
    && |a.location| > |path| && a.location[..|path|] == path
    && OperationAt(all, a.location[|path|..], depth) == Some((a.op, a.depth))
    && a.op.opcode.For? && a.op.regions != [] && x in NameSet(a.op.regions[0].args)
    && a.position == PositionOf(a.op.regions[0].args, x)
  }

  lemma {:induction false} EntriesAt(all: seq<Operation>, ops: seq<Operation>, path: Location, index: nat, depth: nat,
          visible: set<string>, x: string)
    requires index <= |all| && all[index..] == ops && ScopedOperations(ops, visible)
    requires x in ArgumentsOf(ops, path, index, depth)
    ensures Entered(all, path, depth, x, ArgumentsOf(ops, path, index, depth)[x])
    decreases ops, 0
  {
    hide Entered;
    assert all[index + 1..] == ops[1..] && all[index] == ops[0];
    if x in ArgumentsOf(ops[1..], path, index + 1, depth) {
      EntriesAt(all, ops[1..], path, index + 1, depth, visible + NameSet(ops[0].results), x);
    } else {
      RegionEntriesAt(all, index, ops[0].regions, 0, path, depth, visible, x);
    }
  }

  lemma {:induction false} RegionEntriesAt(all: seq<Operation>, index: nat, regions: seq<Block>, r: nat, path: Location,
          depth: nat, visible: set<string>, x: string)
    requires index < |all| && ScopedOperation(all[index], visible) && r <= |all[index].regions|
    requires all[index].regions[r..] == regions
    requires x in RegionArguments(all[index], regions, r, path + [index], InnerDepth(all[index], depth))
    ensures Entered(all, path, depth, x,
        RegionArguments(all[index], regions, r, path + [index], InnerDepth(all[index], depth))[x])
    decreases regions, 0
  {
    var op, at, inner := all[index], path + [index], InnerDepth(all[index], depth);
    var region := regions[0];
    assert op.regions[r] == region && op.regions[r + 1..] == regions[1..] && region in op.regions;
    hide Entered;
    if x in RegionArguments(op, regions[1..], r + 1, at, inner) {
      RegionEntriesAt(all, index, regions[1..], r + 1, path, depth, visible, x);
    } else if x in ArgumentsOf(region.operations, at + [r], 0, inner) {
      assert ScopedBlock(region, visible);
      EntriesAt(region.operations, region.operations, at + [r], 0, inner, visible + NameSet(region.args), x);
      EnteredBelow(all, index, r, path, depth, x, ArgumentsOf(region.operations, at + [r], 0, inner)[x]);
    } else {
      OwnEntry(all, index, r, path, depth, visible, x);
    }
  }

  lemma {:induction false} EnteredBelow(all: seq<Operation>, index: nat, r: nat, path: Location, depth: nat, x: string,
          a: Argument)
    requires index < |all| && r < |all[index].regions|
    requires Entered(all[index].regions[r].operations, path + [index] + [r], InnerDepth(all[index], depth), x, a)
    ensures Entered(all, path, depth, x, a)
  {
    var deep := path + [index] + [r];
    var rest := a.location[|path|..];
    assert a.location[..|deep|] == deep && |deep| == |path| + 2;
    assert a.location[|path|] == deep[|path|] == index && a.location[|path| + 1] == deep[|path| + 1] == r;
    assert rest[2..] == a.location[|deep|..];
    assert a.location[..|path|] == deep[..|path|] == path;
  }

  lemma {:induction false} OwnEntry(all: seq<Operation>, index: nat, r: nat, path: Location, depth: nat,
          visible: set<string>, x: string)
    requires index < |all| && ScopedOperation(all[index], visible) && r < |all[index].regions|
    requires x in NameSet(all[index].regions[r].args)
    ensures var op := all[index];
            Entered(all, path, depth, x,
                Argument(path + [index], op, PositionOf(op.regions[r].args, x), InnerDepth(op, depth)))
  {
    var op := all[index];
    assert op.regions[r] in op.regions && op.regions[r].args != [] && Shaped(op);
    assert op.opcode.For? && r == 0;
    assert (path + [index])[|path|..] == [index] && (path + [index])[..|path|] == path;
  }

  /** Every entry of an accepted program's dictionary is an argument of the loop it names. */
  lemma {:induction false} EntryBinds(program: Program, x: string)
    requires VerifyProgram(program).Success? && x in Dictionary(program.blocks[0].operations)
    ensures var ops := program.blocks[0].operations;
            BindsAt(ops, Dictionary(ops)[x].location, x, Dictionary(ops)[x])
  {
    AcceptedProgramsAreScoped(program);
    hide VerifyProgram;
    var block := program.blocks[0];
    var ops, a := block.operations, Dictionary(block.operations)[x];
    assert ops[0..] == ops;
    EntriesAt(ops, ops, [], 0, 0, ProgramSymbols(program) + NameSet(program.inputs) + NameSet(block.args), x);
    assert a.location[0..] == a.location;
  }

  // ----- what a block argument's value comes from -----

  /** The event whose result a name denotes, seen from an iteration. */
  ghost function DefinedBy(trace: seq<Event>, key: nat, x: string, iteration: seq<int>): set<nat> {
    set d: nat | d < |trace| && LatestDefinition(trace, key, x, d) && Prefix(trace[d].iteration, iteration)
  }

  ghost function DefinedByAll(trace: seq<Event>, key: nat, names: seq<string>, iteration: seq<int>): set<nat> {
    if names == [] then {}
    else DefinedBy(trace, key, names[0], iteration) + DefinedByAll(trace, key, names[1..], iteration)
  }

  /** The loop is as deep as the iteration at least. */
  predicate Reaches(a: Argument, iteration: seq<int>) {
    a.op.opcode.For? && 1 <= a.depth <= |iteration| && |a.op.operands| >= a.position + 3
  }

  function SlotOf(a: Argument, key: nat, iteration: seq<int>): YieldSlot
    requires Reaches(a, iteration)
  {
    (key, a.location, iteration[..a.depth - 1])
  }

  /** The yield that ended the loop's round before, for a carried argument. */
  ghost function YieldedBy(program: seq<Operation>, trace: seq<Event>, key: nat, a: Argument,
          iteration: seq<int>): set<nat> {
    if a.position == 0 || !Reaches(a, iteration) then {}
    else set j: nat | j < |trace| && LatestYield(program, trace, SlotOf(a, key, iteration), j)
  }

  /** What the argument holds in the first round: the initial value, or what the bounds say. */
  ghost function StartedBy(trace: seq<Event>, key: nat, a: Argument, iteration: seq<int>): set<nat> {
    if !Reaches(a, iteration) then {}
    else if a.position == 0 then DefinedByAll(trace, key, a.op.operands[..3], iteration)
    else DefinedBy(trace, key, a.op.operands[a.position + 2], iteration)
  }

  ghost function Sources(program: seq<Operation>, trace: seq<Event>, key: nat, a: Argument,
          iteration: seq<int>): set<nat> {
    if YieldedBy(program, trace, key, a, iteration) != {} then YieldedBy(program, trace, key, a, iteration)
    else StartedBy(trace, key, a, iteration)
  }

  /** The loop's bounds, or the argument's initial operand, are no block arguments themselves. */
  predicate Direct(a: Argument, args: map<string, Argument>) {
    if a.position == 0 then forall j :: 0 <= j < 3 && j < |a.op.operands| ==> a.op.operands[j] !in args
    else a.position + 2 < |a.op.operands| ==> a.op.operands[a.position + 2] !in args
  }

  lemma {:induction false} DefinitionResolves(x: string, seen: set<string>, args: map<string, Argument>, t: Tables,
          trace: seq<Event>, key: nat, iteration: seq<int>)
    requires DefsSound(t, trace) && x !in args && x !in seen
    ensures Resolve(x, seen, args, t, key, iteration) == DefinedBy(trace, key, x, iteration)
  {
    if d :| d in DefinedBy(trace, key, x, iteration) {
      assert (key, x) in t.defs;
      assert LatestDefinition(trace, key, x, t.defs[(key, x)].index);
      assert forall e :: e in DefinedBy(trace, key, x, iteration) ==> e == t.defs[(key, x)].index;
    }
  }

  lemma {:induction false} DefinitionsResolve(names: seq<string>, seen: set<string>, args: map<string, Argument>,
          t: Tables, trace: seq<Event>, key: nat, iteration: seq<int>)
    requires DefsSound(t, trace) && forall j :: 0 <= j < |names| ==> names[j] !in args && names[j] !in seen
    ensures ResolveAll(names, seen, args, t, key, iteration) == DefinedByAll(trace, key, names, iteration)
    decreases |names|
  {
    hide DefsSound, Resolve, DefinedBy;
    if names != [] {
      DefinitionResolves(names[0], seen, args, t, trace, key, iteration);
      DefinitionsResolve(names[1..], seen, args, t, trace, key, iteration);
    }
  }

  lemma {:induction false} YieldIs(program: seq<Operation>, t: Tables, trace: seq<Event>, key: nat, a: Argument,
          iteration: seq<int>)
    requires YieldsSound(t, program, trace) && a.position > 0 && Reaches(a, iteration)
    ensures var slot := SlotOf(a, key, iteration);
            YieldedBy(program, trace, key, a, iteration) == if slot in t.lastYields then {t.lastYields[slot]} else {}
  {
    hide Fills;
    var slot := SlotOf(a, key, iteration);
    if slot in t.lastYields {
      assert LatestYield(program, trace, slot, t.lastYields[slot]);
      forall j | j in YieldedBy(program, trace, key, a, iteration)
        ensures j == t.lastYields[slot]
      {
        OneLatest(program, trace, slot, j, t.lastYields[slot]);
      }
    }
  }

  /** The slicer links a block argument to the sources of the entry that the dictionary has. */
  lemma {:induction false} EntryResolves(x: string, args: map<string, Argument>, program: seq<Operation>, t: Tables,
          trace: seq<Event>, key: nat, iteration: seq<int>)
    requires TablesSound(t, program, trace) && x in args && Direct(args[x], args) && (key, x) !in t.defs
    ensures Resolve(x, {}, args, t, key, iteration) == Sources(program, trace, key, args[x], iteration)
  {
    var a := args[x];
    hide DefsSound, YieldsSound, DefinedBy, DefinedByAll;
    if Reaches(a, iteration) {
      if a.position == 0 {
        assert forall j :: 0 <= j < 3 ==> a.op.operands[..3][j] == a.op.operands[j];
        DefinitionsResolve(a.op.operands[..3], {} + {x}, args, t, trace, key, iteration);
      } else {
        YieldIs(program, t, trace, key, a, iteration);
        DefinitionResolves(a.op.operands[a.position + 2], {} + {x}, args, t, trace, key, iteration);
      }
    }
  }

  // ----- exactly when the link is right -----

  lemma {:induction false} YieldsDefineNothing(program: seq<Operation>, trace: seq<Event>, key: nat, a: Argument,
          c: Argument, iteration: seq<int>)
    requires QuietYields(trace)
    ensures YieldedBy(program, trace, key, a, iteration) !! StartedBy(trace, key, c, iteration)
  {
    hide Prefix;
    forall j | j in YieldedBy(program, trace, key, a, iteration)
      ensures j !in StartedBy(trace, key, c, iteration)
    {
      assert trace[j].op.opcode.Yield? && trace[j].op.results == [];
      forall x
        ensures j !in DefinedBy(trace, key, x, iteration)
      {
      }
      if Reaches(c, iteration) && c.position == 0 {
        NotAmongDefinitions(trace, key, c.op.operands[..3], iteration, j);
      }
    }
  }

  lemma {:induction false} NotAmongDefinitions(trace: seq<Event>, key: nat, names: seq<string>, iteration: seq<int>,
          j: nat)
    requires forall x :: j !in DefinedBy(trace, key, x, iteration)
    ensures j !in DefinedByAll(trace, key, names, iteration)
  {
    hide DefinedBy;
    if names != [] {
      NotAmongDefinitions(trace, key, names[1..], iteration, j);
    }
  }

  /** Loops at different places share no yield. */
  lemma {:induction false} YieldsApart(program: seq<Operation>, trace: seq<Event>, key: nat, a: Argument, c: Argument,
          iteration: seq<int>)
    requires a.location != c.location
    ensures YieldedBy(program, trace, key, a, iteration) !! YieldedBy(program, trace, key, c, iteration)
  {
    hide Parents;
  }

  /** The dictionary's entry and the loop's own argument have the same sources exactly if they are
      one, or neither loop has ended a round and both start from the same events. */
  lemma {:induction false} SameSources(program: seq<Operation>, trace: seq<Event>, key: nat, a: Argument, own: Argument,
          iteration: seq<int>)
    requires QuietYields(trace) && (a.location == own.location ==> a == own)
    ensures Sources(program, trace, key, a, iteration) == Sources(program, trace, key, own, iteration) <==>
              a.location == own.location
              || (YieldedBy(program, trace, key, a, iteration) == {}
                  && YieldedBy(program, trace, key, own, iteration) == {}
                  && StartedBy(trace, key, a, iteration) == StartedBy(trace, key, own, iteration))
  {
    hide YieldedBy, StartedBy;
    if a.location != own.location {
      YieldsApart(program, trace, key, a, own, iteration);
      YieldsDefineNothing(program, trace, key, a, own, iteration);
      YieldsDefineNothing(program, trace, key, own, a, iteration);
      var y, z := YieldedBy(program, trace, key, a, iteration), YieldedBy(program, trace, key, own, iteration);
      if j :| j in y {
        assert j !in Sources(program, trace, key, own, iteration);
      } else if k :| k in z {
        assert k !in Sources(program, trace, key, a, iteration);
      }
    }
  }

  /** On every full trace of an accepted program: event `m` sees the name `x` as an argument of the
      loop at `loc`, in any round, as a carried value or as the induction value; no result has the
      name, and neither the loop nor the one that the dictionary has in its place starts from a
      block argument. The slicer links `x` to what the loop handed out exactly if the entry is the
      loop's own, or neither loop has ended a round and both start from the same events. */
  lemma {:induction false} EntryExact(program: Program, launches: seq<Launch>, m: nat, x: string, own: Argument)
    requires VerifyProgram(program).Success?
    requires var ops := program.blocks[0].operations;
             && Succeeds(ops, launches) && m < |Trace(Executed(ops, launches))|
             && x in Dictionary(ops) && x !in Defines(ops) && BindsAt(ops, own.location, x, own)
             && Direct(own, Dictionary(ops)) && Direct(Dictionary(ops)[x], Dictionary(ops))
    ensures var ops := program.blocks[0].operations;
            var trace, args := Trace(Executed(ops, launches)), Dictionary(ops);
            var key, iteration, past := trace[m].key, trace[m].iteration, trace[..m];
            Resolve(x, {}, args, TablesAt(ops, trace, m), key, iteration) ==
                Sources(ops, past, key, own, iteration) <==>
              args[x].location == own.location
              || (YieldedBy(ops, past, key, args[x], iteration) == {} && YieldedBy(ops, past, key, own, iteration) == {}
                  && StartedBy(past, key, args[x], iteration) == StartedBy(past, key, own, iteration))
  {
    var ops, names := program.blocks[0].operations, Needed(program);
    var trace, args := Trace(Executed(ops, launches)), Dictionary(ops);
    EntryBinds(program, x);
    hide VerifyProgram, Dictionary, Executed, Trace, Sources, YieldedBy, StartedBy, TablesAt, Resolve, Direct,
        TablesSound, Defines, QuietYields, AllOrdinary;
    TraceFacts(program, launches, m);
    EntryResolves(x, args, ops, TablesAt(ops, trace, m), trace[..m], trace[m].key, trace[m].iteration);
    SameSources(ops, trace[..m], trace[m].key, args[x], own, trace[m].iteration);
  }

  lemma {:induction false} TraceFacts(program: Program, launches: seq<Launch>, m: nat)
    requires VerifyProgram(program).Success?
    requires Succeeds(program.blocks[0].operations, launches)
    requires m < |Trace(Executed(program.blocks[0].operations, launches))|
    ensures var ops := program.blocks[0].operations;
            var trace := Trace(Executed(ops, launches));
            && TablesSound(TablesAt(ops, trace, m), ops, trace[..m]) && QuietYields(trace[..m])
            && forall k :: k in TablesAt(ops, trace, m).defs ==> k.1 in Defines(ops)
  {
    NeededScoped(program);
    var ops, names := program.blocks[0].operations, Needed(program);
    var segments := Executed(ops, launches);
    var trace := Trace(segments);
    hide EventsOf, ScopedOperations, NodesFit, TreeOf, ExecOperations, VerifyProgram, TablesSound, Run, AllOrdinary,
        Defines, TablesAt;
    forall i | 0 <= i < |segments|
      ensures NodesFit(segments[i].nodes, ops)
    {
      TreeFits(ops, launches[i].env, launches[i].mem, launches[i].ctx);
    }
    TraceOrdinary(ops, names, segments);
    SoundAt(ops, trace, m);
    QuietSoFar(trace, Defines(ops), m);
    DefinedAreResults(TablesAt(ops, trace, m), ops, trace, m, Defines(ops));
  }
}
