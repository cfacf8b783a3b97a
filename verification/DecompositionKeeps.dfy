/** The whole pass: an accepted program stays accepted. The proof follows the verifier over
    the original and the rewritten program side by side. */
module DecompositionKeeps {
  import opened Wrappers
  import opened Ssa
  import opened VerifierSteps
  import opened Linalg
  import opened Decomposition
  import opened DecompositionValid

  // ----- what a caller must guarantee -----

  /** The results that the pass removes from a block. */
  ghost function DroppedNames(all: seq<Operation>): set<string> {
    set op, name | op in all && Dropped(op, all) && name in NameSet(op.results) :: name
  }

  ghost predicate Free(name: string, gone: set<string>) {
    name !in gone
  }

  ghost predicate AllFree(names: seq<string>, gone: set<string>) {
    forall name :: name in names ==> name !in gone
  }

  function StoreExtent(matmul: Operation, types: map<string, Type>): Extent
    requires IsProduct(matmul)
  {
    ExtentOf(matmul.attrs.k, TypeOf(types, matmul.operands[0]), TypeOf(types, matmul.operands[1]))
  }

  /** The scope in which the regions of an operation are verified. */
  function Around(op: Operation, s: Scope): Scope {
    Scope(s.visible, s.definitions + NameSet(op.results))
  }

  ghost predicate Contracted(op: Operation, s: Scope) {
    && (forall name :: name in op.operands ==> name in s.visible)
    && RegionContractHolds(op, s.visible)
  }

  /** Nothing but the consuming stores of a block uses what the pass removes; where a product
      is decomposed, its K extent is a visible integer and the loop names are free. */
  ghost predicate CleanOperation(op: Operation, all: seq<Operation>, types: map<string, Type>, s: Scope,
          gone: set<string>, named: bool)
    decreases op, 1
  {
    if Dropped(op, all) then true
    else if op.opcode.Store? && |op.operands| >= 2 && TransposeOf(all, op.operands[0]).Some? then
      Free(op.operands[1], gone) && AllFree(op.attrs.indices, gone)
          && AllFree(TransposeOf(all, op.operands[0]).value.operands, gone)
    else if op.opcode.Store? && |op.operands| >= 2 && ProductOf(all, op.operands[0]).Some? then
      ProductFound(all, op.operands[0]);
      var matmul := ProductOf(all, op.operands[0]).value;
      var extent := StoreExtent(matmul, types);
      && Free(op.operands[1], gone) && AllFree(op.attrs.indices, gone) && AllFree(matmul.operands, gone)
      && (extent.FromSymbol? ==>
          extent.name in s.visible && Free(extent.name, gone) && IntegerBound(s.visible[extent.name]))
      && (named ==> NewIn(s, KK) && NewIn(s, ACC_ITER))
    else
      AllFree(References(op), gone)
          && (Contracted(op, s) ==> CleanRegions(op.regions, types, Around(op, s), Slots(op, s.visible), gone, named))
  }

  ghost predicate CleanOperations(ops: seq<Operation>, all: seq<Operation>, types: map<string, Type>, s: Scope,
          slots: Option<seq<seq<Type>>>, gone: set<string>, named: bool)
    decreases ops, 0
  {
    ops == [] ||
    (&& CleanOperation(ops[0], all, types, s, gone, named)
     && var next := VerifyOperation(ops[0], |ops| == 1, s, slots);
     (next.Success? ==> CleanOperations(ops[1..], all, types, next.value, slots, gone, named)))
  }

  ghost predicate CleanRegions(regions: seq<Block>, types: map<string, Type>, s: Scope, slots: seq<seq<Type>>,
          gone: set<string>, named: bool)
    decreases regions, 0
  {
    regions == [] ||
    (&& CleanBlock(regions[0], types, s, Some(slots), gone, named)
     && var inner := VerifyBlock(regions[0], s, Some(slots));
     (inner.Success? ==>
        CleanRegions(regions[1..], types, Scope(s.visible, inner.value.definitions), slots, gone, named)))
  }

  function BlockTypes(block: Block, types: map<string, Type>): map<string, Type> {
    AddResults(AddTypes(types, block.args), block.operations)
  }

  ghost function BlockGone(block: Block, gone: set<string>): set<string> {
    gone - NameSet(block.args) + DroppedNames(block.operations)
  }

  ghost predicate CleanBlock(block: Block, types: map<string, Type>, s: Scope, slots: Option<seq<seq<Type>>>,
          gone: set<string>, named: bool)
    decreases block, 0
  {
    var entered := BindArguments(block.args, s);
    entered.Success? ==>
        CleanOperations(block.operations, block.operations, BlockTypes(block, types), entered.value, slots,
        BlockGone(block, gone), named)
  }

  // ----- the two scopes side by side -----

  ghost predicate IsTemp(name: string) {
    exists m: nat :: name == TempName(m)
  }

  ghost predicate Generated(names: set<string>) {
    forall name :: name in names ==> IsTemp(name)
  }

  /** `u` is the scope of the rewritten program where the original has `s`: it lacks names
      that were removed, and has generated ones besides. */
  ghost predicate Tracks(s: Scope, u: Scope, gone: set<string>, base: set<string>, existing: set<string>) {
    && base <= existing && Generated(existing - base)
    && (forall x :: x in s.visible && x !in gone ==> x in u.visible && u.visible[x] == s.visible[x])
    && u.visible.Keys <= s.visible.Keys + (existing - base)
    && u.definitions <= s.definitions + (existing - base)
  }

  /** The names of the original scope are names of the program, or shape symbols. */
  ghost predicate Entered(s: Scope, base: set<string>) {
    && (forall x :: x in s.visible && IsTemp(x) ==> x in base)
    && s.definitions <= base
  }

  /** Every result and block argument is among the given names. */
  ghost predicate KnownOperations(ops: seq<Operation>, base: set<string>)
    decreases ops, 0
  {
    ops == [] || (NameSet(ops[0].results) <= base && KnownRegions(ops[0].regions, base)
        && KnownOperations(ops[1..], base))
  }

  ghost predicate KnownRegions(regions: seq<Block>, base: set<string>)
    decreases regions, 0
  {
    regions == [] || (KnownBlock(regions[0], base) && KnownRegions(regions[1..], base))
  }

  ghost predicate KnownBlock(block: Block, base: set<string>)
    decreases block, 0
  {
    NameSet(block.args) <= base && KnownOperations(block.operations, base)
  }

  // ----- the terminator stays -----

  lemma {:induction false} YieldStays(ops: seq<Operation>, all: seq<Operation>, types: map<string, Type>, taken: Fresh)
    requires ops != [] && ops[|ops| - 1].opcode.Yield?
    ensures var r := DecomposeOperations(ops, all, types, taken).0;
            r != [] && r[|r| - 1].opcode.Yield? && r[|r| - 1].operands == ops[|ops| - 1].operands
    decreases |ops|
  {
    hide DecomposeOperation;
    var (first, next) := DecomposeOperation(ops[0], all, types, taken);
    var (rest, last) := DecomposeOperations(ops[1..], all, types, next);
    if |ops| == 1 {
      YieldKept(ops[0], all, types, taken);
      assert rest == [];
    } else {
      YieldStays(ops[1..], all, types, next);
    }
  }

  lemma {:induction false} YieldKept(op: Operation, all: seq<Operation>, types: map<string, Type>, taken: Fresh)
    requires op.opcode.Yield?
    ensures var r := DecomposeOperation(op, all, types, taken).0;
            |r| == 1 && r[0].opcode.Yield? && r[0].operands == op.operands
  {
    hide DecomposeRegions;
  }

  /** What the region contracts see of a region. */
  ghost predicate SameShape(region: Block, rewritten: Block) {
    && rewritten.args == region.args
    && (forall n: nat :: EndsWithYield(region, n) ==> EndsWithYield(rewritten, n))
  }

  ghost predicate Alike(regions: seq<Block>, rewritten: seq<Block>) {
    && |regions| == |rewritten|
    && (forall i :: 0 <= i < |regions| ==> SameShape(regions[i], rewritten[i]))
  }

  lemma {:induction false} RegionsStay(regions: seq<Block>, types: map<string, Type>, existing: set<string>)
    ensures Alike(regions, DecomposeRegions(regions, types, existing).0)
    decreases |regions|
  {
    if regions != [] {
      hide DecomposeBlock, EndsWithYield;
      var (first, next) := DecomposeBlock(regions[0], types, existing);
      BlockStays(regions[0], types, existing);
      RegionsStay(regions[1..], types, next);
      AlikeJoin(regions, first, DecomposeRegions(regions[1..], types, next).0);
    }
  }

  lemma {:induction false} AlikeJoin(regions: seq<Block>, first: Block, rest: seq<Block>)
    requires regions != [] && Alike(regions[1..], rest) && SameShape(regions[0], first)
    ensures Alike(regions, [first] + rest)
  {
    hide SameShape;
    var rewritten, tail := [first] + rest, regions[1..];
    forall i | 0 <= i < |regions|
      ensures SameShape(regions[i], rewritten[i])
    {
      if i > 0 {
        assert SameShape(tail[i - 1], rest[i - 1]);
      }
    }
  }

  lemma {:induction false} BlockStays(block: Block, types: map<string, Type>, existing: set<string>)
    ensures SameShape(block, DecomposeBlock(block, types, existing).0)
  {
    hide DecomposeOperations;
    var ops := block.operations;
    if ops != [] && ops[|ops| - 1].opcode.Yield? {
      YieldStays(ops, ops, BlockTypes(block, types), Fresh(existing, FreshIndex(existing, 0)));
    }
  }

  // ----- contracts of an operation that stays -----

  ghost predicate SameOperands(op: Operation, sv: map<string, Type>, uv: map<string, Type>) {
    forall name :: name in op.operands ==> name in sv && name in uv && uv[name] == sv[name]
  }

  lemma {:induction false} ContractStays(op: Operation, regions: seq<Block>, kept: Operation, sv: map<string, Type>,
          uv: map<string, Type>)
    requires SameOperands(op, sv, uv) && kept == op.(regions := regions) && Alike(op.regions, regions)
    requires RegionContractHolds(op, sv)
    ensures RegionContractHolds(kept, uv)
  {
    hide EndsWithYield;
    forall i | 0 <= i < |op.operands|
      ensures op.operands[i] in uv && uv[op.operands[i]] == sv[op.operands[i]]
    {
      assert op.operands[i] in op.operands;
    }
    if op.opcode.If? {
      forall region | region in regions
        ensures region.args == [] && (op.results != [] ==> EndsWithYield(region, |op.results|))
      {
        var i :| 0 <= i < |regions| && regions[i] == region;
        assert op.regions[i] in op.regions;
      }
    }
  }

  lemma {:induction false} SlotsStay(op: Operation, regions: seq<Block>, kept: Operation, sv: map<string, Type>,
          uv: map<string, Type>)
    requires SameOperands(op, sv, uv) && kept == op.(regions := regions) && Alike(op.regions, regions)
    requires RegionContractHolds(op, sv) && RegionContractHolds(kept, uv)
    ensures Slots(kept, uv) == Slots(op, sv)
  {
    hide EndsWithYield;
    if op.opcode.For? {
      forall i | 0 <= i < |op.results|
        ensures Slots(kept, uv)[i] == Slots(op, sv)[i]
      {
        assert op.operands[i + 3] in op.operands;
        assert SameShape(op.regions[0], regions[0]);
      }
    }
    assert Slots(kept, uv) == Slots(op, sv);
  }

  lemma {:induction false} MemoryStays(op: Operation, regions: seq<Block>, kept: Operation, sv: map<string, Type>,
          uv: map<string, Type>)
    requires SameOperands(op, sv, uv) && kept == op.(regions := regions) && MemoryContractHolds(op, sv)
    ensures MemoryContractHolds(kept, uv)
  {
    forall i | 0 <= i < |op.operands|
      ensures op.operands[i] in uv && uv[op.operands[i]] == sv[op.operands[i]]
    {
      assert op.operands[i] in op.operands;
    }
  }

  lemma {:induction false} YieldChecks(op: Operation, regions: seq<Block>, kept: Operation, last: bool,
          sv: map<string, Type>, uv: map<string, Type>, slots: Option<seq<seq<Type>>>)
    requires SameOperands(op, sv, uv) && kept == op.(regions := regions) && CheckYield(op, last, sv, slots).Success?
    requires Alike(op.regions, regions)
    ensures last && CheckYield(kept, true, uv, slots).Success?
  {
    hide EndsWithYield, AllAgree;
    forall i | 0 <= i < |op.operands|
      ensures op.operands[i] in uv && uv[op.operands[i]] == sv[op.operands[i]]
    {
      assert op.operands[i] in op.operands;
    }
  }

  lemma {:induction false} ResultsStay(results: seq<Value>, s: Scope, u: Scope, gone: set<string>, base: set<string>,
          existing: set<string>)
    requires Tracks(s, u, gone, base, existing) && NameSet(results) <= base
    requires DefineResults(results, s.visible, s.definitions).Success?
    ensures DefineResults(results, s.visible, s.definitions).value == s.definitions + NameSet(results)
    ensures DefineResults(results, u.visible, u.definitions) == Success(u.definitions + NameSet(results))
    decreases |results|
  {
    if results == [] {
      assert NameSet(results) == {};
      assert s.definitions + NameSet(results) == s.definitions && u.definitions + NameSet(results) == u.definitions;
    } else {
      var x := results[0].name;
      assert results[0] in results && x in NameSet(results);
      NameSetSplits(results);
      ResultsStay(results[1..], Scope(s.visible, s.definitions + {x}), Scope(u.visible, u.definitions + {x}),
                  gone, base, existing);
      assert s.definitions + {x} + NameSet(results[1..]) == s.definitions + NameSet(results);
      assert u.definitions + {x} + NameSet(results[1..]) == u.definitions + NameSet(results);
    }
  }

  lemma {:induction false} NameSetSplits(values: seq<Value>)
    requires values != []
    ensures NameSet(values) == {values[0].name} + NameSet(values[1..])
  {
    assert values == [values[0]] + values[1..];
  }

  lemma {:induction false} BindAgrees(sv: map<string, Type>, uv: map<string, Type>, values: seq<Value>, x: string)
    requires (x in sv && x in uv && sv[x] == uv[x]) || x in NameSet(values)
    ensures Bind(sv, values)[x] == Bind(uv, values)[x]
    decreases |values|
  {
    if values != [] {
      NameSetSplits(values);
      BindAgrees(sv[values[0].name := values[0].typ], uv[values[0].name := values[0].typ], values[1..], x);
    }
  }

  lemma {:induction false} BindTracks(s: Scope, u: Scope, s1: Scope, u1: Scope, results: seq<Value>, gone: set<string>,
          base: set<string>, existing: set<string>, more: set<string>)
    requires Tracks(s, u, gone, base, existing) && existing <= more && Generated(more - base)
    requires s1.visible == Bind(s.visible, results) && u1.visible == Bind(u.visible, results)
    requires u1.definitions <= s1.definitions + (more - base)
    ensures Tracks(s1, u1, gone, base, more)
  {
    forall x | x in s1.visible && x !in gone
      ensures x in u1.visible && u1.visible[x] == s1.visible[x]
    {
      BindAgrees(s.visible, u.visible, results, x);
    }
  }

  lemma {:induction false} ArgumentsStay(args: seq<Value>, s: Scope, u: Scope, gone: set<string>, base: set<string>,
          existing: set<string>)
    requires Tracks(s, u, gone, base, existing) && NameSet(args) <= base && BindArguments(args, s).Success?
    requires Entered(s, base)
    ensures BindArguments(args, u).Success?
    ensures Tracks(BindArguments(args, s).value, BindArguments(args, u).value, gone - NameSet(args), base, existing)
    ensures Entered(BindArguments(args, s).value, base)
    decreases |args|
  {
    if args != [] {
      var x, t := args[0].name, args[0].typ;
      assert args[0] in args && x in NameSet(args);
      NameSetSplits(args);
      var s1, u1 := Scope(s.visible[x := t], s.definitions + {x}), Scope(u.visible[x := t], u.definitions + {x});
      assert Tracks(s1, u1, gone - {x}, base, existing);
      ArgumentsStay(args[1..], s1, u1, gone - {x}, base, existing);
      assert gone - {x} - NameSet(args[1..]) == gone - NameSet(args);
    } else {
      assert gone - NameSet(args) == gone;
    }
  }

  // ----- what an accepted operation satisfies -----

  lemma {:induction false} Accepted(op: Operation, last: bool, s: Scope, slots: Option<seq<seq<Type>>>)
    requires VerifyOperation(op, last, s, slots).Success?
    ensures forall name :: name in References(op) ==> name in s.visible
    ensures forall name :: name in op.operands ==> name in s.visible
    ensures DefineResults(op.results, s.visible, s.definitions).Success?
    ensures RegionContractHolds(op, s.visible) && MemoryContractHolds(op, s.visible)
    ensures op.opcode.Yield? ==> CheckYield(op, last, s.visible, slots).Success?
    ensures var defined := DefineResults(op.results, s.visible, s.definitions).value;
            var inner := VerifyRegions(op.regions, Scope(s.visible, defined), Slots(op, s.visible));
            && inner.Success?
            && VerifyOperation(op, last, s, slots) == Success(Scope(Bind(s.visible, op.results), inner.value))
  {
    hide VerifyRegions, DefineResults, RegionContractHolds, MemoryContractHolds, CheckYield, Bind;
    assert forall name :: name in op.operands ==> name in References(op);
  }

  lemma {:induction false} Accepting(op: Operation, last: bool, u: Scope, slots: Option<seq<seq<Type>>>,
          defined: set<string>, d: set<string>)
    requires forall name :: name in References(op) ==> name in u.visible
    requires forall name :: name in op.operands ==> name in u.visible
    requires DefineResults(op.results, u.visible, u.definitions) == Success(defined)
    requires RegionContractHolds(op, u.visible) && MemoryContractHolds(op, u.visible)
    requires op.opcode.Yield? ==> CheckYield(op, last, u.visible, slots).Success?
    requires VerifyRegions(op.regions, Scope(u.visible, defined), Slots(op, u.visible)) == Success(d)
    ensures VerifyOperation(op, last, u, slots) == Success(Scope(Bind(u.visible, op.results), d))
  {
    hide VerifyRegions, DefineResults, RegionContractHolds, MemoryContractHolds, CheckYield, Bind, Slots, References;
  }

  lemma {:induction false} DefinedAreFresh(results: seq<Value>, visible: map<string, Type>, definitions: set<string>)
    requires DefineResults(results, visible, definitions).Success?
    ensures forall value :: value in results ==> value.name !in visible && value.name !in definitions
    ensures DefineResults(results, visible, definitions).value == definitions + NameSet(results)
    decreases |results|
  {
    if results == [] {
      assert NameSet(results) == {};
    } else {
      DefinedAreFresh(results[1..], visible, definitions + {results[0].name});
      NameSetSplits(results);
    }
  }

  /** What a verified sequence defines was not visible before it. */
  lemma {:induction false} VerifiedAreFresh(ops: seq<Operation>, s: Scope, slots: Option<seq<seq<Type>>>, p: Operation)
    requires VerifyOperations(ops, s, slots).Success? && p in ops && p.results != []
    ensures p.results[0].name !in s.visible
    decreases |ops|
  {
    Accepted(ops[0], |ops| == 1, s, slots);
    DefinedAreFresh(ops[0].results, s.visible, s.definitions);
    if p == ops[0] {
      assert p.results[0] in p.results;
    } else {
      hide VerifyOperation;
      VerifiedAreFresh(ops[1..], VerifyOperation(ops[0], |ops| == 1, s, slots).value, slots, p);
    }
  }

  /** The operations already verified have visible operands. */
  ghost predicate Visited(done: seq<Operation>, s: Scope) {
    forall p, name :: p in done && name in p.operands ==> name in s.visible
  }

  lemma {:induction false} ProducerReady(done: seq<Operation>, ops: seq<Operation>, s: Scope,
          slots: Option<seq<seq<Type>>>, p: Operation)
    requires Visited(done, s) && VerifyOperations(ops, s, slots).Success? && p in done + ops
    requires p.results != [] && p.results[0].name in s.visible
    ensures forall name :: name in p.operands ==> name in s.visible
  {
    hide VerifyOperations;
    if p in ops {
      VerifiedAreFresh(ops, s, slots, p);
    }
  }

  /** The producer that a store consumes, if any, has visible operands. */
  ghost predicate Seen(op: Operation, all: seq<Operation>, s: Scope) {
    op.opcode.Store? && |op.operands| >= 2 ==>
      && (TransposeOf(all, op.operands[0]).Some? ==>
            forall name :: name in TransposeOf(all, op.operands[0]).value.operands ==> name in s.visible)
      && (ProductOf(all, op.operands[0]).Some? ==>
            forall name :: name in ProductOf(all, op.operands[0]).value.operands ==> name in s.visible)
  }

  lemma {:induction false} StoresSee(done: seq<Operation>, ops: seq<Operation>, all: seq<Operation>, s: Scope,
          slots: Option<seq<seq<Type>>>)
    requires Visited(done, s) && VerifyOperations(ops, s, slots).Success? && ops != [] && all == done + ops
    ensures Seen(ops[0], all, s)
  {
    var op := ops[0];
    Accepted(op, |ops| == 1, s, slots);
    hide VerifyOperation, VerifyOperations, TransposeOf, ProductOf;
    if op.opcode.Store? && |op.operands| >= 2 {
      var name := op.operands[0];
      TransposeFound(all, name);
      ProductFound(all, name);
      if TransposeOf(all, name).Some? {
        ProducerReady(done, ops, s, slots, TransposeOf(all, name).value);
      }
      if ProductOf(all, name).Some? {
        ProducerReady(done, ops, s, slots, ProductOf(all, name).value);
      }
    }
  }

  // ----- one operation of each kind -----

  lemma {:induction false} DropKeeps(op: Operation, all: seq<Operation>, last: bool, s: Scope, u: Scope,
          slots: Option<seq<seq<Type>>>, gone: set<string>, base: set<string>, existing: set<string>)
    requires VerifyOperation(op, last, s, slots).Success? && Dropped(op, all) && Tracks(s, u, gone, base, existing)
    requires Entered(s, base)
    requires NameSet(op.results) <= gone && NameSet(op.results) <= base
    ensures Tracks(VerifyOperation(op, last, s, slots).value, u, gone, base, existing)
    ensures Entered(VerifyOperation(op, last, s, slots).value, base)
  {
    Accepted(op, last, s, slots);
    DefinedAreFresh(op.results, s.visible, s.definitions);
    hide VerifyOperation, DefineResults;
  }

  /** Names chosen against `existing` are new in the rewritten scope, and are not the
      hard-coded ones. */
  lemma {:induction false} ChosenAreNew(names: seq<string>, s: Scope, u: Scope, gone: set<string>, base: set<string>,
          existing: set<string>, i: nat)
    requires Tracks(s, u, gone, base, existing) && Entered(s, base) && i < |names| && names[i] !in existing
    requires IsTemp(names[i])
    ensures NewIn(u, names[i]) && names[i] != KK && names[i] != ACC_ITER
  {
    var m: nat :| names[i] == TempName(m);
    HardCodedNamesAreNotTemps(m);
  }

  lemma {:induction false} HardCodedStayFree(name: string, s: Scope, u: Scope, gone: set<string>, base: set<string>,
          existing: set<string>)
    requires Tracks(s, u, gone, base, existing) && NewIn(s, name) && (name == KK || name == ACC_ITER)
    ensures NewIn(u, name)
  {
    if name in existing - base {
      var m: nat :| name == TempName(m);
      HardCodedNamesAreNotTemps(m);
    }
  }

  lemma {:induction false} GainsTracks(s: Scope, u: Scope, w: Scope, chosen: set<string>, gone: set<string>,
          base: set<string>, existing: set<string>)
    requires Tracks(s, u, gone, base, existing) && Gains(u, w, chosen) && Generated(chosen) && chosen !! existing
    ensures Tracks(s, w, gone, base, existing + chosen)
  {
  }

  // ----- a consumed transpose -----

  /** Three scalar operations and a store of one lane. */
  lemma {:induction false} TransposeLanesVerify(source: string, output: string, names: seq<string>, scalar: Type,
          store: Operation, s: Scope, slots: Option<seq<seq<Type>>>)
    returns (u: Scope)
    requires |names| == 3 && NewNames(s, names, 0, 3) && source in s.visible
    requires output in s.visible && s.visible[output].kind in {PointerKind, TensorKind, ScalarKind}
    requires forall name :: name in store.attrs.indices ==> name in s.visible
    ensures VerifyOperations(TransposeLanes(source, output, names, scalar, store), s, slots) == Success(u)
    ensures Gains(s, u, Chosen(names, 3)) && NoYield(TransposeLanes(source, output, names, scalar, store))
  {
    hide VerifyOperation, VerifyOperations, Gains, Chosen;
    var ops := TransposeLanes(source, output, names, scalar, store);
    var s1 := Grown(s, names[0], INDEX);
    var s2 := Grown(s1, names[1], INDEX);
    u := Grown(s2, names[2], scalar);
    GrownKeeps(s, names, 0, 3, INDEX);
    GrownKeeps(s1, names, 1, 3, INDEX);
    ThreeGains(names, scalar, s, s1, s2, u);
    PlainVerifies(ops[0], false, s, slots);
    PlainVerifies(ops[1], false, s1, slots);
    PlainVerifies(ops[2], false, s2, slots);
    StoreVerifies(ops[3], true, u, slots);
    VerifyOne(ops[3], u, u, slots);
    ThreeThen(ops[0], ops[1], ops[2], ops[3], s, s1, s2, u, slots);
    assert ops == [ops[0], ops[1], ops[2], ops[3]];
  }

  lemma {:induction false} ThreeGains(names: seq<string>, scalar: Type, s: Scope, s1: Scope, s2: Scope, u: Scope)
    requires |names| == 3 && NewNames(s, names, 0, 3)
    requires s1 == Grown(s, names[0], INDEX) && s2 == Grown(s1, names[1], INDEX) && u == Grown(s2, names[2], scalar)
    ensures Gains(s, u, Chosen(names, 3))
  {
    var chosen := Chosen(names, 3);
    assert names[0] in chosen && names[1] in chosen && names[2] in chosen;
    GainsThen(s, s1, s2, chosen, chosen, chosen);
    GainsThen(s, s2, u, chosen, chosen, chosen);
  }

  lemma {:induction false} ThreeThen(a: Operation, b: Operation, c: Operation, d: Operation, s: Scope, s1: Scope,
          s2: Scope, s3: Scope, slots: Option<seq<seq<Type>>>)
    requires !a.opcode.Yield? && !b.opcode.Yield? && !c.opcode.Yield?
    requires VerifyOperation(a, false, s, slots) == Success(s1) && VerifyOperation(b, false, s1, slots) == Success(s2)
    requires VerifyOperation(c, false, s2, slots) == Success(s3) && VerifyOperations([d], s3, slots) == Success(s3)
    ensures VerifyOperations([a, b, c, d], s, slots) == Success(s3)
  {
    hide VerifyOperation, VerifyOperations;
    VerifyCons(c, [d], s2, s3, slots, Success(s3));
    assert [c] + [d] == [c, d];
    VerifyCons(b, [c, d], s1, s2, slots, Success(s3));
    assert [b] + [c, d] == [b, c, d];
    VerifyCons(a, [b, c, d], s, s1, slots, Success(s3));
    assert [a] + [b, c, d] == [a, b, c, d];
  }

  /** What a consuming store needs of the rewritten scope. */
  ghost predicate StoreOperands(op: Operation, producer: Operation, u: Scope) {
    && |op.operands| >= 2 && op.operands[1] in u.visible
    && u.visible[op.operands[1]].kind in {PointerKind, TensorKind, ScalarKind}
    && (forall name :: name in op.attrs.indices ==> name in u.visible)
    && (forall name :: name in producer.operands ==> name in u.visible)
  }

  lemma {:induction false} OperandsStay(op: Operation, producer: Operation, last: bool, s: Scope, u: Scope,
          slots: Option<seq<seq<Type>>>, gone: set<string>, base: set<string>, existing: set<string>)
    requires VerifyOperation(op, last, s, slots).Success? && op.opcode.Store? && |op.operands| >= 2
    requires Tracks(s, u, gone, base, existing)
    requires Free(op.operands[1], gone) && AllFree(op.attrs.indices, gone) && AllFree(producer.operands, gone)
    requires forall name :: name in producer.operands ==> name in s.visible
    ensures StoreOperands(op, producer, u) && VerifyOperation(op, last, s, slots) == Success(s)
  {
    Accepted(op, last, s, slots);
    hide VerifyOperation;
    assert op.results == [] && op.regions == [];
    assert forall name :: name in op.attrs.indices ==> name in References(op);
    assert op.operands[1] in op.operands;
  }

  lemma {:induction false} FreshChosen(names: seq<string>, existing: set<string>, s: Scope, u: Scope, gone: set<string>,
          base: set<string>)
    requires Tracks(s, u, gone, base, existing) && Entered(s, base)
    requires forall i :: 0 <= i < |names| ==> names[i] !in existing && IsTemp(names[i])
    requires forall i, j :: 0 <= i < j < |names| ==> names[i] != names[j]
    ensures NewNames(u, names, 0, |names|) && Generated(Chosen(names, |names|)) && Chosen(names, |names|) !! existing
    ensures Chosen(names, |names|) == set name | name in names
    ensures forall i :: 0 <= i < |names| ==> names[i] != KK && names[i] != ACC_ITER
  {
    forall i | 0 <= i < |names|
      ensures NewIn(u, names[i]) && names[i] != KK && names[i] != ACC_ITER
    {
      ChosenAreNew(names, s, u, gone, base, existing, i);
    }
  }

  lemma {:induction false} TransposeStoreKeeps(transpose: Operation, op: Operation, last: bool, s: Scope, u: Scope,
          slots: Option<seq<seq<Type>>>, gone: set<string>, base: set<string>, existing: set<string>, counter: nat)
    returns (w: Scope)
    requires Tracks(s, u, gone, base, existing) && Entered(s, base) && IsTranspose(transpose) && op.opcode.Store?
    requires StoreOperands(op, transpose, u)
    ensures var (ops, more, _) := DecomposeTransposeStore(transpose, op, existing, counter);
            VerifyOperations(ops, u, slots) == Success(w) && NoYield(ops) && Tracks(s, w, gone, base, more)
                && existing <= more
  {
    var (names, next) := FreshNames(existing, counter, 3);
    FreshChosen(names, existing, s, u, gone, base);
    var scalar := Type(ScalarKind, [], transpose.results[0].typ.dtype);
    assert transpose.operands[0] in transpose.operands;
    hide VerifyOperations, TransposeLanes;
    w := TransposeLanesVerify(transpose.operands[0], op.operands[1], names, scalar, op, u, slots);
    GainsTracks(s, u, w, Chosen(names, 3), gone, base, existing);
  }

  // ----- a consumed product -----

  lemma {:induction false} ProductStoreKeeps(matmul: Operation, op: Operation, s: Scope, u: Scope,
          slots: Option<seq<seq<Type>>>, types: map<string, Type>, gone: set<string>, base: set<string>,
          existing: set<string>, counter: nat)
    returns (w: Scope)
    requires Tracks(s, u, gone, base, existing) && Entered(s, base) && IsProduct(matmul) && ClosesMatMul(matmul, op)
    requires StoreOperands(op, matmul, u)
    requires var extent := StoreExtent(matmul, types);
             extent.FromSymbol? ==>
                 extent.name in s.visible && Free(extent.name, gone) && IntegerBound(s.visible[extent.name])
    requires NewIn(s, KK) && NewIn(s, ACC_ITER)
    ensures var (ops, more, _) := DecomposeMatMulStore(matmul, op, types, existing, counter);
            VerifyOperations(ops, u, slots) == Success(w) && NoYield(ops) && Tracks(s, w, gone, base, more)
                && existing <= more
  {
    hide VerifyOperations, LaneOperations, StoreReady, NewNames, Chosen, NoYield, Generated, Gains;
    var lhs, rhs, output := matmul.operands[0], matmul.operands[1], op.operands[1];
    var extent := StoreExtent(matmul, types);
    var outputType := TypeOf(types, output).GetOr(matmul.results[0].typ);
    var t := LaneTypes(ScalarType(outputType), ScalarType(TypeOf(types, lhs).GetOr(outputType)),
        ScalarType(TypeOf(types, rhs).GetOr(outputType)));
    var (names, next) := FreshNames(existing, counter, Count(extent));
    var padded := if extent.FromSymbol? then names + [""] else names;
    FreshChosen(names, existing, s, u, gone, base);
    HardCodedStayFree(KK, s, u, gone, base, existing);
    HardCodedStayFree(ACC_ITER, s, u, gone, base, existing);
    assert lhs in matmul.operands && rhs in matmul.operands;
    PaddedReady(names, padded, lhs, rhs, output, extent, op, u);
    w := LaneOperationsVerify(padded, lhs, rhs, output, extent, op, t, u, slots);
    assert Chosen(padded, Count(extent)) == Chosen(names, |names|);
    GainsTracks(s, u, w, Chosen(names, |names|), gone, base, existing);
  }

  lemma {:induction false} PaddedReady(names: seq<string>, padded: seq<string>, lhs: string, rhs: string,
          output: string, extent: Extent, store: Operation, u: Scope)
    requires |names| == Count(extent) && padded == (if extent.FromSymbol? then names + [""] else names)
    requires NewNames(u, names, 0, |names|) && NewIn(u, KK) && NewIn(u, ACC_ITER)
    requires forall i :: 0 <= i < |names| ==> names[i] != KK && names[i] != ACC_ITER
    requires lhs in u.visible && rhs in u.visible && output in u.visible
    requires u.visible[output].kind in {PointerKind, TensorKind, ScalarKind}
    requires forall name :: name in store.attrs.indices ==> name in u.visible
    requires extent.FromSymbol? ==> extent.name in u.visible && IntegerBound(u.visible[extent.name])
    ensures StoreReady(padded, lhs, rhs, output, extent, store, u)
    ensures Chosen(padded, Count(extent)) == Chosen(names, |names|)
  {
    assert forall i :: 0 <= i < |names| ==> padded[i] == names[i];
    assert "" != KK && "" != ACC_ITER;
  }

  // ----- an operation that stays -----

  /** The regions of an operation verify side by side. */
  ghost predicate RegionsAgree(op: Operation, regions: seq<Block>, s: Scope, u: Scope, d: set<string>, e: set<string>,
          base: set<string>, existing: set<string>, more: set<string>)
    requires Contracted(op, s)
  {
    && VerifyRegions(op.regions, Around(op, s), Slots(op, s.visible)) == Success(d)
    && VerifyRegions(regions, Around(op, u), Slots(op, s.visible)) == Success(e)
    && e <= d + (more - base) && d <= base && existing <= more && Generated(more - base) && Alike(op.regions, regions)
  }

  lemma {:induction false} KeptVerifies(op: Operation, regions: seq<Block>, kept: Operation, last: bool, s: Scope,
          u: Scope, slots: Option<seq<seq<Type>>>, d: set<string>, e: set<string>, gone: set<string>, base: set<string>,
          existing: set<string>, more: set<string>)
    returns (w: Scope)
    requires Tracks(s, u, gone, base, existing) && Entered(s, base) && NameSet(op.results) <= base
    requires VerifyOperation(op, last, s, slots).Success? && AllFree(References(op), gone)
    requires kept == op.(regions := regions)
    requires Contracted(op, s) && RegionsAgree(op, regions, s, u, d, e, base, existing, more)
    ensures VerifyOperation(kept, true, u, slots) == Success(w) && (op.opcode.Yield? ==> last)
    ensures
      var next := VerifyOperation(op, last, s, slots).value;
      Tracks(next, w, gone, base, more) && Entered(next, base)
  {
    Accepted(op, last, s, slots);
    ResultsStay(op.results, s, u, gone, base, existing);
    OperandsAgree(op, s, u, gone, base, existing);
    hide VerifyOperation, VerifyRegions, DefineResults, MemoryContractHolds, RegionContractHolds, CheckYield, Slots,
        Alike;
    ContractStays(op, regions, kept, s.visible, u.visible);
    SlotsStay(op, regions, kept, s.visible, u.visible);
    MemoryStays(op, regions, kept, s.visible, u.visible);
    if op.opcode.Yield? {
      YieldChecks(op, regions, kept, last, s.visible, u.visible, slots);
    }
    assert References(kept) == References(op);
    Accepting(kept, true, u, slots, u.definitions + NameSet(op.results), e);
    w := Scope(Bind(u.visible, op.results), e);
    KeptTracks(op, s, u, w, d, e, gone, base, existing, more);
  }

  lemma {:induction false} OperandsAgree(op: Operation, s: Scope, u: Scope, gone: set<string>, base: set<string>,
          existing: set<string>)
    requires Tracks(s, u, gone, base, existing) && AllFree(References(op), gone)
    requires forall name :: name in References(op) ==> name in s.visible
    ensures SameOperands(op, s.visible, u.visible) && forall name :: name in References(op) ==> name in u.visible
  {
    assert forall name :: name in op.operands ==> name in References(op);
  }

  lemma {:induction false} KeptTracks(op: Operation, s: Scope, u: Scope, w: Scope, d: set<string>, e: set<string>,
          gone: set<string>, base: set<string>, existing: set<string>, more: set<string>)
    requires Tracks(s, u, gone, base, existing) && Entered(s, base) && NameSet(op.results) <= base
    requires e <= d + (more - base) && d <= base && existing <= more && Generated(more - base)
    requires w == Scope(Bind(u.visible, op.results), e)
    ensures Tracks(Scope(Bind(s.visible, op.results), d), w, gone, base, more)
    ensures Entered(Scope(Bind(s.visible, op.results), d), base)
  {
    BindTracks(s, u, Scope(Bind(s.visible, op.results), d), w, op.results, gone, base, existing, more);
  }

  /** The results of an operation leave both scopes alike for its regions. */
  lemma {:induction false} AroundTracks(op: Operation, s: Scope, u: Scope, gone: set<string>, base: set<string>,
          existing: set<string>)
    requires Tracks(s, u, gone, base, existing) && Entered(s, base) && NameSet(op.results) <= base
    ensures Tracks(Around(op, s), Around(op, u), gone, base, existing) && Entered(Around(op, s), base)
  {
  }

  // ----- the pass -----

  lemma {:induction false} OperationKeeps(op: Operation, all: seq<Operation>, types: map<string, Type>, last: bool,
          s: Scope, u: Scope, slots: Option<seq<seq<Type>>>, taken: Fresh, gone: set<string>, base: set<string>)
    returns (w: Scope)
    requires VerifyOperation(op, last, s, slots).Success? && CleanOperation(op, all, types, s, gone, true)
    requires Seen(op, all, s)
    requires NameSet(op.results) <= base && KnownRegions(op.regions, base)
    requires (Dropped(op, all) ==> NameSet(op.results) <= gone)
    requires Tracks(s, u, gone, base, taken.existing) && Entered(s, base)
    ensures var (ops, next) := DecomposeOperation(op, all, types, taken);
            && VerifyOperations(ops, u, slots) == Success(w) && (NoYield(ops) || last)
            && taken.existing <= next.existing
            && Tracks(VerifyOperation(op, last, s, slots).value, w, gone, base, next.existing)
    ensures Entered(VerifyOperation(op, last, s, slots).value, base)
    decreases op, 1
  {
    hide Tracks, Entered, Dropped, AllFree;
    if Dropped(op, all) {
      hide VerifyOperation;
      w := u;
      DropKeeps(op, all, last, s, u, slots, gone, base, taken.existing);
    } else if op.opcode.Store? && |op.operands| >= 2 && TransposeOf(all, op.operands[0]).Some? {
      TransposeFound(all, op.operands[0]);
      hide VerifyOperation, VerifyOperations, TransposeOf, ProductOf, DecomposeTransposeStore, DecomposeMatMulStore,
          StoreOperands, NoYield;
      OperandsStay(op, TransposeOf(all, op.operands[0]).value, last, s, u, slots, gone, base, taken.existing);
      w := TransposeStoreKeeps(TransposeOf(all, op.operands[0]).value, op, last, s, u, slots, gone, base,
          taken.existing, taken.counter);
    } else if op.opcode.Store? && |op.operands| >= 2 && ProductOf(all, op.operands[0]).Some? {
      ProductFound(all, op.operands[0]);
      hide VerifyOperation, VerifyOperations, TransposeOf, ProductOf, DecomposeTransposeStore, DecomposeMatMulStore,
          StoreOperands, NoYield;
      OperandsStay(op, ProductOf(all, op.operands[0]).value, last, s, u, slots, gone, base, taken.existing);
      w := ProductStoreKeeps(ProductOf(all, op.operands[0]).value, op, s, u, slots, types, gone, base, taken.existing,
          taken.counter);
    } else {
      w := KeptKeeps(op, all, types, last, s, u, slots, taken, gone, base);
    }
  }

  ghost predicate Kept(op: Operation, all: seq<Operation>) {
    && !Dropped(op, all)
    && !(op.opcode.Store? && |op.operands| >= 2
        && (TransposeOf(all, op.operands[0]).Some? || ProductOf(all, op.operands[0]).Some?))
  }

  lemma {:induction false} KeptUnfolds(op: Operation, all: seq<Operation>, types: map<string, Type>, s: Scope,
          taken: Fresh, gone: set<string>, named: bool)
    requires Kept(op, all)
    ensures var (regions, existing) := DecomposeRegions(op.regions, types, taken.existing);
            DecomposeOperation(op, all, types, taken) == ([op.(regions := regions)], Fresh(existing, taken.counter))
    ensures Contracted(op, s) ==>
              (CleanOperation(op, all, types, s, gone, named) <==>
                AllFree(References(op), gone)
                && CleanRegions(op.regions, types, Around(op, s), Slots(op, s.visible), gone, named))
  {
    hide DecomposeRegions, CleanRegions, Slots, RegionContractHolds, TransposeOf, ProductOf;
  }

  lemma {:induction false} KeptKeeps(op: Operation, all: seq<Operation>, types: map<string, Type>, last: bool, s: Scope,
          u: Scope, slots: Option<seq<seq<Type>>>, taken: Fresh, gone: set<string>, base: set<string>)
    returns (w: Scope)
    requires VerifyOperation(op, last, s, slots).Success? && CleanOperation(op, all, types, s, gone, true)
    requires Kept(op, all)
    requires NameSet(op.results) <= base && KnownRegions(op.regions, base)
    requires Tracks(s, u, gone, base, taken.existing) && Entered(s, base)
    ensures var (ops, next) := DecomposeOperation(op, all, types, taken);
            && VerifyOperations(ops, u, slots) == Success(w) && (NoYield(ops) || last)
            && taken.existing <= next.existing
            && Tracks(VerifyOperation(op, last, s, slots).value, w, gone, base, next.existing)
    ensures Entered(VerifyOperation(op, last, s, slots).value, base)
    decreases op, 0
  {
    Accepted(op, last, s, slots);
    DefinedAreFresh(op.results, s.visible, s.definitions);
    hide VerifyOperation, VerifyOperations, VerifyRegions, DefineResults, RegionContractHolds, MemoryContractHolds,
        CheckYield, Slots, Tracks, Entered,
         CleanOperation, CleanRegions, DecomposeOperation, DecomposeRegions, Kept, References, Alike, KnownRegions,
             Generated;
    KeptUnfolds(op, all, types, s, taken, gone, true);
    AroundTracks(op, s, u, gone, base, taken.existing);
    var (regions, more) := DecomposeRegions(op.regions, types, taken.existing);
    var e := RegionsKeep(op.regions, types, Around(op, s), Around(op, u), Slots(op, s.visible), taken.existing, gone,
        base);
    RegionsStay(op.regions, types, taken.existing);
    var kept := op.(regions := regions);
    var d := VerifyRegions(op.regions, Around(op, s), Slots(op, s.visible)).value;
    w := KeptVerifies(op, regions, kept, last, s, u, slots, d, e, gone, base, taken.existing, more);
    VerifyOne(kept, u, w, slots);
  }

  lemma {:induction false} RegionsKeep(regions: seq<Block>, types: map<string, Type>, s: Scope, u: Scope,
          slots: seq<seq<Type>>, existing: set<string>, gone: set<string>, base: set<string>)
    returns (e: set<string>)
    requires VerifyRegions(regions, s, slots).Success? && CleanRegions(regions, types, s, slots, gone, true)
    requires KnownRegions(regions, base)
    requires Tracks(s, u, gone, base, existing) && Entered(s, base)
    ensures var (rewritten, more) := DecomposeRegions(regions, types, existing);
            && VerifyRegions(rewritten, u, slots) == Success(e) && existing <= more && Generated(more - base)
            && e <= VerifyRegions(regions, s, slots).value + (more - base)
    ensures VerifyRegions(regions, s, slots).value <= base
    decreases regions, 0
  {
    if regions == [] {
      e := u.definitions;
    } else {
      hide VerifyBlock, CleanBlock, KnownBlock, DecomposeBlock, Generated;
      var (first, next) := DecomposeBlock(regions[0], types, existing);
      var w := BlockKeeps(regions[0], types, s, u, Some(slots), existing, gone, base);
      var inner := VerifyBlock(regions[0], s, Some(slots)).value;
      var s1, u1 := Scope(s.visible, inner.definitions), Scope(u.visible, w.definitions);
      e := RegionsKeep(regions[1..], types, s1, u1, slots, next, gone, base);
      var (rest, more) := DecomposeRegions(regions[1..], types, next);
      var rewritten := [first] + rest;
      assert rewritten[1..] == rest && rewritten[0] == first;
    }
  }

  lemma {:induction false} BlockKeeps(block: Block, types: map<string, Type>, s: Scope, u: Scope,
          slots: Option<seq<seq<Type>>>, existing: set<string>, gone: set<string>, base: set<string>)
    returns (w: Scope)
    requires VerifyBlock(block, s, slots).Success? && CleanBlock(block, types, s, slots, gone, true)
    requires KnownBlock(block, base)
    requires Tracks(s, u, gone, base, existing) && Entered(s, base)
    ensures var (rewritten, more) := DecomposeBlock(block, types, existing);
            && VerifyBlock(rewritten, u, slots) == Success(w) && existing <= more
            && Tracks(VerifyBlock(block, s, slots).value, w, BlockGone(block, gone), base, more)
    ensures Entered(VerifyBlock(block, s, slots).value, base)
    decreases block, 0
  {
    hide VerifyOperations, BindArguments, CleanOperations, KnownOperations, DecomposeOperations, DroppedNames,
        AddResults, AddTypes;
    ArgumentsStay(block.args, s, u, gone, base, existing);
    var s1, u1 := BindArguments(block.args, s).value, BindArguments(block.args, u).value;
    var ops, inner := block.operations, BlockGone(block, gone);
    var taken := Fresh(existing, FreshIndex(existing, 0));
    assert Tracks(s1, u1, inner, base, existing);
    var v := OperationsKeep([], ops, ops, BlockTypes(block, types), s1, u1, slots, taken, inner, base);
    w := Scope(v.visible, v.definitions - NameSet(block.args));
  }

  lemma {:induction false} OperationsKeep(done: seq<Operation>, ops: seq<Operation>, all: seq<Operation>,
          types: map<string, Type>, s: Scope, u: Scope, slots: Option<seq<seq<Type>>>, taken: Fresh, gone: set<string>,
          base: set<string>)
    returns (w: Scope)
    requires VerifyOperations(ops, s, slots).Success? && CleanOperations(ops, all, types, s, slots, gone, true)
    requires KnownOperations(ops, base)
    requires all == done + ops && Visited(done, s) && DroppedNames(all) <= gone
    requires Tracks(s, u, gone, base, taken.existing) && Entered(s, base)
    ensures var (rewritten, next) := DecomposeOperations(ops, all, types, taken);
            && VerifyOperations(rewritten, u, slots) == Success(w) && taken.existing <= next.existing
            && Tracks(VerifyOperations(ops, s, slots).value, w, gone, base, next.existing)
    ensures Entered(VerifyOperations(ops, s, slots).value, base)
    decreases ops, 0
  {
    if ops == [] {
      w := u;
    } else {
      var op, last := ops[0], |ops| == 1;
      StoresSee(done, ops, all, s, slots);
      VisitedStep(done, ops, all, s, slots, gone);
      hide VerifyOperation, CleanOperation, DecomposeOperation, Tracks, Entered, Dropped, DroppedNames, Seen,
          KnownRegions, Visited, NoYield;
      var (first, next) := DecomposeOperation(op, all, types, taken);
      var v := OperationKeeps(op, all, types, last, s, u, slots, taken, gone, base);
      var t := VerifyOperation(op, last, s, slots).value;
      w := OperationsKeep(done + [op], ops[1..], all, types, t, v, slots, next, gone, base);
      var (rest, final) := DecomposeOperations(ops[1..], all, types, next);
      Joins(first, rest, last, u, v, slots);
    }
  }

  lemma {:induction false} VisitedStep(done: seq<Operation>, ops: seq<Operation>, all: seq<Operation>, s: Scope,
          slots: Option<seq<seq<Type>>>, gone: set<string>)
    requires VerifyOperations(ops, s, slots).Success? && ops != [] && all == done + ops && Visited(done, s)
    requires DroppedNames(all) <= gone
    ensures VerifyOperation(ops[0], |ops| == 1, s, slots).Success?
    ensures all == done + [ops[0]] + ops[1..]
    ensures Visited(done + [ops[0]], VerifyOperation(ops[0], |ops| == 1, s, slots).value)
    ensures Dropped(ops[0], all) ==> NameSet(ops[0].results) <= gone
  {
    hide VerifyOperation, DefineResults, RegionContractHolds, MemoryContractHolds, VerifyRegions, CheckYield, Slots,
        Bind, Dropped;
    Accepted(ops[0], |ops| == 1, s, slots);
    if Dropped(ops[0], all) {
      DroppedAreGone(ops[0], all, gone);
    }
  }

  lemma {:induction false} DroppedAreGone(op: Operation, all: seq<Operation>, gone: set<string>)
    requires op in all && DroppedNames(all) <= gone && Dropped(op, all)
    ensures NameSet(op.results) <= gone
  {
    hide Dropped;
    assert forall name :: name in NameSet(op.results) ==> name in DroppedNames(all);
  }

  lemma {:induction false} Joins(first: seq<Operation>, rest: seq<Operation>, last: bool, u: Scope, v: Scope,
          slots: Option<seq<seq<Type>>>)
    requires VerifyOperations(first, u, slots) == Success(v) && (NoYield(first) || last) && (last ==> rest == [])
    ensures VerifyOperations(first + rest, u, slots) == VerifyOperations(rest, v, slots)
  {
    if NoYield(first) {
      VerifyThen(first, rest, u, v, slots);
    } else {
      assert first + rest == first;
    }
  }

  // ----- whole programs -----

  lemma {:induction false} TypesAdded(types: map<string, Type>, values: seq<Value>)
    ensures AddTypes(types, values).Keys == types.Keys + NameSet(values)
    decreases |values|
  {
    if values == [] {
      assert NameSet(values) == {};
    } else {
      NameSetSplits(values);
      TypesAdded(types[values[0].name := values[0].typ], values[1..]);
    }
  }

  /** The names with a type are the names the pass must avoid: every argument and result. */
  lemma {:induction false} BlockKnown(block: Block, types: map<string, Type>, base: set<string>)
    requires TypesInBlock(block, types).Keys <= base
    ensures KnownBlock(block, base) && types.Keys <= base
    decreases block, 0
  {
    hide TypesInOperations, KnownOperations;
    TypesAdded(types, block.args);
    OperationsKnown(block.operations, AddTypes(types, block.args), base);
  }

  lemma {:induction false} OperationsKnown(ops: seq<Operation>, types: map<string, Type>, base: set<string>)
    requires TypesInOperations(ops, types).Keys <= base
    ensures KnownOperations(ops, base) && types.Keys <= base
    decreases ops, 0
  {
    hide TypesInRegions, KnownRegions;
    if ops != [] {
      TypesAdded(types, ops[0].results);
      var added := AddTypes(types, ops[0].results);
      OperationsKnown(ops[1..], TypesInRegions(ops[0].regions, added), base);
      RegionsKnown(ops[0].regions, added, base);
    }
  }

  lemma {:induction false} RegionsKnown(regions: seq<Block>, types: map<string, Type>, base: set<string>)
    requires TypesInRegions(regions, types).Keys <= base
    ensures KnownRegions(regions, base) && types.Keys <= base
    decreases regions, 0
  {
    hide TypesInBlock, KnownBlock;
    if regions != [] {
      RegionsKnown(regions[1..], TypesInBlock(regions[0], types), base);
      BlockKnown(regions[0], types, base);
    }
  }

  /** What a caller must guarantee: the pass removes nothing that something else uses, an
      output of the program included, and no shape symbol has the form of a temporary. */
  ghost predicate NearlyClean(program: Program, named: bool)
    requires |program.blocks| == 1
  {
    && CleanBlock(program.blocks[0], ProgramTypes(program), EntryScope(program), None, {}, named)
    && (forall output :: output in program.outputs ==> output.name !in BlockGone(program.blocks[0], {}))
    && (forall name :: name in ProgramSymbols(program) ==> !IsTemp(name))
  }

  /** And the names of the decomposed loop are new wherever a product is stored. */
  ghost predicate CleanProgram(program: Program)
    requires |program.blocks| == 1
  {
    NearlyClean(program, true)
  }

  lemma {:induction false} EntryTracks(program: Program)
    requires |program.blocks| == 1 && forall name :: name in ProgramSymbols(program) ==> !IsTemp(name)
    ensures var s, base := EntryScope(program), ProgramTypes(program).Keys;
            Tracks(s, s, {}, base, base) && Entered(s, base) && KnownBlock(program.blocks[0], base)
  {
    var block, base := program.blocks[0], ProgramTypes(program).Keys;
    var inputs := AddTypes(map[], program.inputs);
    BlockKnown(block, AddTypes(inputs, program.outputs), base);
    TypesAdded(map[], program.inputs);
    TypesAdded(inputs, program.outputs);
    assert base - base == {};
  }

  lemma {:induction false} OutputsStay(program: Program, rewritten: Program, outputs: seq<Value>, seen: set<string>,
          top: map<string, Type>, after: map<string, Type>)
    requires VerifyOutputs(program, outputs, seen, top).Success?
    requires rewritten.inputs == program.inputs && rewritten.outputs == program.outputs
    requires rewritten.symbols == program.symbols
    requires forall output :: output in outputs && output.name in top ==>
        output.name in after && after[output.name] == top[output.name]
    ensures VerifyOutputs(rewritten, outputs, seen, after).Success?
    decreases |outputs|
  {
    if outputs != [] {
      assert outputs[0] in outputs && ProgramSymbols(rewritten) == ProgramSymbols(program);
      OutputsStay(program, rewritten, outputs[1..], seen + {outputs[0].name}, top, after);
    }
  }

  /** The verifier accepts what the pass makes of an accepted program. Every name that the
      result defines and the program does not is a temporary the program had not used. */
  lemma {:induction false} DecompositionKeepsValid(program: Program)
    requires VerifyProgram(program).Success? && CleanProgram(program)
    ensures VerifyProgram(DecomposeProgram(program)).Success?
    ensures var defined := VerifyProgram(DecomposeProgram(program)).value.definitions;
            forall name :: name in defined && name !in VerifyProgram(program).value.definitions ==>
              IsTemp(name) && name !in ProgramTypes(program) && name !in ProgramSymbols(program)
  {
    hide VerifyBlock, DecomposeBlock, TypesInBlock, CleanBlock, KnownBlock, DroppedNames, VerifyOutputs, ProgramSymbols;
    var block, types, s := program.blocks[0], ProgramTypes(program), EntryScope(program);
    var rewritten := DecomposeProgram(program);
    EntryTracks(program);
    var w := BlockKeeps(block, types, s, s, None, types.Keys, {}, types.Keys);
    SameEntry(program, rewritten);
    var top := VerifyBlock(block, s, None).value;
    OutputsStay(program, rewritten, program.outputs, {}, top.visible, w.visible);
  }

  lemma {:induction false} SameEntry(program: Program, rewritten: Program)
    requires rewritten.inputs == program.inputs && rewritten.outputs == program.outputs
    requires rewritten.symbols == program.symbols
    ensures EntryScope(rewritten) == EntryScope(program)
  {
    assert ProgramSymbols(rewritten) == ProgramSymbols(program);
  }

  // ----- the hard-coded names must be free -----

  /** A sequence without regions only adds names. */
  lemma {:induction false} FlatGrows(ops: seq<Operation>, s: Scope, slots: Option<seq<seq<Type>>>)
    requires VerifyOperations(ops, s, slots).Success? && forall i :: 0 <= i < |ops| ==> ops[i].regions == []
    ensures
      var t := VerifyOperations(ops, s, slots).value;
      s.visible.Keys <= t.visible.Keys && s.definitions <= t.definitions
    decreases |ops|
  {
    if ops != [] {
      Accepted(ops[0], |ops| == 1, s, slots);
      DefinedAreFresh(ops[0].results, s.visible, s.definitions);
      hide VerifyOperation, DefineResults;
      FlatGrows(ops[1..], VerifyOperation(ops[0], |ops| == 1, s, slots).value, slots);
    }
  }

  lemma {:induction false} VerifiedPrefix(a: seq<Operation>, b: seq<Operation>, s: Scope, slots: Option<seq<seq<Type>>>)
    requires NoYield(a) && VerifyOperations(a + b, s, slots).Success?
    ensures VerifyOperations(a, s, slots).Success?
    ensures VerifyOperations(a + b, s, slots) == VerifyOperations(b, VerifyOperations(a, s, slots).value, slots)
    decreases |a|
  {
    hide VerifyOperation;
    if a == [] {
      assert a + b == b;
    } else {
      assert (a + b)[0] == a[0] && (a + b)[1..] == a[1..] + b;
      FlagIrrelevant(a[0], s, slots);
      VerifiedPrefix(a[1..], b, VerifyOperation(a[0], |a| == 1, s, slots).value, slots);
    }
  }

  /** Wherever the generated scalar code of a product is accepted, the names `%kk` and
      `%acc_iter` were free: the condition on them cannot be dropped. */
  lemma {:induction false} HardCodedNamesMustBeFree(names: seq<string>, lhs: string, rhs: string, output: string,
          extent: Extent, store: Operation, t: LaneTypes, s: Scope, slots: Option<seq<seq<Type>>>)
    requires |names| == 11
    requires VerifyOperations(LaneOperations(names, lhs, rhs, output, extent, store, t), s, slots).Success?
    ensures NewIn(s, KK) && NewIn(s, ACC_ITER)
  {
    var prefix, loop := LanePrefix(names, lhs, output, extent, t),
        LaneLoop(names, lhs, rhs, BoundName(names, extent), t);
    var rest := [loop, LaneStore(names[9], lhs, rhs, output, store)];
    PrefixHasShape(names, lhs, output, extent, t);
    hide LanePrefix, VerifyOperations;
    assert NoYield(prefix);
    VerifiedPrefix(prefix, rest, s, slots);
    FlatGrows(prefix, s, slots);
    LoopBinds(loop, rest, VerifyOperations(prefix, s, slots).value, slots);
  }

  lemma {:induction false} LoopBinds(loop: Operation, rest: seq<Operation>, s: Scope, slots: Option<seq<seq<Type>>>)
    requires |rest| == 2 && rest[0] == loop && VerifyOperations(rest, s, slots).Success? && |loop.regions| == 1
    requires |loop.regions[0].args| == 2
    requires loop.regions[0].args[0].name == KK && loop.regions[0].args[1].name == ACC_ITER
    ensures NewIn(s, KK) && NewIn(s, ACC_ITER)
  {
    Accepted(loop, false, s, slots);
    DefinedAreFresh(loop.results, s.visible, s.definitions);
    var defined := DefineResults(loop.results, s.visible, s.definitions).value;
    hide VerifyOperation, DefineResults, VerifyOperations, Slots, RegionContractHolds, MemoryContractHolds, Bind;
    var args, inner := loop.regions[0].args, Scope(s.visible, defined);
    assert BindArguments(args, inner).Success?;
    var next := Scope(inner.visible[KK := args[0].typ], inner.definitions + {KK});
    assert BindArguments(args[1..], next).Success? && args[1..][0] == args[1];
  }
}
