/** Exactly when the hard-coded names of the decomposed loop get in the way: an accepted program
    that is clean otherwise stays accepted if and only if they are new at every product store. */
module DecompositionExact {
  import opened Wrappers
  import opened Ssa
  import opened VerifierSteps
  import opened Scoping
  import opened Linalg
  import opened Decomposition
  import opened DecompositionValid
  import opened DecompositionKeeps

  // ----- results that stay -----

  const HARD := {KK, ACC_ITER}

  /** What the pass removes, nested blocks included. */
  ghost function Removed(ops: seq<Operation>, all: seq<Operation>): set<string>
    decreases ops, 0
  {
    if ops == [] then {}
    else
      (if Dropped(ops[0], all) then NameSet(ops[0].results) else {}) + RemovedInside(ops[0].regions)
      + Removed(ops[1..], all)
  }

  ghost function RemovedInside(regions: seq<Block>): set<string>
    decreases regions, 0
  {
    if regions == [] then {}
    else Removed(regions[0].operations, regions[0].operations) + RemovedInside(regions[1..])
  }

  lemma {:induction false} DroppedAreRemoved(ops: seq<Operation>, all: seq<Operation>, op: Operation)
    requires op in ops && Dropped(op, all)
    ensures NameSet(op.results) <= Removed(ops, all)
    decreases |ops|
  {
    hide Dropped;
    if op != ops[0] {
      DroppedAreRemoved(ops[1..], all, op);
    }
  }

  lemma {:induction false} AllRemoved(all: seq<Operation>)
    ensures DroppedNames(all) <= Removed(all, all)
  {
    hide Dropped;
    forall x | x in DroppedNames(all)
      ensures x in Removed(all, all)
    {
      var op :| op in all && Dropped(op, all) && x in NameSet(op.results);
      DroppedAreRemoved(all, all, op);
    }
  }

  ghost function DefinedIn(ops: seq<Operation>): set<string> {
    Elements(ResultNames(ops))
  }

  ghost function DefinedInside(regions: seq<Block>): set<string> {
    Elements(RegionResultNames(regions))
  }

  lemma {:induction false} DefinedConcat(a: seq<Operation>, b: seq<Operation>)
    ensures DefinedIn(a + b) == DefinedIn(a) + DefinedIn(b)
    decreases |a|
  {
    hide RegionResultNames;
    if a == [] {
      assert a + b == b;
    } else {
      assert (a + b)[0] == a[0] && (a + b)[1..] == a[1..] + b;
      DefinedConcat(a[1..], b);
      DefinedFirst(a);
      DefinedFirst(a + b);
    }
  }

  lemma {:induction false} DefinedFirst(ops: seq<Operation>)
    requires ops != []
    ensures DefinedIn(ops) == NameSet(ops[0].results) + DefinedInside(ops[0].regions) + DefinedIn(ops[1..])
  {
    NamesOf(ops[0].results);
  }

  /** The pass removes no other definition than it says. */
  lemma {:induction false} OperationRemains(op: Operation, all: seq<Operation>, types: map<string, Type>, taken: Fresh,
          visible: set<string>)
    requires ScopedOperation(op, visible)
    ensures
      var own := (if Dropped(op, all) then NameSet(op.results) else {}) + RemovedInside(op.regions);
      NameSet(op.results) + DefinedInside(op.regions) <= DefinedIn(DecomposeOperation(op, all, types, taken).0) + own
    decreases op, 1
  {
    if Dropped(op, all) {
      assert DefinedInside(op.regions) == {};
    } else if Kept(op, all) {
      KeptUnfolds(op, all, types, Scope(map[], {}), taken, {}, true);
      RegionsRemain(op.regions, types, taken.existing, visible);
      var (regions, existing) := DecomposeRegions(op.regions, types, taken.existing);
      hide DecomposeRegions, DecomposeOperation, Kept;
      var rewritten := [op.(regions := regions)];
      DefinedFirst(rewritten);
    } else {
      assert op.results == [] && op.regions == [];
      assert NameSet(op.results) == {} && DefinedInside(op.regions) == {};
    }
  }

  lemma {:induction false} RegionsRemain(regions: seq<Block>, types: map<string, Type>, existing: set<string>,
          visible: set<string>)
    requires forall region :: region in regions ==> ScopedBlock(region, visible)
    ensures DefinedInside(regions) <=
        DefinedInside(DecomposeRegions(regions, types, existing).0) + RemovedInside(regions)
    decreases regions, 0
  {
    if regions != [] {
      var block := regions[0];
      var (first, next) := DecomposeBlock(block, types, existing);
      var (rest, last) := DecomposeRegions(regions[1..], types, next);
      assert ScopedBlock(block, visible);
      OperationsRemain(block.operations, block.operations, BlockTypes(block, types),
          Fresh(existing, FreshIndex(existing, 0)), visible + NameSet(block.args));
      RegionsRemain(regions[1..], types, next, visible);
      hide DecomposeOperations, Removed, ResultNames, DecomposeRegions, FreshIndex;
      InsideFirst(regions);
      assert ([first] + rest)[1..] == rest;
      InsideFirst([first] + rest);
      assert DecomposeRegions(regions, types, existing).0 == [first] + rest by {
        RegionsUnfold(regions, types, existing);
      }
    }
  }

  lemma {:induction false} RegionsUnfold(regions: seq<Block>, types: map<string, Type>, existing: set<string>)
    requires regions != []
    ensures var (first, next) := DecomposeBlock(regions[0], types, existing);
            DecomposeRegions(regions, types, existing).0 == [first] + DecomposeRegions(regions[1..], types, next).0
  {
    hide DecomposeBlock;
  }

  lemma {:induction false} InsideFirst(regions: seq<Block>)
    requires regions != []
    ensures DefinedInside(regions) == DefinedIn(regions[0].operations) + DefinedInside(regions[1..])
  {
    hide ResultNames;
  }

  lemma {:induction false} OperationsRemain(ops: seq<Operation>, all: seq<Operation>, types: map<string, Type>,
          taken: Fresh, visible: set<string>)
    requires ScopedOperations(ops, visible)
    ensures DefinedIn(ops) <= DefinedIn(DecomposeOperations(ops, all, types, taken).0) + Removed(ops, all)
    decreases ops, 0
  {
    if ops != [] {
      hide Dropped, DecomposeOperation, ScopedOperation, RemovedInside, DefinedIn, DefinedInside;
      var (first, next) := DecomposeOperation(ops[0], all, types, taken);
      var rest := DecomposeOperations(ops[1..], all, types, next).0;
      OperationRemains(ops[0], all, types, taken, visible);
      OperationsRemain(ops[1..], all, types, next, visible + NameSet(ops[0].results));
      DefinedFirst(ops);
      DefinedConcat(first, rest);
    }
  }

  // ----- the hard-coded names in both scopes -----

  /** A hard-coded name that is taken in the original is taken in the rewritten program. */
  ghost predicate Taken(s: Scope, u: Scope) {
    forall x :: x in HARD && !NewIn(s, x) ==> !NewIn(u, x)
  }

  lemma {:induction false} TakenThen(s: Scope, u: Scope, t: Scope, v: Scope, more: set<string>, kept: set<string>)
    requires Taken(s, u) && u.visible.Keys <= v.visible.Keys && u.definitions <= v.definitions
    requires t.visible.Keys <= s.visible.Keys + more && t.definitions <= s.definitions + more
    requires kept <= v.definitions && more * HARD <= kept
    ensures Taken(t, v)
  {
  }

  lemma {:induction false} GrowsBy(ops: seq<Operation>, u: Scope, slots: Option<seq<seq<Type>>>)
    requires VerifyOperations(ops, u, slots).Success?
    ensures
      var v := VerifyOperations(ops, u, slots).value;
      u.visible.Keys <= v.visible.Keys && v.definitions == u.definitions + DefinedIn(ops)
    decreases |ops|
  {
    OperationsScoped(ops, u, slots);
    VisibleKept(ops, u, slots);
  }

  lemma {:induction false} VisibleKept(ops: seq<Operation>, u: Scope, slots: Option<seq<seq<Type>>>)
    requires VerifyOperations(ops, u, slots).Success?
    ensures u.visible.Keys <= VerifyOperations(ops, u, slots).value.visible.Keys
    decreases |ops|
  {
    if ops != [] {
      OperationScoped(ops[0], |ops| == 1, u, slots);
      hide VerifyOperation;
      VisibleKept(ops[1..], VerifyOperation(ops[0], |ops| == 1, u, slots).value, slots);
    }
  }

  // ----- the rewritten program is refused -----

  /** The scalar code of a product is refused where a hard-coded name is taken. */
  lemma {:induction false} ProductStoreFails(matmul: Operation, op: Operation, rest: seq<Operation>, s: Scope, u: Scope,
          slots: Option<seq<seq<Type>>>, types: map<string, Type>, existing: set<string>, counter: nat)
    requires ClosesMatMul(matmul, op) && Taken(s, u) && !(NewIn(s, KK) && NewIn(s, ACC_ITER))
    ensures VerifyOperations(DecomposeMatMulStore(matmul, op, types, existing, counter).0 + rest, u, slots).Failure?
  {
    var ops := DecomposeMatMulStore(matmul, op, types, existing, counter).0;
    LaneCode(matmul, op, types, existing, counter);
    hide VerifyOperations, DecomposeMatMulStore;
    if VerifyOperations(ops + rest, u, slots).Success? {
      VerifiedPrefix(ops, rest, u, slots);
      LaneCodeNeedsNames(matmul, op, types, existing, counter, u, slots);
      assert false;
    }
  }

  lemma {:induction false} LaneCode(matmul: Operation, op: Operation, types: map<string, Type>, existing: set<string>,
          counter: nat)
    requires ClosesMatMul(matmul, op)
    ensures NoYield(DecomposeMatMulStore(matmul, op, types, existing, counter).0)
  {
    hide FreshNames, LaneOperations;
    var lhs, rhs, output := matmul.operands[0], matmul.operands[1], op.operands[1];
    var extent := ExtentOf(matmul.attrs.k, TypeOf(types, lhs), TypeOf(types, rhs));
    var outputType := TypeOf(types, output).GetOr(matmul.results[0].typ);
    var t := LaneTypes(ScalarType(outputType), ScalarType(TypeOf(types, lhs).GetOr(outputType)),
        ScalarType(TypeOf(types, rhs).GetOr(outputType)));
    var names := FreshNames(existing, counter, if extent.FromSymbol? then 10 else 11).0;
    LaneCodeFlat(if extent.FromSymbol? then names + [""] else names, lhs, rhs, output, extent, op, t);
  }

  lemma {:induction false} LaneCodeFlat(names: seq<string>, lhs: string, rhs: string, output: string, extent: Extent,
          store: Operation, t: LaneTypes)
    requires |names| == 11
    ensures NoYield(LaneOperations(names, lhs, rhs, output, extent, store, t))
  {
    PrefixHasShape(names, lhs, output, extent, t);
    hide LanePrefix;
    assert !LaneLoop(names, lhs, rhs, BoundName(names, extent), t).opcode.Yield?;
  }

  lemma {:induction false} LaneCodeNeedsNames(matmul: Operation, op: Operation, types: map<string, Type>,
          existing: set<string>, counter: nat, u: Scope, slots: Option<seq<seq<Type>>>)
    requires ClosesMatMul(matmul, op)
    requires VerifyOperations(DecomposeMatMulStore(matmul, op, types, existing, counter).0, u, slots).Success?
    ensures NewIn(u, KK) && NewIn(u, ACC_ITER)
  {
    hide VerifyOperations, LaneOperations, FreshNames;
    var lhs, rhs, output := matmul.operands[0], matmul.operands[1], op.operands[1];
    var extent := ExtentOf(matmul.attrs.k, TypeOf(types, lhs), TypeOf(types, rhs));
    var outputType := TypeOf(types, output).GetOr(matmul.results[0].typ);
    var t := LaneTypes(ScalarType(outputType), ScalarType(TypeOf(types, lhs).GetOr(outputType)),
        ScalarType(TypeOf(types, rhs).GetOr(outputType)));
    var names := FreshNames(existing, counter, if extent.FromSymbol? then 10 else 11).0;
    HardCodedNamesMustBeFree(if extent.FromSymbol? then names + [""] else names, lhs, rhs, output, extent, op, t, u,
        slots);
  }

  /** What the induction carries from one operation to the next. */
  ghost predicate Paired(s: Scope, u: Scope, gone: set<string>, base: set<string>, existing: set<string>) {
    Tracks(s, u, gone, base, existing) && Entered(s, base) && Taken(s, u) && gone !! HARD
  }

  lemma {:induction false} OperationsFail(done: seq<Operation>, ops: seq<Operation>, all: seq<Operation>,
          types: map<string, Type>, s: Scope, u: Scope, slots: Option<seq<seq<Type>>>, taken: Fresh, gone: set<string>,
          base: set<string>)
    requires VerifyOperations(ops, s, slots).Success? && CleanOperations(ops, all, types, s, slots, gone, false)
    requires !CleanOperations(ops, all, types, s, slots, gone, true) && KnownOperations(ops, base)
    requires all == done + ops && Visited(done, s) && DroppedNames(all) <= gone
    requires Paired(s, u, gone, base, taken.existing) && Removed(ops, all) !! HARD
    ensures VerifyOperations(DecomposeOperations(ops, all, types, taken).0, u, slots).Failure?
    decreases ops, 0
  {
    var op, last := ops[0], |ops| == 1;
    StoresSee(done, ops, all, s, slots);
    VisitedStep(done, ops, all, s, slots, gone);
    OperationsScoped(ops, s, slots);
    hide VerifyOperation, CleanOperation, DecomposeOperation, Tracks, Entered, Dropped, DroppedNames, Seen,
        KnownRegions, Visited, NoYield, RemovedInside, Taken, ScopedOperation;
    var (first, next) := DecomposeOperation(op, all, types, taken);
    var rest := DecomposeOperations(ops[1..], all, types, next).0;
    var t := VerifyOperation(op, last, s, slots).value;
    if CleanOperation(op, all, types, s, gone, true) {
      var v := OperationKeeps(op, all, types, last, s, u, slots, taken, gone, base);
      StepPaired(op, all, types, last, s, u, t, v, slots, taken, gone);
      OperationsFail(done + [op], ops[1..], all, types, t, v, slots, next, gone, base);
      Joins(first, rest, last, u, v, slots);
    } else {
      OperationFails(op, all, types, last, s, u, slots, taken, gone, base, rest);
    }
  }

  lemma {:induction false} StepPaired(op: Operation, all: seq<Operation>, types: map<string, Type>, last: bool,
          s: Scope, u: Scope, t: Scope, v: Scope, slots: Option<seq<seq<Type>>>, taken: Fresh, gone: set<string>)
    requires VerifyOperation(op, last, s, slots) == Success(t) && Taken(s, u)
    requires VerifyOperations(DecomposeOperation(op, all, types, taken).0, u, slots) == Success(v)
    requires (if Dropped(op, all) then NameSet(op.results) else {}) !! HARD && RemovedInside(op.regions) !! HARD
    ensures Taken(t, v)
  {
    OperationScoped(op, last, s, slots);
    hide VerifyOperation, VerifyOperations, DecomposeOperation, Dropped, ScopedOperation, RemovedInside, ResultNames,
        RegionResultNames, Taken;
    OperationRemains(op, all, types, taken, s.visible.Keys);
    GrowsBy(DecomposeOperation(op, all, types, taken).0, u, slots);
    NamesOf(op.results);
    var more := NameSet(op.results) + DefinedInside(op.regions);
    TakenThen(s, u, t, v, more, DefinedIn(DecomposeOperation(op, all, types, taken).0));
  }

  lemma {:induction false} OperationFails(op: Operation, all: seq<Operation>, types: map<string, Type>, last: bool,
          s: Scope, u: Scope, slots: Option<seq<seq<Type>>>, taken: Fresh, gone: set<string>, base: set<string>,
          rest: seq<Operation>)
    requires VerifyOperation(op, last, s, slots).Success? && CleanOperation(op, all, types, s, gone, false)
    requires !CleanOperation(op, all, types, s, gone, true) && Seen(op, all, s)
    requires NameSet(op.results) <= base && KnownRegions(op.regions, base)
    requires Paired(s, u, gone, base, taken.existing) && RemovedInside(op.regions) !! HARD
    ensures VerifyOperations(DecomposeOperation(op, all, types, taken).0 + rest, u, slots).Failure?
    decreases op, 1
  {
    if Kept(op, all) {
      KeptFails(op, all, types, last, s, u, slots, taken, gone, base, rest);
    } else {
      TransposeFound(all, op.operands[0]);
      ProductFound(all, op.operands[0]);
      hide VerifyOperation, VerifyOperations, TransposeOf, ProductOf, DecomposeTransposeStore, DecomposeMatMulStore;
      ProductStoreFails(ProductOf(all, op.operands[0]).value, op, rest, s, u, slots, types, taken.existing,
          taken.counter);
    }
  }

  lemma {:induction false} KeptFails(op: Operation, all: seq<Operation>, types: map<string, Type>, last: bool, s: Scope,
          u: Scope, slots: Option<seq<seq<Type>>>, taken: Fresh, gone: set<string>, base: set<string>,
          rest: seq<Operation>)
    requires VerifyOperation(op, last, s, slots).Success? && CleanOperation(op, all, types, s, gone, false)
    requires !CleanOperation(op, all, types, s, gone, true) && Kept(op, all)
    requires NameSet(op.results) <= base && KnownRegions(op.regions, base)
    requires Paired(s, u, gone, base, taken.existing) && RemovedInside(op.regions) !! HARD
    ensures VerifyOperations(DecomposeOperation(op, all, types, taken).0 + rest, u, slots).Failure?
    decreases op, 0
  {
    Accepted(op, last, s, slots);
    DefinedAreFresh(op.results, s.visible, s.definitions);
    hide VerifyOperation, VerifyOperations, VerifyRegions, DefineResults, RegionContractHolds, MemoryContractHolds,
        CheckYield, Slots, Tracks, Entered, CleanOperation, CleanRegions, DecomposeOperation, DecomposeRegions, Kept,
        References, KnownRegions, RemovedInside, Taken;
    KeptUnfolds(op, all, types, s, taken, gone, false);
    KeptUnfolds(op, all, types, s, taken, gone, true);
    AroundTracks(op, s, u, gone, base, taken.existing);
    AroundTaken(op, s, u);
    var regions := DecomposeRegions(op.regions, types, taken.existing).0;
    RegionsFail(op.regions, types, Around(op, s), Around(op, u), Slots(op, s.visible), taken.existing, gone, base);
    KeptRefused(op, regions, last, s, u, slots, gone, base, taken.existing, types, rest);
  }

  lemma {:induction false} AroundTaken(op: Operation, s: Scope, u: Scope)
    requires Taken(s, u)
    ensures Taken(Around(op, s), Around(op, u))
  {
  }

  /** An operation whose rewritten regions are refused is refused itself. */
  lemma {:induction false} KeptRefused(op: Operation, regions: seq<Block>, last: bool, s: Scope, u: Scope,
          slots: Option<seq<seq<Type>>>, gone: set<string>, base: set<string>, existing: set<string>,
          types: map<string, Type>, rest: seq<Operation>)
    requires VerifyOperation(op, last, s, slots).Success? && AllFree(References(op), gone)
    requires Tracks(s, u, gone, base, existing) && Contracted(op, s)
    requires regions == DecomposeRegions(op.regions, types, existing).0
    requires VerifyRegions(regions, Around(op, u), Slots(op, s.visible)).Failure?
    ensures VerifyOperations([op.(regions := regions)] + rest, u, slots).Failure?
  {
    var kept := op.(regions := regions);
    var ops := [kept] + rest;
    assert ops[0] == kept;
    Accepted(op, last, s, slots);
    OperandsAgree(op, s, u, gone, base, existing);
    RegionsStay(op.regions, types, existing);
    hide VerifyOperation, VerifyRegions, DefineResults, MemoryContractHolds, RegionContractHolds, CheckYield, Slots,
        Alike, Tracks;
    ContractStays(op, regions, kept, s.visible, u.visible);
    SlotsStay(op, regions, kept, s.visible, u.visible);
    if VerifyOperation(kept, |ops| == 1, u, slots).Success? {
      Accepted(kept, |ops| == 1, u, slots);
      ResultsDefined(kept.results, u.visible, u.definitions);
      assert false;
    }
  }

  lemma {:induction false} RegionsFail(regions: seq<Block>, types: map<string, Type>, s: Scope, u: Scope,
          slots: seq<seq<Type>>, existing: set<string>, gone: set<string>, base: set<string>)
    requires VerifyRegions(regions, s, slots).Success? && CleanRegions(regions, types, s, slots, gone, false)
    requires !CleanRegions(regions, types, s, slots, gone, true) && KnownRegions(regions, base)
    requires Paired(s, u, gone, base, existing) && RemovedInside(regions) !! HARD
    ensures VerifyRegions(DecomposeRegions(regions, types, existing).0, u, slots).Failure?
    decreases regions, 0
  {
    hide VerifyBlock, CleanBlock, KnownBlock, DecomposeBlock, Generated, Tracks, Entered, Taken, Removed;
    var (first, next) := DecomposeBlock(regions[0], types, existing);
    var rest := DecomposeRegions(regions[1..], types, next).0;
    var rewritten := [first] + rest;
    assert rewritten[1..] == rest && rewritten[0] == first;
    assert DecomposeRegions(regions, types, existing).0 == rewritten;
    if CleanBlock(regions[0], types, s, Some(slots), gone, true) {
      var w := BlockKeeps(regions[0], types, s, u, Some(slots), existing, gone, base);
      var inner := VerifyBlock(regions[0], s, Some(slots)).value;
      var s1, u1 := Scope(s.visible, inner.definitions), Scope(u.visible, w.definitions);
      BlockPaired(regions[0], types, s, u, s1, u1, inner, w, Some(slots), existing, next, gone, base);
      RegionsFail(regions[1..], types, s1, u1, slots, next, gone, base);
    } else {
      BlockFails(regions[0], types, s, u, Some(slots), existing, gone, base);
    }
  }

  /** The scopes for the next region, after one that verified in both programs. */
  lemma {:induction false} BlockPaired(block: Block, types: map<string, Type>, s: Scope, u: Scope, s1: Scope, u1: Scope,
          inner: Scope, w: Scope, slots: Option<seq<seq<Type>>>, existing: set<string>, next: set<string>,
          gone: set<string>, base: set<string>)
    requires VerifyBlock(block, s, slots) == Success(inner) && Paired(s, u, gone, base, existing)
    requires DecomposeBlock(block, types, existing).1 == next && existing <= next
    requires VerifyBlock(DecomposeBlock(block, types, existing).0, u, slots) == Success(w)
    requires Tracks(inner, w, BlockGone(block, gone), base, next) && Entered(inner, base)
    requires s1 == Scope(s.visible, inner.definitions) && u1 == Scope(u.visible, w.definitions)
    requires Removed(block.operations, block.operations) !! HARD
    ensures Paired(s1, u1, gone, base, next)
  {
    var rewritten := DecomposeBlock(block, types, existing).0;
    var ops := block.operations;
    BlockScoped(block, s, slots);
    BlockScoped(rewritten, u, slots);
    OperationsRemain(ops, ops, BlockTypes(block, types), Fresh(existing, FreshIndex(existing, 0)),
        s.visible.Keys + NameSet(block.args));
    hide VerifyBlock, DecomposeOperations, ResultNames, Removed, FreshIndex, ScopedOperations;
    TakenThen(s, u, s1, u1, DefinedIn(ops), DefinedIn(rewritten.operations));
  }

  lemma {:induction false} BlockFails(block: Block, types: map<string, Type>, s: Scope, u: Scope,
          slots: Option<seq<seq<Type>>>, existing: set<string>, gone: set<string>, base: set<string>)
    requires VerifyBlock(block, s, slots).Success? && CleanBlock(block, types, s, slots, gone, false)
    requires !CleanBlock(block, types, s, slots, gone, true) && KnownBlock(block, base)
    requires Paired(s, u, gone, base, existing) && Removed(block.operations, block.operations) !! HARD
    ensures VerifyBlock(DecomposeBlock(block, types, existing).0, u, slots).Failure?
    decreases block, 0
  {
    hide VerifyOperations, BindArguments, CleanOperations, KnownOperations, DecomposeOperations, DroppedNames,
        AddResults, AddTypes, Removed, Taken;
    ArgumentsStay(block.args, s, u, gone, base, existing);
    var s1, u1 := BindArguments(block.args, s).value, BindArguments(block.args, u).value;
    var ops, inner := block.operations, BlockGone(block, gone);
    var taken := Fresh(existing, FreshIndex(existing, 0));
    AllRemoved(ops);
    ArgumentsTaken(block.args, s, u);
    assert Tracks(s1, u1, inner, base, existing);
    OperationsFail([], ops, ops, BlockTypes(block, types), s1, u1, slots, taken, inner, base);
  }

  lemma {:induction false} ArgumentsTaken(args: seq<Value>, s: Scope, u: Scope)
    requires BindArguments(args, s).Success? && BindArguments(args, u).Success? && Taken(s, u)
    ensures Taken(BindArguments(args, s).value, BindArguments(args, u).value)
  {
    ArgumentsBound(args, s);
    ArgumentsBound(args, u);
  }

  /** An accepted program in which nothing uses what the pass removes, and which removes no value
      of a hard-coded name, stays accepted exactly if those names are new at every product store. */
  lemma {:induction false} DecompositionValidExactly(program: Program)
    requires VerifyProgram(program).Success? && NearlyClean(program, false)
    requires Removed(program.blocks[0].operations, program.blocks[0].operations) !! HARD
    ensures VerifyProgram(DecomposeProgram(program)).Success? <==> CleanProgram(program)
  {
    if CleanProgram(program) {
      hide NearlyClean;
      DecompositionKeepsValid(program);
    } else {
      hide VerifyBlock, DecomposeBlock, TypesInBlock, CleanBlock, KnownBlock, DroppedNames, VerifyOutputs,
          ProgramSymbols, Removed;
      var block, types, s := program.blocks[0], ProgramTypes(program), EntryScope(program);
      EntryTracks(program);
      BlockFails(block, types, s, s, None, types.Keys, {}, types.Keys);
      SameEntry(program, DecomposeProgram(program));
    }
  }
}
