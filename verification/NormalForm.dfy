/** The form that the decomposition pass brings programs into: no block holds a product or a transpose
    together with a store of it. Every program is brought into it, and what has it stays as it is. */
module NormalForm {
  import opened Wrappers
  import opened Ssa
  import opened Linalg
  import opened Decomposition
  import opened DecompositionKeeps

  /** The operation defines `name` as the product of two operands or the transpose of one. */
  predicate Makes(op: Operation, name: string) {
    && |op.results| == 1 && op.results[0].name == name && |op.regions| == 0
    && ((op.opcode == MatMul && |op.operands| == 2) || (op.opcode == Transpose && |op.operands| == 1))
  }

  predicate Stores(op: Operation, name: string) {
    op.opcode == Store && |op.operands| > 0 && op.operands[0] == name
  }

  /** The block holds both. */
  ghost predicate Together(ops: seq<Operation>) {
    exists i, j, name :: 0 <= i < |ops| && 0 <= j < |ops| && Makes(ops[i], name) && Stores(ops[j], name)
  }

  ghost predicate NormalBlock(block: Block)
    decreases block, 0
  {
    !Together(block.operations) && NormalInside(block.operations)
  }

  ghost predicate NormalInside(ops: seq<Operation>)
    decreases ops, 0
  {
    ops == [] || (NormalRegions(ops[0].regions) && NormalInside(ops[1..]))
  }

  ghost predicate NormalRegions(regions: seq<Block>)
    decreases regions, 0
  {
    regions == [] || (NormalBlock(regions[0]) && NormalRegions(regions[1..]))
  }

  ghost predicate Normal(program: Program) {
    forall block :: block in program.blocks ==> NormalBlock(block)
  }

  // ----- what has the form stays -----

  lemma {:induction false} FoundAreMade(all: seq<Operation>, name: string)
    ensures TransposeOf(all, name).Some? || ProductOf(all, name).Some? <==>
        exists i :: 0 <= i < |all| && Makes(all[i], name)
    decreases |all|
  {
    if all != [] {
      FoundAreMade(all[1..], name);
      if i :| 0 <= i < |all| && Makes(all[i], name) {
        assert i > 0 ==> all[1..][i - 1] == all[i];
      }
      if i :| 0 <= i < |all[1..]| && Makes(all[1..][i], name) {
        assert all[i + 1] == all[1..][i];
      }
      assert Makes(all[0], name) <==> ((IsProduct(all[0]) || IsTranspose(all[0])) && all[0].results[0].name == name);
    }
  }

  lemma {:induction false} NothingFound(all: seq<Operation>, op: Operation)
    requires !Together(all) && op in all
    ensures !Dropped(op, all)
    ensures op.opcode.Store? && |op.operands| >= 2 ==>
        TransposeOf(all, op.operands[0]).None? && ProductOf(all, op.operands[0]).None?
  {
    var j :| 0 <= j < |all| && all[j] == op;
    if op.opcode.Store? && |op.operands| >= 2 {
      FoundAreMade(all, op.operands[0]);
      assert Stores(all[j], op.operands[0]);
    }
    if op.results != [] {
      var name := op.results[0].name;
      FoundAreMade(all, name);
      assert forall k :: 0 <= k < |all| && Consumes(all[k], name) ==> Stores(all[k], name);
    }
  }

  lemma {:induction false} OperationsStay(ops: seq<Operation>, all: seq<Operation>, types: map<string, Type>,
          taken: Fresh)
    requires !Together(all) && NormalInside(ops) && forall op :: op in ops ==> op in all
    ensures DecomposeOperations(ops, all, types, taken) == (ops, taken)
    decreases ops, 0
  {
    hide Together, Dropped, TransposeOf, ProductOf;
    if ops != [] {
      NothingFound(all, ops[0]);
      RegionsStayNormal(ops[0].regions, types, taken.existing);
      OperationsStay(ops[1..], all, types, taken);
      assert ops[0].(regions := ops[0].regions) == ops[0] && ops == [ops[0]] + ops[1..];
    }
  }

  lemma {:induction false} RegionsStayNormal(regions: seq<Block>, types: map<string, Type>, existing: set<string>)
    requires NormalRegions(regions)
    ensures DecomposeRegions(regions, types, existing) == (regions, existing)
    decreases regions, 0
  {
    hide NormalBlock, DecomposeBlock;
    if regions != [] {
      BlockStaysNormal(regions[0], types, existing);
      RegionsStayNormal(regions[1..], types, existing);
      assert regions == [regions[0]] + regions[1..];
    }
  }

  lemma {:induction false} BlockStaysNormal(block: Block, types: map<string, Type>, existing: set<string>)
    requires NormalBlock(block)
    ensures DecomposeBlock(block, types, existing) == (block, existing)
    decreases block, 0
  {
    var inside := AddResults(AddTypes(types, block.args), block.operations);
    OperationsStay(block.operations, block.operations, inside, Fresh(existing, FreshIndex(existing, 0)));
  }

  // ----- the result has the form -----

  /** An operation of the result: one of the block's that is not left out, but for its regions; or a
      new one that makes nothing and stores none of the names there were. */
  ghost predicate Piece(op: Operation, all: seq<Operation>, base: set<string>) {
    || (exists o :: o in all && !Dropped(o, all) && SameButRegions(op, o))
    || (!op.opcode.MatMul? && !op.opcode.Transpose?
        && (op.opcode.Store? ==> op.operands != [] && op.operands[0] !in base))
  }

  predicate SameButRegions(op: Operation, o: Operation) {
    op.opcode == o.opcode && op.operands == o.operands && op.results == o.results && |op.regions| == |o.regions|
  }

  ghost predicate Pieces(ops: seq<Operation>, all: seq<Operation>, base: set<string>) {
    NormalInside(ops) && forall op :: op in ops ==> Piece(op, all, base)
  }

  lemma {:induction false} InsideBoth(a: seq<Operation>, b: seq<Operation>)
    requires NormalInside(a) && NormalInside(b)
    ensures NormalInside(a + b)
    decreases |a|
  {
    if a == [] {
      assert a + b == b;
    } else {
      assert (a + b)[0] == a[0] && (a + b)[1..] == a[1..] + b;
      InsideBoth(a[1..], b);
    }
  }

  lemma {:induction false} PiecesBoth(a: seq<Operation>, b: seq<Operation>, all: seq<Operation>, base: set<string>)
    requires Pieces(a, all, base) && Pieces(b, all, base)
    ensures Pieces(a + b, all, base)
  {
    hide Piece;
    InsideBoth(a, b);
  }

  lemma {:induction false} PlainInside(ops: seq<Operation>)
    requires forall op :: op in ops ==> op.regions == []
    ensures NormalInside(ops)
    decreases |ops|
  {
    if ops != [] {
      assert ops[0] in ops && NormalRegions([]);
      PlainInside(ops[1..]);
    }
  }

  lemma {:induction false} TransposeLanesNew(source: string, output: string, names: seq<string>, scalar: Type,
          store: Operation, all: seq<Operation>, base: set<string>)
    requires |names| == 3 && names[2] !in base
    ensures Pieces(TransposeLanes(source, output, names, scalar, store), all, base)
  {
    var ops := TransposeLanes(source, output, names, scalar, store);
    PlainInside(ops);
  }

  lemma {:induction false} LanesNew(names: seq<string>, lhs: string, rhs: string, output: string, extent: Extent,
          store: Operation, t: LaneTypes, all: seq<Operation>, base: set<string>)
    requires |names| == 11 && names[9] !in base
    ensures Pieces(LaneOperations(names, lhs, rhs, output, extent, store, t), all, base)
  {
    var prefix := LanePrefix(names, lhs, output, extent, t);
    var loop := LaneLoop(names, lhs, rhs, BoundName(names, extent), t);
    var last := LaneStore(names[9], lhs, rhs, output, store);
    PrefixNew(names, lhs, output, extent, t, all, base);
    LoopInside(names, lhs, rhs, BoundName(names, extent), t);
    LoopAndStoreNew(loop, last, all, base);
    hide Pieces, LanePrefix, LaneLoop, LaneStore;
    PiecesBoth(prefix, [loop, last], all, base);
  }

  lemma {:induction false} PrefixNew(names: seq<string>, lhs: string, output: string, extent: Extent, t: LaneTypes,
          all: seq<Operation>, base: set<string>)
    requires |names| == 11
    ensures Pieces(LanePrefix(names, lhs, output, extent, t), all, base)
  {
    PlainInside(LanePrefix(names, lhs, output, extent, t));
  }

  lemma {:induction false} LoopAndStoreNew(loop: Operation, last: Operation, all: seq<Operation>, base: set<string>)
    requires loop.opcode.For? && NormalRegions(loop.regions)
    requires last.opcode.Store? && last.regions == [] && last.operands != [] && last.operands[0] !in base
    ensures Pieces([loop, last], all, base)
  {
    assert [loop, last][1..] == [last] && [last][1..] == [] && NormalRegions([]);
    assert NormalInside([last]);
  }

  lemma {:induction false} LoopInside(names: seq<string>, lhs: string, rhs: string, bound: string, t: LaneTypes)
    requires |names| == 11
    ensures NormalRegions(LaneLoop(names, lhs, rhs, bound, t).regions)
  {
    var regions := LaneLoop(names, lhs, rhs, bound, t).regions;
    PlainInside(LaneBody(names, lhs, rhs, t));
    assert regions[1..] == [];
  }

  ghost predicate Grows(taken: Fresh, next: Fresh) {
    taken.existing <= next.existing
  }

  lemma {:induction false} OperationsBecomeNormal(ops: seq<Operation>, all: seq<Operation>, types: map<string, Type>,
          taken: Fresh, base: set<string>)
    requires KnownOperations(ops, base) && base <= taken.existing && forall op :: op in ops ==> op in all
    ensures var (r, last) := DecomposeOperations(ops, all, types, taken);
        Pieces(r, all, base) && Grows(taken, last)
    decreases ops, 0
  {
    hide Pieces, Dropped, TransposeOf, ProductOf, DecomposeOperation;
    if ops == [] {
      NoPieces(all, base);
    } else {
      var (first, next) := DecomposeOperation(ops[0], all, types, taken);
      OperationBecomesNormal(ops[0], all, types, taken, base);
      OperationsBecomeNormal(ops[1..], all, types, next, base);
      PiecesBoth(first, DecomposeOperations(ops[1..], all, types, next).0, all, base);
    }
  }

  lemma {:induction false} NoPieces(all: seq<Operation>, base: set<string>)
    ensures Pieces([], all, base)
  {
  }

  lemma {:induction false} OperationBecomesNormal(op: Operation, all: seq<Operation>, types: map<string, Type>,
          taken: Fresh, base: set<string>)
    requires KnownRegions(op.regions, base) && base <= taken.existing && op in all
    ensures var (r, next) := DecomposeOperation(op, all, types, taken);
        Pieces(r, all, base) && Grows(taken, next)
    decreases op, 1
  {
    hide Pieces, Dropped, TransposeOf, ProductOf;
    var (r, next) := DecomposeOperation(op, all, types, taken);
    if Dropped(op, all) {
      NoPieces(all, base);
    } else if op.opcode.Store? && |op.operands| >= 2 && TransposeOf(all, op.operands[0]).Some? {
      TransposeFound(all, op.operands[0]);
      var transpose := TransposeOf(all, op.operands[0]).value;
      var (names, _) := FreshNames(taken.existing, taken.counter, 3);
      TransposeLanesNew(transpose.operands[0], op.operands[1], names,
          Type(ScalarKind, [], transpose.results[0].typ.dtype), op, all, base);
    } else if op.opcode.Store? && |op.operands| >= 2 && ProductOf(all, op.operands[0]).Some? {
      ProductFound(all, op.operands[0]);
      MatMulStoreNew(ProductOf(all, op.operands[0]).value, op, types, taken, all, base);
    } else {
      RegionsBecomeNormal(op.regions, types, taken.existing, base);
      KeptIsPiece(op, DecomposeRegions(op.regions, types, taken.existing).0, all, base);
    }
  }

  lemma {:induction false} MatMulStoreNew(matmul: Operation, store: Operation, types: map<string, Type>, taken: Fresh,
          all: seq<Operation>, base: set<string>)
    requires ClosesMatMul(matmul, store) && base <= taken.existing
    ensures var (ops, existing, _) := DecomposeMatMulStore(matmul, store, types, taken.existing, taken.counter);
        Pieces(ops, all, base) && taken.existing <= existing
  {
    hide Pieces, ExtentOf, FreshNames, LaneOperations, TempName;
    var lhs, rhs, output := matmul.operands[0], matmul.operands[1], store.operands[1];
    var extent := ExtentOf(matmul.attrs.k, TypeOf(types, lhs), TypeOf(types, rhs));
    var outputType := TypeOf(types, output).GetOr(matmul.results[0].typ);
    var t := LaneTypes(ScalarType(outputType), ScalarType(TypeOf(types, lhs).GetOr(outputType)),
        ScalarType(TypeOf(types, rhs).GetOr(outputType)));
    var (names, _) := FreshNames(taken.existing, taken.counter, if extent.FromSymbol? then 10 else 11);
    LanesNew(if extent.FromSymbol? then names + [""] else names, lhs, rhs, output, extent, store, t, all, base);
  }

  lemma {:induction false} KeptIsPiece(op: Operation, regions: seq<Block>, all: seq<Operation>, base: set<string>)
    requires op in all && !Dropped(op, all) && NormalRegions(regions) && |regions| == |op.regions|
    ensures Pieces([op.(regions := regions)], all, base)
  {
    hide Dropped;
    var kept := op.(regions := regions);
    assert [kept][1..] == [] && NormalInside([kept]);
    assert SameButRegions(kept, op);
  }

  lemma {:induction false} RegionsBecomeNormal(regions: seq<Block>, types: map<string, Type>, existing: set<string>,
          base: set<string>)
    requires KnownRegions(regions, base) && base <= existing
    ensures var (r, last) := DecomposeRegions(regions, types, existing);
        NormalRegions(r) && |r| == |regions| && existing <= last
    decreases regions, 0
  {
    hide KnownBlock, NormalBlock, DecomposeBlock;
    if regions != [] {
      var (first, next) := DecomposeBlock(regions[0], types, existing);
      BlockBecomesNormal(regions[0], types, existing, base);
      RegionsBecomeNormal(regions[1..], types, next, base);
      var rest := DecomposeRegions(regions[1..], types, next).0;
      assert ([first] + rest)[1..] == rest;
    }
  }

  lemma {:induction false} BlockBecomesNormal(block: Block, types: map<string, Type>, existing: set<string>,
          base: set<string>)
    requires KnownBlock(block, base) && base <= existing
    ensures var (r, last) := DecomposeBlock(block, types, existing); NormalBlock(r) && existing <= last
    decreases block, 0
  {
    hide DecomposeOperations;
    var inside := AddResults(AddTypes(types, block.args), block.operations);
    var taken := Fresh(existing, FreshIndex(existing, 0));
    OperationsBecomeNormal(block.operations, block.operations, inside, taken, base);
    NothingTogether(DecomposeOperations(block.operations, block.operations, inside, taken).0, block.operations, base);
  }

  lemma {:induction false} KnownResult(all: seq<Operation>, base: set<string>, o: Operation)
    requires KnownOperations(all, base) && o in all
    ensures NameSet(o.results) <= base
    decreases |all|
  {
    if o != all[0] {
      KnownResult(all[1..], base, o);
    }
  }

  lemma {:induction false} NothingTogether(r: seq<Operation>, all: seq<Operation>, base: set<string>)
    requires Pieces(r, all, base) && KnownOperations(all, base)
    ensures !Together(r)
  {
    hide Dropped;
    if i, j, name :| 0 <= i < |r| && 0 <= j < |r| && Makes(r[i], name) && Stores(r[j], name) {
      assert Piece(r[i], all, base) && Piece(r[j], all, base);
      var o :| o in all && !Dropped(o, all) && SameButRegions(r[i], o);
      KnownResult(all, base, o);
      assert o.results[0] in o.results;
      assert name in base;
      var p :| p in all && !Dropped(p, all) && SameButRegions(r[j], p);
      StoredIsDropped(all, o, p, name);
      assert false;
    }
  }

  lemma {:induction false} StoredIsDropped(all: seq<Operation>, o: Operation, p: Operation, name: string)
    requires o in all && p in all && Makes(o, name) && Stores(p, name)
    ensures Dropped(o, all)
  {
    var i :| 0 <= i < |all| && all[i] == o;
    var j :| 0 <= j < |all| && all[j] == p;
    assert Consumes(all[j], name);
    MadeIsFound(all, i, name);
  }

  lemma {:induction false} MadeIsFound(all: seq<Operation>, i: nat, name: string)
    requires i < |all| && Makes(all[i], name)
    ensures all[i].opcode.Transpose? ==> TransposeOf(all, name).Some?
    ensures all[i].opcode.MatMul? ==> ProductOf(all, name).Some?
    decreases |all|
  {
    if i > 0 {
      MadeIsFound(all[1..], i - 1, name);
    }
  }

  /** Whatever the program: after the pass no block, at any nesting, holds a product or a transpose
      together with a store of it; the pass changes nothing exactly in programs of that form, so that
      a second pass changes nothing. */
  lemma {:induction false} PassReachesNormalForm(program: Program)
    requires |program.blocks| == 1
    ensures Normal(DecomposeProgram(program))
    ensures DecomposeProgram(program) == program <==> Normal(program)
    ensures DecomposeProgram(DecomposeProgram(program)) == DecomposeProgram(program)
  {
    hide NormalBlock, DecomposeBlock;
    var types := ProgramTypes(program);
    BlockKnown(program.blocks[0], AddTypes(AddTypes(map[], program.inputs), program.outputs), types.Keys);
    BlockBecomesNormal(program.blocks[0], types, types.Keys, types.Keys);
    NormalStays(DecomposeProgram(program));
    if Normal(program) {
      NormalStays(program);
    }
  }

  lemma {:induction false} NormalStays(program: Program)
    requires |program.blocks| == 1 && Normal(program)
    ensures DecomposeProgram(program) == program
  {
    hide NormalBlock, DecomposeBlock;
    BlockStaysNormal(program.blocks[0], ProgramTypes(program), ProgramTypes(program).Keys);
  }
}
