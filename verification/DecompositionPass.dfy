/** The decomposition pass as it works: one set of taken names that every block adds to, a
    counter for each block and a list of operations that grows. */
module DecompositionPass {
  import opened Wrappers
  import opened Ssa
  import opened Linalg
  import opened Decomposition

  class Decomposer {
    var existing: set<string>

    constructor (existing: set<string>)
      ensures this.existing == existing
    {
      this.existing := existing;
    }

    /** `_next_temp_index`. */
    method NextTempIndex() returns (index: nat)
      ensures index == FreshIndex(existing, 0)
    {
      index := Unused(0);
    }

    method Unused(start: nat) returns (index: nat)
      ensures index == FreshIndex(existing, start)
    {
      index := start;
      while TempName(index) in existing
        invariant FreshIndex(existing, start) == FreshIndex(existing, index)
        decreases Ahead(existing, index)
      {
        AheadShrinks(existing, index);
        index := index + 1;
      }
    }

    /** `_fresh_value`. */
    method FreshValue(start: nat) returns (name: string, next: nat)
      modifies this
      ensures name == TempName(FreshIndex(old(existing), start)) && next == FreshIndex(old(existing), start) + 1
      ensures existing == old(existing) + {name}
    {
      var index := Unused(start);
      name, next := TempName(index), index + 1;
      existing := existing + {name};
    }

    /** The names of one decomposed store, drawn one after the other. */
    method FreshValues(start: nat, count: nat) returns (names: seq<string>, next: nat)
      modifies this
      ensures (names, next) == FreshNames(old(existing), start, count)
      ensures existing == old(existing) + (set name | name in names)
    {
      ghost var whole := FreshNames(existing, start, count);
      NoneDrawn(existing, start);
      hide TempName, FreshIndex, FreshNames;
      names, next := [], start;
      assert [] + whole.0 == whole.0;
      for n := 0 to count
        invariant existing == old(existing) + (set name | name in names)
        invariant whole ==
            (names + FreshNames(existing, next, count - n).0, FreshNames(existing, next, count - n).1)
      {
        DrawOne(existing, next, count - n);
        var name;
        name, next := FreshValue(next);
        ghost var rest := FreshNames(existing, next, count - n - 1).0;
        assert names + ([name] + rest) == names + [name] + rest;
        names := names + [name];
      }
      NoneDrawn(existing, next);
      assert names + [] == names;
    }

    /** `_decompose_matmul_store`. */
    method MatMulStore(matmul: Operation, store: Operation, types: map<string, Type>, counter: nat)
      returns (ops: seq<Operation>, next: nat)
      requires ClosesMatMul(matmul, store)
      modifies this
      ensures (ops, existing, next) == DecomposeMatMulStore(matmul, store, types, old(existing), counter)
    {
      var lhs, rhs, output := matmul.operands[0], matmul.operands[1], store.operands[1];
      var extent := ExtentOf(matmul.attrs.k, TypeOf(types, lhs), TypeOf(types, rhs));
      var outputType := TypeOf(types, output).GetOr(matmul.results[0].typ);
      var t := LaneTypes(ScalarType(outputType), ScalarType(TypeOf(types, lhs).GetOr(outputType)),
          ScalarType(TypeOf(types, rhs).GetOr(outputType)));
      var names;
      names, next := FreshValues(counter, if extent.FromSymbol? then 10 else 11);
      ops := LaneOperations(if extent.FromSymbol? then names + [""] else names, lhs, rhs, output, extent, store, t);
    }

    method TransposeStore(transpose: Operation, store: Operation, counter: nat)
      returns (ops: seq<Operation>, next: nat)
      requires IsTranspose(transpose) && store.opcode.Store? && |store.operands| >= 2
      modifies this
      ensures (ops, existing, next) == DecomposeTransposeStore(transpose, store, old(existing), counter)
    {
      var names;
      names, next := FreshValues(counter, 3);
      ops := TransposeLanes(transpose.operands[0], store.operands[1], names,
          Type(ScalarKind, [], transpose.results[0].typ.dtype), store);
    }

    /** `_decompose_linalg_block`. */
    method Block(block: Block, parentTypes: map<string, Type>) returns (r: Block)
      modifies this
      ensures (r, existing) == DecomposeBlock(block, parentTypes, old(existing))
      decreases block, 0
    {
      hide DecomposeOperation, AddTypes, AddResults, TransposeOf, ProductOf, FreshIndex, IsTranspose, IsProduct,
          Consumed;
      var all := block.operations;
      var types := AddResults(AddTypes(parentTypes, block.args), all);
      var counter := NextTempIndex();
      var transposes := Transposes(all);
      var consumedTransposes := ConsumedOf(all, transposes);
      var products := Products(all);
      var consumedProducts := ConsumedOf(all, products);
      ghost var start := Fresh(existing, counter);
      var done: seq<Operation> := [];
      ghost var whole := DecomposeOperations(all, all, types, start);
      assert all[0..] == all && [] + whole.0 == whole.0;
      for i := 0 to |all|
        invariant whole ==
            (done + DecomposeOperations(all[i..], all, types, Fresh(existing, counter)).0,
             DecomposeOperations(all[i..], all, types, Fresh(existing, counter)).1)
      {
        var op := all[i];
        assert all[i..][0] == op && all[i..][1..] == all[i + 1..];
        ghost var taken := Fresh(existing, counter);
        var ops;
        ops, counter := Operation(op, all, types, counter, transposes, products, consumedTransposes,
            consumedProducts);
        ghost var rest := DecomposeOperations(all[i + 1..], all, types, Fresh(existing, counter)).0;
        assert done + (ops + rest) == done + ops + rest;
        done := done + ops;
      }
      assert all[|all|..] == [] && done + [] == done;
      r := Ssa.Block(block.args, done);
    }

    /** What the block's loop does with one operation. */
    method Operation(op: Operation, ghost all: seq<Operation>, types: map<string, Type>, counter: nat,
            transposes: map<string, Operation>, products: map<string, Operation>, consumedTransposes: set<string>,
            consumedProducts: set<string>)
      returns (ops: seq<Operation>, next: nat)
      requires forall name ::
                 TransposeOf(all, name) == (if name in transposes then Some(transposes[name]) else None)
      requires forall name :: ProductOf(all, name) == (if name in products then Some(products[name]) else None)
      requires forall name :: name in consumedTransposes <==> name in transposes && Consumed(all, name)
      requires forall name :: name in consumedProducts <==> name in products && Consumed(all, name)
      modifies this
      ensures (ops, Fresh(existing, next)) == DecomposeOperation(op, all, types, Fresh(old(existing), counter))
      decreases op, 1
    {
      hide TransposeOf, ProductOf, Consumed, DecomposeTransposeStore, DecomposeMatMulStore, FreshIndex;
      next := counter;
      if op.results != [] && op.opcode.Transpose? && op.results[0].name in consumedTransposes {
        ops := [];
      } else if op.results != [] && op.opcode.MatMul? && op.results[0].name in consumedProducts {
        ops := [];
      } else if op.opcode.Store? && |op.operands| >= 2 && op.operands[0] in transposes {
        TransposeFound(all, op.operands[0]);
        ops, next := TransposeStore(transposes[op.operands[0]], op, counter);
      } else if op.opcode.Store? && |op.operands| >= 2 && op.operands[0] in products {
        ProductFound(all, op.operands[0]);
        ops, next := MatMulStore(products[op.operands[0]], op, types, counter);
        next := NextTempIndex();
      } else {
        var regions := Regions(op.regions, types);
        ops := [op.(regions := regions)];
      }
    }

    method Regions(regions: seq<Block>, types: map<string, Type>) returns (r: seq<Block>)
      modifies this
      ensures (r, existing) == DecomposeRegions(regions, types, old(existing))
      decreases regions, 0
    {
      hide DecomposeBlock;
      r := [];
      ghost var whole := DecomposeRegions(regions, types, existing);
      assert regions[0..] == regions && [] + whole.0 == whole.0;
      for i := 0 to |regions|
        invariant whole ==
            (r + DecomposeRegions(regions[i..], types, existing).0, DecomposeRegions(regions[i..], types, existing).1)
      {
        assert regions[i..][0] == regions[i] && regions[i..][1..] == regions[i + 1..];
        var first := Block(regions[i], types);
        ghost var rest := DecomposeRegions(regions[i + 1..], types, existing).0;
        assert r + ([first] + rest) == r + [first] + rest;
        r := r + [first];
      }
      assert regions[|regions|..] == [] && r + [] == r;
    }
  }

  lemma {:induction false} NoneDrawn(existing: set<string>, n: nat)
    ensures FreshNames(existing, n, 0) == ([], n)
  {
  }

  lemma {:induction false} DrawOne(existing: set<string>, n: nat, count: nat)
    requires count > 0
    ensures
      var index := FreshIndex(existing, n);
      var rest := FreshNames(existing + {TempName(index)}, index + 1, count - 1);
      FreshNames(existing, n, count) == ([TempName(index)] + rest.0, rest.1)
  {
  }

  /** The block's transposes by the name they define; a later one replaces an earlier. */
  method Transposes(ops: seq<Operation>) returns (found: map<string, Operation>)
    ensures forall name :: TransposeOf(ops, name) == (if name in found then Some(found[name]) else None)
  {
    found := map[];
    for i := 0 to |ops|
      invariant forall name ::
                  TransposeOf(ops, name) ==
                  if TransposeOf(ops[i..], name).Some? then TransposeOf(ops[i..], name)
                  else if name in found then Some(found[name])
                  else None
    {
      assert ops[i..][0] == ops[i] && ops[i..][1..] == ops[i + 1..];
      if IsTranspose(ops[i]) {
        found := found[ops[i].results[0].name := ops[i]];
      }
    }
  }

  method Products(ops: seq<Operation>) returns (found: map<string, Operation>)
    ensures forall name :: ProductOf(ops, name) == (if name in found then Some(found[name]) else None)
  {
    found := map[];
    for i := 0 to |ops|
      invariant forall name ::
                  ProductOf(ops, name) ==
                  if ProductOf(ops[i..], name).Some? then ProductOf(ops[i..], name)
                  else if name in found then Some(found[name])
                  else None
    {
      assert ops[i..][0] == ops[i] && ops[i..][1..] == ops[i + 1..];
      if IsProduct(ops[i]) {
        found := found[ops[i].results[0].name := ops[i]];
      }
    }
  }

  /** The names among `found` that a store of the block takes as its value. */
  method ConsumedOf(ops: seq<Operation>, found: map<string, Operation>) returns (names: set<string>)
    ensures forall name :: name in names <==> name in found && Consumed(ops, name)
  {
    names := {};
    for i := 0 to |ops|
      invariant forall name ::
                  name in names <==> name in found && exists j :: 0 <= j < i && Consumes(ops[j], name)
    {
      if ops[i].opcode.Store? && ops[i].operands != [] && ops[i].operands[0] in found {
        names := names + {ops[i].operands[0]};
      }
    }
  }

  /** The pass rewrites a program exactly as `DecomposeProgram` says. */
  method Decompose(program: Program) returns (r: Program)
    requires |program.blocks| == 1
    ensures r == DecomposeProgram(program)
  {
    hide DecomposeBlock;
    var types := ProgramTypes(program);
    var decomposer := new Decomposer(types.Keys);
    var block := decomposer.Block(program.blocks[0], types);
    r := program.(blocks := [block]);
  }
}
