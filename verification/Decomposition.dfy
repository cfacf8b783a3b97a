/** The whole linalg decomposition pass on blocks: consumed products and transposes
    disappear, and each store that consumes one becomes scalar code with fresh names. */
module Decomposition {
  import opened Wrappers
  import opened Ssa
  import opened Linalg

  predicate IsProduct(op: Operation) {
    op.opcode.MatMul? && |op.operands| == 2 && |op.results| == 1 && op.regions == []
  }

  predicate IsTranspose(op: Operation) {
    op.opcode.Transpose? && |op.operands| == 1 && |op.results| == 1 && op.regions == []
  }

  /** The last product (or transpose) of a block that defines `name`. */
  function ProductOf(ops: seq<Operation>, name: string): Option<Operation> {
    if ops == [] then None
    else
      var later := ProductOf(ops[1..], name);
      if later.Some? then later else if IsProduct(ops[0]) && ops[0].results[0].name == name then Some(ops[0]) else None
  }

  function TransposeOf(ops: seq<Operation>, name: string): Option<Operation> {
    if ops == [] then None
    else
      var later := TransposeOf(ops[1..], name);
      if later.Some? then later else if IsTranspose(ops[0]) && ops[0].results[0].name == name then Some(ops[0])
          else None
  }

  predicate Consumes(op: Operation, name: string) {
    op.opcode.Store? && op.operands != [] && op.operands[0] == name
  }

  predicate Consumed(ops: seq<Operation>, name: string) {
    exists i :: 0 <= i < |ops| && Consumes(ops[i], name)
  }

  /** The operation is left out because a store of its block consumes its result. */
  predicate Dropped(op: Operation, all: seq<Operation>) {
    op.results != [] && Consumed(all, op.results[0].name)
    && ((op.opcode.Transpose? && TransposeOf(all, op.results[0].name).Some?)
        || (op.opcode.MatMul? && ProductOf(all, op.results[0].name).Some?))
  }

  function AddTypes(types: map<string, Type>, values: seq<Value>): map<string, Type>
    decreases |values|
  {
    if values == [] then types else AddTypes(types[values[0].name := values[0].typ], values[1..])
  }

  function AddResults(types: map<string, Type>, ops: seq<Operation>): map<string, Type>
    decreases |ops|
  {
    if ops == [] then types else AddResults(AddTypes(types, ops[0].results), ops[1..])
  }

  /** A consumed transpose becomes two offsets, a scalar extract and a store of one lane. */
  function TransposeLanes(source: string, output: string, names: seq<string>, scalar: Type,
          store: Operation): seq<Operation>
    requires |names| == 3
  {
    [Operation(Offset(0, false), [output], [Value(names[0], INDEX)], NO_ATTRS.(decomposition := TransposeLane), []),
     Operation(Offset(1, false), [output], [Value(names[1], INDEX)], NO_ATTRS.(decomposition := TransposeLane), []),
     Operation(Extract(true), [source, names[1], names[0]], [Value(names[2], scalar)],
         NO_ATTRS.(decomposition := TransposeLane), []),
     Operation(Store, [names[2], output], [], store.attrs.(decomposition := TransposeLane), [])]
  }

  function DecomposeTransposeStore(transpose: Operation, store: Operation, existing: set<string>,
          counter: nat): (seq<Operation>, set<string>, nat)
    requires IsTranspose(transpose) && store.opcode.Store? && |store.operands| >= 2
  {
    var (names, next) := FreshNames(existing, counter, 3);
    (TransposeLanes(transpose.operands[0], store.operands[1], names,
        Type(ScalarKind, [], transpose.results[0].typ.dtype), store),
     existing + (set name | name in names), next)
  }

  /** The names taken so far and the counter of the block. */
  datatype Fresh = Fresh(existing: set<string>, counter: nat)

  function DecomposeOperation(op: Operation, all: seq<Operation>, types: map<string, Type>,
          taken: Fresh): (seq<Operation>, Fresh)
    decreases op, 1
  {
    if Dropped(op, all) then ([], taken)
    else if op.opcode.Store? && |op.operands| >= 2 && TransposeOf(all, op.operands[0]).Some? then
      TransposeFound(all, op.operands[0]);
      var (ops, existing, next) := DecomposeTransposeStore(TransposeOf(all, op.operands[0]).value, op, taken.existing,
          taken.counter);
      (ops, Fresh(existing, next))
    else if op.opcode.Store? && |op.operands| >= 2 && ProductOf(all, op.operands[0]).Some? then
      ProductFound(all, op.operands[0]);
      var (ops, existing, _) := DecomposeMatMulStore(ProductOf(all, op.operands[0]).value, op, types, taken.existing,
          taken.counter);
      (ops, Fresh(existing, FreshIndex(existing, 0)))
    else
      var (regions, existing) := DecomposeRegions(op.regions, types, taken.existing);
      ([op.(regions := regions)], Fresh(existing, taken.counter))
  }

  lemma {:induction false} TransposeFound(ops: seq<Operation>, name: string)
    ensures TransposeOf(ops, name).Some? ==>
        IsTranspose(TransposeOf(ops, name).value) && TransposeOf(ops, name).value.results[0].name == name
        && TransposeOf(ops, name).value in ops
  {
    if ops != [] {
      TransposeFound(ops[1..], name);
    }
  }

  lemma {:induction false} ProductFound(ops: seq<Operation>, name: string)
    ensures ProductOf(ops, name).Some? ==>
        IsProduct(ProductOf(ops, name).value) && ProductOf(ops, name).value.results[0].name == name
        && ProductOf(ops, name).value in ops
  {
    if ops != [] {
      ProductFound(ops[1..], name);
    }
  }

  function DecomposeOperations(ops: seq<Operation>, all: seq<Operation>, types: map<string, Type>,
          taken: Fresh): (seq<Operation>, Fresh)
    decreases ops, 0
  {
    if ops == [] then ([], taken)
    else
      var (first, next) := DecomposeOperation(ops[0], all, types, taken);
      var (rest, last) := DecomposeOperations(ops[1..], all, types, next);
      (first + rest, last)
  }

  function DecomposeRegions(regions: seq<Block>, types: map<string, Type>,
          existing: set<string>): (seq<Block>, set<string>)
    decreases regions, 0
  {
    if regions == [] then ([], existing)
    else
      var (first, next) := DecomposeBlock(regions[0], types, existing);
      var (rest, last) := DecomposeRegions(regions[1..], types, next);
      ([first] + rest, last)
  }

  /** `_decompose_linalg_block`. */
  function DecomposeBlock(block: Block, parentTypes: map<string, Type>, existing: set<string>): (Block, set<string>)
    decreases block, 0
  {
    var types := AddResults(AddTypes(parentTypes, block.args), block.operations);
    var (ops, last) := DecomposeOperations(block.operations, block.operations, types,
        Fresh(existing, FreshIndex(existing, 0)));
    (Block(block.args, ops), last.existing)
  }

  /** Every name with a type: inputs, outputs, block arguments and results. */
  function TypesInBlock(block: Block, types: map<string, Type>): map<string, Type>
    decreases block, 0
  {
    TypesInOperations(block.operations, AddTypes(types, block.args))
  }

  function TypesInOperations(ops: seq<Operation>, types: map<string, Type>): map<string, Type>
    decreases ops, 0
  {
    if ops == [] then types
        else TypesInOperations(ops[1..], TypesInRegions(ops[0].regions, AddTypes(types, ops[0].results)))
  }

  function TypesInRegions(regions: seq<Block>, types: map<string, Type>): map<string, Type>
    decreases regions, 0
  {
    if regions == [] then types else TypesInRegions(regions[1..], TypesInBlock(regions[0], types))
  }

  function ProgramTypes(program: Program): map<string, Type>
    requires |program.blocks| == 1
  {
    TypesInBlock(program.blocks[0], AddTypes(AddTypes(map[], program.inputs), program.outputs))
  }

  /** The pass on a whole program. */
  function DecomposeProgram(program: Program): Program
    requires |program.blocks| == 1
  {
    var types := ProgramTypes(program);
    var (block, _) := DecomposeBlock(program.blocks[0], types, types.Keys);
    program.(blocks := [block])
  }
}
