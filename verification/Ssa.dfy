/** Structured SSA: the IR records of `ir/ssa.py` and its verifier.
    The verifier is written as functions that thread the two pieces of state the
    source mutates (`local_visible` and the shared `all_definitions` set); class
    `Verification.Verifier` is the mutating form, proved to compute them. */
module Ssa {
  import opened Wrappers

  datatype Kind = IndexKind | ScalarKind | TensorKind | PointerKind | TupleKind | SymbolKind

  /** Normalised dtype names; the alias table of `dtype.py` is already applied. */
  datatype DType = Bool | IndexInt | Integer(bits: nat,
      signed: bool) | Float(bits: nat) | Symbolic | Other(name: string)

  const INT64 := Integer(64, true)

  /** One extent of a symbolic shape. */
  datatype Dim = Fixed(size: int) | Named(name: string) | Compound(text: string, names: seq<string>)

  function DimNames(dim: Dim): set<string> {
    match dim
    case Fixed(_) => {}
    case Named(name) => {name}
    case Compound(_, names) => set name | name in names
  }

  datatype Type = Type(kind: Kind, shape: seq<Dim>, dtype: Option<DType>)

  const SCALAR_INT := Type(ScalarKind, [], Some(INT64))
  const INDEX := Type(IndexKind, [], None)

  datatype Value = Value(name: string, typ: Type)

  datatype BinaryOp = Add | Sub | Mul | FloorDiv | Mod | Maximum | Minimum | Eq | Ne | Lt | Le | Gt | Ge
  datatype UnaryOp = Neg | Pos | Not

  datatype Decomposition = NotDecomposed | MatMulLane | TransposeLane

  datatype Opcode =
    | Constant(value: int)
    | Binary(binop: BinaryOp)
    | Unary(unop: UnaryOp)
    | Select
    | Extract(fromSource: bool)
    | ShapeDim(dim: int)
    | Offset(axis: int, valueSpace: bool)
    | MatMul
    | Transpose
    | Store
    | Load
    | DataPtr
    | AtomicAdd
    | For
    | If
    | Yield
    | Unsupported(code: string)

  datatype IterArg = IterArg(name: string, initial: string, blockArg: string)

  datatype Attrs = Attrs(
    indices: seq<string>,
    induction: string,
    iterArgs: seq<IterArg>,
    decomposition: Decomposition,
    matmulOperands: seq<string>,
    k: Option<string>)

  const NO_ATTRS := Attrs([], "%iv", [], NotDecomposed, [], None)

  datatype Operation = Operation(
    opcode: Opcode,
    operands: seq<string>,
    results: seq<Value>,
    attrs: Attrs,
    regions: seq<Block>)

  datatype Block = Block(args: seq<Value>, operations: seq<Operation>)

  datatype Program = Program(
    inputs: seq<Value>,
    outputs: seq<Value>,
    blocks: seq<Block>,
    symbols: set<string>)

  function Names(values: seq<Value>): (names: seq<string>)
    ensures |names| == |values|
    ensures forall i :: 0 <= i < |values| ==> names[i] == values[i].name
  {
    seq(|values|, i requires 0 <= i < |values| => values[i].name)
  }

  function NameSet(values: seq<Value>): set<string> {
    set value | value in values :: value.name
  }

  function Bind(visible: map<string, Type>, values: seq<Value>): (r: map<string, Type>)
    ensures r.Keys == visible.Keys + NameSet(values)
    ensures forall name :: name in visible && name !in NameSet(values) ==> r[name] == visible[name]
    decreases |values|
  {
    if values == [] then visible
    else
      assert values == [values[0]] + values[1..];
      Bind(visible[values[0].name := values[0].typ], values[1..])
  }

  // ----- the verifier -----

  datatype Reason =
    | BlockCount
    | DuplicateInput
    | DuplicateDefinition
    | UndefinedValue
    | MisplacedYield
    | YieldArity
    | TypeMismatch
    | RegionContract
    | MemoryContract
    | DuplicateOutput
    | UndefinedOutput

  datatype Scope = Scope(visible: map<string, Type>, definitions: set<string>)

  type Verdict = Result<Scope, Reason>

  function Signature(t: Type): (Kind, seq<Dim>, Option<DType>) {
    if t.shape == [] && ((t.kind == IndexKind && t.dtype in {None, Some(IndexInt), Some(INT64)})
                         || (t.kind == ScalarKind && t.dtype == Some(IndexInt)))
    then (ScalarKind, [], Some(INT64))
    else (t.kind, t.shape, t.dtype)
  }

  predicate TypesAgree(actual: Type, expected: Type) {
    var a, e := Signature(actual), Signature(expected);
    a.0 == e.0 && a.1 == e.1 && (a.2.None? || e.2.None? || a.2 == e.2)
  }

  function FirstKnown(types: seq<Type>, default: Type): Type {
    if types == [] then default
    else if Signature(types[0]).2.Some? then types[0]
    else FirstKnown(types[1..], default)
  }

  predicate AllAgree(types: seq<Type>) {
    types == [] || forall t :: t in types ==> TypesAgree(t, FirstKnown(types, types[0]))
  }

  function References(op: Operation): seq<string> {
    op.operands + if op.opcode.Store? then op.attrs.indices else []
  }

  function DefineResults(results: seq<Value>, visible: map<string, Type>,
          definitions: set<string>): Result<set<string>, Reason> {
    if results == [] then Success(definitions)
    else if results[0].name in definitions || results[0].name in visible then Failure(DuplicateDefinition)
    else DefineResults(results[1..], visible, definitions + {results[0].name})
  }

  function BindArguments(args: seq<Value>, scope: Scope): Verdict {
    if args == [] then Success(scope)
    else if args[0].name in scope.definitions || args[0].name in scope.visible then Failure(DuplicateDefinition)
    else BindArguments(args[1..],
                       Scope(scope.visible[args[0].name := args[0].typ], scope.definitions + {args[0].name}))
  }

  predicate EndsWithYield(block: Block, expected: nat) {
    && block.operations != []
    && var last := block.operations[|block.operations| - 1];
    last.opcode.Yield? && |last.operands| == expected
  }

  predicate IntegerBound(t: Type) {
    || t.kind == IndexKind
    || (t.kind == ScalarKind && t.shape == []
        && (t.dtype in {None, Some(IndexInt)}
            || (t.dtype.Some? && t.dtype.value.Integer? && t.dtype.value.bits in {8, 16, 32, 64})))
  }

  predicate RegionContractHolds(op: Operation, visible: map<string, Type>)
    requires forall name :: name in op.operands ==> name in visible
  {
    match op.opcode
    case For =>
      && |op.regions| == 1
      && |op.operands| == |op.results| + 3
      && (forall i :: 0 <= i < 3 ==> IntegerBound(visible[op.operands[i]]))
      && EndsWithYield(op.regions[0], |op.results|)
      && |op.regions[0].args| == |op.results| + 1
      && op.regions[0].args[0].typ.kind == IndexKind
      && op.attrs.induction == op.regions[0].args[0].name
      && |op.attrs.iterArgs| == |op.results|
      && (forall i :: 0 <= i < |op.results| ==>
            op.attrs.iterArgs[i].initial == op.operands[i + 3]
                && op.attrs.iterArgs[i].blockArg == op.regions[0].args[i + 1].name)
    case If =>
      && |op.operands| == 1
      && |op.regions| in {1, 2}
      && (op.results != [] ==> |op.regions| == 2)
      && (forall region :: region in op.regions ==>
            region.args == [] && (op.results != [] ==> EndsWithYield(region, |op.results|)))
    case Yield => true
    case _ => op.regions == []
  }

  predicate MaskHolds(t: Type) {
    t.kind in {ScalarKind, TensorKind} && t.dtype == Some(Bool)
  }

  predicate MemoryContractHolds(op: Operation, visible: map<string, Type>)
    requires forall name :: name in op.operands ==> name in visible
  {
    match op.opcode
    case Store =>
      && |op.operands| in {2, 3} && op.results == []
      && visible[op.operands[1]].kind in {PointerKind, TensorKind, ScalarKind}
      && (|op.operands| == 3 ==> MaskHolds(visible[op.operands[2]]))
    case DataPtr =>
      && |op.operands| == 1 && |op.results| == 1
      && visible[op.operands[0]].kind in {TensorKind, ScalarKind}
      && op.results[0].typ.kind == PointerKind
    case Load =>
      && |op.operands| in {1, 2, 3} && |op.results| == 1
      && visible[op.operands[0]].kind in {PointerKind, TensorKind}
      && (|op.operands| > 1 ==> MaskHolds(visible[op.operands[1]]))
    case AtomicAdd =>
      && |op.operands| == 2 && |op.results| == 1
      && visible[op.operands[0]].kind == PointerKind
    case _ => true
  }

  /** What a region's terminator must produce: one list of types for each result
      of the owning operation. */
  function Slots(op: Operation, visible: map<string, Type>): seq<seq<Type>>
    requires forall name :: name in op.operands ==> name in visible
    requires RegionContractHolds(op, visible)
  {
    if op.opcode.For? then
      seq(|op.results|, i requires 0 <= i < |op.results| =>
        [op.results[i].typ, visible[op.operands[i + 3]], op.regions[0].args[i + 1].typ])
    else
      seq(|op.results|, i requires 0 <= i < |op.results| => [op.results[i].typ])
  }

  function CheckYield(op: Operation, last: bool, visible: map<string, Type>,
          slots: Option<seq<seq<Type>>>): Result<(), Reason>
    requires forall name :: name in op.operands ==> name in visible
  {
    if slots.None? || !last then Failure(MisplacedYield)
    else if op.results != [] || op.regions != [] then Failure(MisplacedYield)
    else if |op.operands| != |slots.value| then Failure(YieldArity)
    else if forall i :: 0 <= i < |slots.value| ==> AllAgree([visible[op.operands[i]]] + slots.value[i]) then Success(())
    else Failure(TypeMismatch)
  }

  function VerifyOperation(op: Operation, last: bool, scope: Scope, slots: Option<seq<seq<Type>>>): Verdict
    decreases op, 0
  {
    if exists name :: name in References(op) && name !in scope.visible then Failure(UndefinedValue)
    else
      var defined :- DefineResults(op.results, scope.visible, scope.definitions);
      assert forall name :: name in op.operands ==> name in References(op);
      if !RegionContractHolds(op, scope.visible) then Failure(RegionContract)
      else if !MemoryContractHolds(op, scope.visible) then Failure(MemoryContract)
      else
        var _ :- if op.opcode.Yield? then CheckYield(op, last, scope.visible, slots) else Success(());
        var definitions :- VerifyRegions(op.regions, Scope(scope.visible, defined), Slots(op, scope.visible));
        Success(Scope(Bind(scope.visible, op.results), definitions))
  }

  function VerifyRegions(regions: seq<Block>, scope: Scope, slots: seq<seq<Type>>): Result<set<string>, Reason>
    decreases regions, 0
  {
    if regions == [] then Success(scope.definitions)
    else
      var inner :- VerifyBlock(regions[0], scope, Some(slots));
      VerifyRegions(regions[1..], Scope(scope.visible, inner.definitions), slots)
  }

  function VerifyOperations(ops: seq<Operation>, scope: Scope, slots: Option<seq<seq<Type>>>): Verdict
    decreases ops, 0
  {
    if ops == [] then Success(scope)
    else
      var next :- VerifyOperation(ops[0], |ops| == 1, scope, slots);
      VerifyOperations(ops[1..], next, slots)
  }

  function VerifyBlock(block: Block, scope: Scope, slots: Option<seq<seq<Type>>>): Verdict
    decreases block, 0
  {
    var entered :- BindArguments(block.args, scope);
    var finished :- VerifyOperations(block.operations, entered, slots);
    Success(Scope(finished.visible, finished.definitions - NameSet(block.args)))
  }

  predicate DistinctNames(values: seq<Value>) {
    forall i, j :: 0 <= i < j < |values| ==> values[i].name != values[j].name
  }

  function ProgramSymbols(program: Program): set<string> {
    program.symbols + set value, dim, name | value in program.inputs + program.outputs && dim in value.typ.shape
        && name in DimNames(dim) :: name
  }

  function IndexTypes(names: set<string>): map<string, Type> {
    map name | name in names :: Type(IndexKind, [], None)
  }

  function EntryScope(program: Program): Scope {
    Scope(IndexTypes(ProgramSymbols(program)) + Bind(map[], program.inputs), NameSet(program.inputs))
  }

  function VerifyOutputs(program: Program, outputs: seq<Value>, seen: set<string>,
          top: map<string, Type>): Result<(), Reason> {
    if outputs == [] then Success(())
    else
      var name := outputs[0].name;
      if name in seen then Failure(DuplicateOutput)
      else if name !in top || (name in ProgramSymbols(program)
          && name !in NameSet(program.inputs)) then Failure(UndefinedOutput)
      else if !TypesAgree(outputs[0].typ, top[name]) then Failure(TypeMismatch)
      else VerifyOutputs(program, outputs[1..], seen + {name}, top)
  }

  function VerifyProgram(program: Program): Verdict {
    if |program.blocks| != 1 then Failure(BlockCount)
    else if !DistinctNames(program.inputs) then Failure(DuplicateInput)
    else
      var top :- VerifyBlock(program.blocks[0], EntryScope(program), None);
      var _ :- VerifyOutputs(program, program.outputs, {}, top.visible);
      Success(top)
  }
}
