/** What the verifier accepts: exactly the programs whose names are new, whose uses are visible and
    whose types go together, at every nesting. */
module Typing {
  import opened Wrappers
  import opened Ssa
  import opened VerifierSteps
  import opened Scoping

  // ----- types that go together -----

  /** The forms of an index and of a 64-bit integer that count as one. */
  predicate Index64(t: Type) {
    && t.shape == []
    && (|| (t.kind == IndexKind && t.dtype in {None, Some(IndexInt), Some(INT64)})
        || (t.kind == ScalarKind && t.dtype in {Some(IndexInt), Some(INT64)}))
  }

  lemma {:induction false} SignatureExact(a: Type, b: Type)
    ensures Signature(a) == Signature(b) <==> a == b || (Index64(a) && Index64(b))
  {
  }

  /** The same kind and shape, and the same dtype where both are known. */
  predicate Agree(a: Type, b: Type) {
    var (kind, shape, dtype), (k, s, d) := Signature(a), Signature(b);
    kind == k && shape == s && (dtype.Some? && d.Some? ==> dtype == d)
  }

  ghost predicate AllTogether(types: seq<Type>) {
    forall i, j :: 0 <= i < |types| && 0 <= j < |types| ==> Agree(types[i], types[j])
  }

  lemma {:induction false} FirstKnownIs(types: seq<Type>, default: Type)
    ensures
      var t := FirstKnown(types, default);
      if exists i :: 0 <= i < |types| && Signature(types[i]).2.Some? then t in types && Signature(t).2.Some?
      else t == default
    decreases |types|
  {
    hide Signature;
    if types != [] && Signature(types[0]).2.None? {
      FirstKnownIs(types[1..], default);
      if i :| 0 <= i < |types| && Signature(types[i]).2.Some? {
        assert types[1..][i - 1] == types[i];
      }
    }
  }

  /** Comparing with the first type of a known dtype compares all of them with each other. */
  lemma {:induction false} TogetherExact(types: seq<Type>)
    ensures AllAgree(types) <==> AllTogether(types)
  {
    if types != [] {
      var t := FirstKnown(types, types[0]);
      FirstKnownIs(types, types[0]);
      assert types[0] in types && t in types;
      hide Signature, FirstKnown;
      if AllAgree(types) {
        forall i, j | 0 <= i < |types| && 0 <= j < |types|
          ensures Agree(types[i], types[j])
        {
          assert types[i] in types && types[j] in types;
          assert TypesAgree(types[i], t) && TypesAgree(types[j], t);
        }
      }
      if AllTogether(types) {
        var at :| 0 <= at < |types| && types[at] == t;
        forall u | u in types
          ensures TypesAgree(u, t)
        {
          var i :| 0 <= i < |types| && types[i] == u;
          assert Agree(types[i], types[at]);
        }
      }
    }
  }

  // ----- what an operation asks of its operands -----

  predicate IntegerType(t: Type) {
    || t.kind == IndexKind
    || (t.kind == ScalarKind && t.shape == []
        && match t.dtype
           case None => true
           case Some(IndexInt) => true
           case Some(Integer(bits, _)) => bits == 8 || bits == 16 || bits == 32 || bits == 64
           case _ => false)
  }

  predicate BooleanType(t: Type) {
    (t.kind == ScalarKind || t.kind == TensorKind) && t.dtype == Some(Bool)
  }

  predicate YieldsLast(region: Block, count: nat) {
    && |region.operations| > 0 && region.operations[|region.operations| - 1].opcode.Yield?
    && |region.operations[|region.operations| - 1].operands| == count
  }

  /** A loop: three integer bounds, an initial value and an argument for each result, an index for
      the induction value, attributes that name them, and a region that yields each result. */
  ghost predicate LoopFormed(op: Operation, visible: map<string, Type>)
    requires forall x :: x in op.operands ==> x in visible
  {
    && |op.regions| == 1 && |op.operands| == 3 + |op.results|
    && IntegerType(visible[op.operands[0]]) && IntegerType(visible[op.operands[1]])
    && IntegerType(visible[op.operands[2]])
    && |op.regions[0].args| == 1 + |op.results| && op.regions[0].args[0].typ.kind.IndexKind?
    && op.regions[0].args[0].name == op.attrs.induction && |op.attrs.iterArgs| == |op.results|
    && (forall i :: 0 <= i < |op.results| ==>
          op.attrs.iterArgs[i].initial == op.operands[3 + i]
          && op.attrs.iterArgs[i].blockArg == op.regions[0].args[1 + i].name)
    && YieldsLast(op.regions[0], |op.results|)
  }

  /** A branch: one condition, one region or two, no arguments; with results, two that yield them. */
  ghost predicate BranchFormed(op: Operation) {
    && |op.operands| == 1 && 1 <= |op.regions| <= 2 && (|op.results| > 0 ==> |op.regions| == 2)
    && forall r :: 0 <= r < |op.regions| ==>
         |op.regions[r].args| == 0 && (|op.results| > 0 ==> YieldsLast(op.regions[r], |op.results|))
  }

  /** Memory operations: what they read and write, and that a mask is boolean. */
  ghost predicate MemoryFormed(op: Operation, visible: map<string, Type>)
    requires forall x :: x in op.operands ==> x in visible
  {
    && (op.opcode.Store? ==>
          && 2 <= |op.operands| <= 3 && |op.results| == 0
          && visible[op.operands[1]].kind in {PointerKind, TensorKind, ScalarKind}
          && (|op.operands| == 3 ==> BooleanType(visible[op.operands[2]])))
    && (op.opcode.Load? ==>
          && 1 <= |op.operands| <= 3 && |op.results| == 1
          && visible[op.operands[0]].kind in {PointerKind, TensorKind}
          && (|op.operands| >= 2 ==> BooleanType(visible[op.operands[1]])))
    && (op.opcode.DataPtr? ==>
          && |op.operands| == 1 && |op.results| == 1 && op.results[0].typ.kind.PointerKind?
          && visible[op.operands[0]].kind in {TensorKind, ScalarKind})
    && (op.opcode.AtomicAdd? ==>
          |op.operands| == 2 && |op.results| == 1 && visible[op.operands[0]].kind.PointerKind?)
  }

  /** What goes with value `i` of a yield: the result, and for a loop the initial value and the
      argument. */
  ghost function Beside(op: Operation, visible: map<string, Type>, i: nat): seq<Type>
    requires forall x :: x in op.operands ==> x in visible
    requires i < |op.results| && (op.opcode.For? ==> LoopFormed(op, visible))
  {
    if op.opcode.For? then [op.results[i].typ, visible[op.operands[3 + i]], op.regions[0].args[1 + i].typ]
    else [op.results[i].typ]
  }

  /** The operation around a region, with the types visible there. */
  datatype Owner = Owner(op: Operation, visible: map<string, Type>)

  ghost predicate OwnerFormed(owner: Owner) {
    && (forall x :: x in owner.op.operands ==> x in owner.visible)
    && (owner.op.opcode.For? ==> LoopFormed(owner.op, owner.visible))
  }

  /** A yield ends a region and gives, for each result around it, a value that goes with it. */
  ghost predicate YieldFormed(op: Operation, last: bool, visible: map<string, Type>, owner: Option<Owner>)
    requires forall x :: x in op.operands ==> x in visible
  {
    && owner.Some? && OwnerFormed(owner.value) && last && |op.results| == 0 && |op.regions| == 0
    && |op.operands| == |owner.value.op.results|
    && forall i :: 0 <= i < |op.operands| ==>
         AllTogether([visible[op.operands[i]]] + Beside(owner.value.op, owner.value.visible, i))
  }

  ghost predicate TypedOperation(op: Operation, last: bool, visible: map<string, Type>, owner: Option<Owner>)
    decreases op, 0
  {
    && (forall x :: x in References(op) ==> x in visible) && (forall x :: x in op.operands ==> x in visible)
    && (if op.opcode.For? then LoopFormed(op, visible)
        else if op.opcode.If? then BranchFormed(op)
        else if op.opcode.Yield? then YieldFormed(op, last, visible, owner)
        else |op.regions| == 0)
    && MemoryFormed(op, visible)
    && TypedRegions(op.regions, visible, Owner(op, visible))
  }

  ghost predicate TypedRegions(regions: seq<Block>, visible: map<string, Type>, owner: Owner)
    decreases regions, 0
  {
    regions == [] || (TypedBlock(regions[0], visible, Some(owner)) && TypedRegions(regions[1..], visible, owner))
  }

  ghost predicate TypedBlock(block: Block, visible: map<string, Type>, owner: Option<Owner>)
    decreases block, 0
  {
    TypedOperations(block.operations, Bind(visible, block.args), owner)
  }

  ghost predicate TypedOperations(ops: seq<Operation>, visible: map<string, Type>, owner: Option<Owner>)
    decreases ops, 0
  {
    ops == [] || (TypedOperation(ops[0], |ops| == 1, visible, owner)
        && TypedOperations(ops[1..], Bind(visible, ops[0].results), owner))
  }

  // ----- names that are new -----

  ghost predicate NewNames(values: seq<Value>, taken: set<string>) {
    DistinctNames(values) && NameSet(values) !! taken
  }

  /** Results are new among all names visible or defined before, in nested regions as well; block
      arguments are so while their block lasts. */
  ghost predicate NewOperation(op: Operation, visible: set<string>, before: set<string>)
    decreases op, 0
  {
    NewNames(op.results, visible + before) && NewRegions(op.regions, visible, before + NameSet(op.results))
  }

  ghost predicate NewRegions(regions: seq<Block>, visible: set<string>, before: set<string>)
    decreases regions, 0
  {
    regions == [] || (NewBlock(regions[0], visible, before)
        && NewRegions(regions[1..], visible, before + Elements(ResultNames(regions[0].operations))))
  }

  ghost predicate NewBlock(block: Block, visible: set<string>, before: set<string>)
    decreases block, 0
  {
    && NewNames(block.args, visible + before)
    && NewOperations(block.operations, visible + NameSet(block.args), before + NameSet(block.args))
  }

  ghost predicate NewOperations(ops: seq<Operation>, visible: set<string>, before: set<string>)
    decreases ops, 0
  {
    ops == [] || (NewOperation(ops[0], visible, before)
        && NewOperations(ops[1..], visible + NameSet(ops[0].results),
             before + NameSet(ops[0].results) + Elements(RegionResultNames(ops[0].regions))))
  }

  // ----- the verifier decides exactly this -----

  /** The lists of types that a yield is checked against. */
  ghost function SlotsOf(owner: Owner): seq<seq<Type>>
    requires OwnerFormed(owner)
  {
    seq(|owner.op.results|, i requires 0 <= i < |owner.op.results| => Beside(owner.op, owner.visible, i))
  }

  ghost predicate SlotsMatch(slots: Option<seq<seq<Type>>>, owner: Option<Owner>) {
    match owner
    case None => slots == None
    case Some(o) => OwnerFormed(o) && slots == Some(SlotsOf(o))
  }

  lemma {:induction false} DefinesExact(results: seq<Value>, visible: map<string, Type>, definitions: set<string>)
    ensures DefineResults(results, visible, definitions).Success? <==> NewNames(results, visible.Keys + definitions)
    decreases |results|
  {
    if DefineResults(results, visible, definitions).Success? {
      ResultsDefined(results, visible, definitions);
    } else {
      var first, rest := results[0], results[1..];
      assert first in results && first.name in NameSet(results);
      if first.name !in definitions && first.name !in visible {
        DefinesExact(rest, visible, definitions + {first.name});
        assert visible.Keys + (definitions + {first.name}) == visible.Keys + definitions + {first.name};
        RestNew(results, visible.Keys + definitions);
      }
    }
  }

  lemma {:induction false} RestNew(values: seq<Value>, taken: set<string>)
    requires values != []
    ensures NewNames(values, taken) ==>
        NewNames(values[1..], taken + {values[0].name}) && values[0].name !in taken
  {
    var rest := values[1..];
    assert values[0] in values;
    if NewNames(values, taken) {
      forall i, j | 0 <= i < j < |rest|
        ensures rest[i].name != rest[j].name
      {
        assert values[i + 1].name != values[j + 1].name;
      }
      forall v | v in rest
        ensures v.name !in taken && v.name != values[0].name
      {
        var i :| 0 <= i < |rest| && rest[i] == v;
        assert v in values && values[0].name != values[i + 1].name;
      }
    }
  }

  lemma {:induction false} ArgumentsExact(args: seq<Value>, scope: Scope)
    ensures BindArguments(args, scope).Success? <==> NewNames(args, scope.visible.Keys + scope.definitions)
    decreases |args|
  {
    if BindArguments(args, scope).Success? {
      ArgumentsBound(args, scope);
    } else {
      var first, rest := args[0], args[1..];
      assert first in args && first.name in NameSet(args);
      if first.name !in scope.definitions && first.name !in scope.visible {
        var next := Scope(scope.visible[first.name := first.typ], scope.definitions + {first.name});
        ArgumentsExact(rest, next);
        assert next.visible.Keys + next.definitions == scope.visible.Keys + scope.definitions + {first.name};
        RestNew(args, scope.visible.Keys + scope.definitions);
      }
    }
  }

  lemma {:induction false} ContractExact(op: Operation, visible: map<string, Type>)
    requires forall x :: x in op.operands ==> x in visible
    ensures RegionContractHolds(op, visible) <==>
        (if op.opcode.For? then LoopFormed(op, visible)
         else if op.opcode.If? then BranchFormed(op)
         else op.opcode.Yield? || |op.regions| == 0)
  {
    if op.opcode.For? {
      ContractOfLoop(op, visible);
    } else if op.opcode.If? {
      ContractOfBranch(op, visible);
    }
  }

  lemma {:induction false} ContractOfLoop(op: Operation, visible: map<string, Type>)
    requires op.opcode.For? && forall x :: x in op.operands ==> x in visible
    ensures RegionContractHolds(op, visible) <==> LoopFormed(op, visible)
  {
    if |op.regions| == 1 && |op.operands| == |op.results| + 3 {
      var names := op.operands;
      LastYields(op.regions[0], |op.results|);
      BoundsTyped(visible[names[0]], visible[names[1]], visible[names[2]]);
      hide EndsWithYield, YieldsLast, IntegerBound, IntegerType;
      assert (forall i :: 0 <= i < 3 ==> IntegerBound(visible[names[i]])) <==>
          IntegerBound(visible[names[0]]) && IntegerBound(visible[names[1]]) && IntegerBound(visible[names[2]]);
    }
  }

  lemma {:induction false} BoundsTyped(a: Type, b: Type, c: Type)
    ensures (IntegerBound(a) <==> IntegerType(a)) && (IntegerBound(b) <==> IntegerType(b))
    ensures IntegerBound(c) <==> IntegerType(c)
  {
  }

  lemma {:induction false} ContractOfBranch(op: Operation, visible: map<string, Type>)
    requires op.opcode.If? && forall x :: x in op.operands ==> x in visible
    ensures RegionContractHolds(op, visible) <==> BranchFormed(op)
  {
    hide EndsWithYield, YieldsLast;
    forall region | region in op.regions
      ensures EndsWithYield(region, |op.results|) <==> YieldsLast(region, |op.results|)
    {
      LastYields(region, |op.results|);
    }
    assert op.regions != [] ==> op.regions[0] in op.regions;
    assert |op.regions| == 2 ==> op.regions[1] in op.regions;
  }

  lemma {:induction false} LastYields(region: Block, count: nat)
    ensures EndsWithYield(region, count) <==> YieldsLast(region, count)
  {
  }

  lemma {:induction false} MemoryExact(op: Operation, visible: map<string, Type>)
    requires forall x :: x in op.operands ==> x in visible
    ensures MemoryContractHolds(op, visible) <==> MemoryFormed(op, visible)
  {
  }

  lemma {:induction false} YieldExact(op: Operation, last: bool, visible: map<string, Type>, owner: Option<Owner>,
          slots: Option<seq<seq<Type>>>)
    requires (forall x :: x in op.operands ==> x in visible) && SlotsMatch(slots, owner)
    ensures CheckYield(op, last, visible, slots).Success? <==> YieldFormed(op, last, visible, owner)
  {
    hide AllTogether, AllAgree, LoopFormed, Beside;
    if owner.Some? && |op.operands| == |slots.value| {
      forall i | 0 <= i < |op.operands|
        ensures AllAgree([visible[op.operands[i]]] + slots.value[i]) <==>
            AllTogether([visible[op.operands[i]]] + Beside(owner.value.op, owner.value.visible, i))
      {
        TogetherExact([visible[op.operands[i]]] + slots.value[i]);
      }
    }
  }

  lemma {:induction false} SlotsExact(op: Operation, visible: map<string, Type>)
    requires (forall x :: x in op.operands ==> x in visible) && RegionContractHolds(op, visible)
    ensures SlotsMatch(Some(Slots(op, visible)), Some(Owner(op, visible)))
  {
    ContractExact(op, visible);
    hide RegionContractHolds, LoopFormed;
    assert Slots(op, visible) == SlotsOf(Owner(op, visible));
  }

  lemma {:induction false} OperationExact(op: Operation, last: bool, scope: Scope, slots: Option<seq<seq<Type>>>,
          owner: Option<Owner>)
    requires SlotsMatch(slots, owner)
    ensures VerifyOperation(op, last, scope, slots).Success? <==>
        TypedOperation(op, last, scope.visible, owner) && NewOperation(op, scope.visible.Keys, scope.definitions)
    decreases op, 0
  {
    hide RegionContractHolds, MemoryContractHolds, LoopFormed, BranchFormed, MemoryFormed, YieldFormed, CheckYield,
        DefineResults, NewNames, SlotsMatch, VerifyRegions, TypedRegions, NewRegions;
    if forall x :: x in References(op) ==> x in scope.visible {
      assert forall x :: x in op.operands ==> x in References(op);
      DefinesExact(op.results, scope.visible, scope.definitions);
      ContractExact(op, scope.visible);
      MemoryExact(op, scope.visible);
      YieldExact(op, last, scope.visible, owner, slots);
      if DefineResults(op.results, scope.visible, scope.definitions).Success? {
        ResultsDefined(op.results, scope.visible, scope.definitions);
        if RegionContractHolds(op, scope.visible) {
          SlotsExact(op, scope.visible);
          RegionsExact(op.regions, Scope(scope.visible, scope.definitions + NameSet(op.results)),
              Slots(op, scope.visible), Owner(op, scope.visible));
          YieldHasNoRegions(op, last, scope.visible, owner);
        }
      }
    }
  }

  lemma {:induction false} YieldHasNoRegions(op: Operation, last: bool, visible: map<string, Type>,
          owner: Option<Owner>)
    requires forall x :: x in op.operands ==> x in visible
    ensures YieldFormed(op, last, visible, owner) ==> op.regions == []
  {
  }

  lemma {:induction false} RegionsExact(regions: seq<Block>, scope: Scope, slots: seq<seq<Type>>, owner: Owner)
    requires SlotsMatch(Some(slots), Some(owner))
    ensures VerifyRegions(regions, scope, slots).Success? <==>
        TypedRegions(regions, scope.visible, owner) && NewRegions(regions, scope.visible.Keys, scope.definitions)
    decreases regions, 0
  {
    hide SlotsMatch, VerifyBlock, TypedBlock, NewBlock, ResultNames;
    if regions != [] {
      BlockExact(regions[0], scope, Some(slots), Some(owner));
      if VerifyBlock(regions[0], scope, Some(slots)).Success? {
        BlockScoped(regions[0], scope, Some(slots));
        var inner := VerifyBlock(regions[0], scope, Some(slots)).value;
        RegionsExact(regions[1..], Scope(scope.visible, inner.definitions), slots, owner);
      }
    }
  }

  lemma {:induction false} BlockExact(block: Block, scope: Scope, slots: Option<seq<seq<Type>>>, owner: Option<Owner>)
    requires SlotsMatch(slots, owner)
    ensures VerifyBlock(block, scope, slots).Success? <==>
        TypedBlock(block, scope.visible, owner) && NewBlock(block, scope.visible.Keys, scope.definitions)
    decreases block, 0
  {
    hide SlotsMatch, VerifyOperations, TypedOperations, NewOperations, BindArguments, NewNames;
    ArgumentsExact(block.args, scope);
    if BindArguments(block.args, scope).Success? {
      ArgumentsBound(block.args, scope);
      OperationsExact(block.operations, BindArguments(block.args, scope).value, slots, owner);
    }
  }

  lemma {:induction false} OperationsExact(ops: seq<Operation>, scope: Scope, slots: Option<seq<seq<Type>>>,
          owner: Option<Owner>)
    requires SlotsMatch(slots, owner)
    ensures VerifyOperations(ops, scope, slots).Success? <==>
        TypedOperations(ops, scope.visible, owner) && NewOperations(ops, scope.visible.Keys, scope.definitions)
    decreases ops, 0
  {
    hide SlotsMatch, VerifyOperation, TypedOperation, NewOperation, RegionResultNames;
    if ops != [] {
      OperationExact(ops[0], |ops| == 1, scope, slots, owner);
      if VerifyOperation(ops[0], |ops| == 1, scope, slots).Success? {
        OperationNext(ops[0], |ops| == 1, scope, slots);
        OperationsExact(ops[1..], VerifyOperation(ops[0], |ops| == 1, scope, slots).value, slots, owner);
      }
    }
  }

  lemma {:induction false} OperationNext(op: Operation, last: bool, scope: Scope, slots: Option<seq<seq<Type>>>)
    requires VerifyOperation(op, last, scope, slots).Success?
    ensures
      var next := VerifyOperation(op, last, scope, slots).value;
      && next.visible == Bind(scope.visible, op.results)
      && next.definitions == scope.definitions + NameSet(op.results) + Elements(RegionResultNames(op.regions))
  {
    hide VerifyRegions, DefineResults, RegionContractHolds, MemoryContractHolds, CheckYield, RegionResultNames, Bind;
    OperationScoped(op, last, scope, slots);
    NamesOf(op.results);
    hide ScopedOperation;
    var a, b := Names(op.results), RegionResultNames(op.regions);
    assert Elements(a + b) == Elements(a) + Elements(b);
  }

  // ----- whole programs -----

  /** The types visible when the operations have run. */
  ghost function VisibleAfter(ops: seq<Operation>, visible: map<string, Type>): map<string, Type> {
    if ops == [] then visible else VisibleAfter(ops[1..], Bind(visible, ops[0].results))
  }

  /** The extent is the name, or an expression with the name in it. */
  predicate Mentions(dim: Dim, name: string) {
    match dim
    case Fixed(_) => false
    case Named(n) => n == name
    case Compound(_, names) => name in names
  }

  /** The symbols of a program are those it declares and those that an extent of an input or an output
      mentions. */
  lemma {:induction false} SymbolsExact(program: Program, x: string)
    ensures x in ProgramSymbols(program) <==>
        || x in program.symbols
        || exists v, dim :: (v in program.inputs || v in program.outputs) && dim in v.typ.shape && Mentions(dim, x)
  {
    assert forall dim: Dim :: x in DimNames(dim) <==> Mentions(dim, x);
    if v, dim :| (v in program.inputs || v in program.outputs) && dim in v.typ.shape && Mentions(dim, x) {
      assert v in program.inputs + program.outputs && x in DimNames(dim);
    }
  }

  /** Outputs: no name twice, each visible at the end and no mere symbol, each of a type that agrees. */
  ghost predicate OutputsFormed(program: Program, visible: map<string, Type>) {
    && DistinctNames(program.outputs)
    && forall v :: v in program.outputs ==>
         && v.name in visible && (v.name in ProgramSymbols(program) ==> v.name in NameSet(program.inputs))
         && Agree(v.typ, visible[v.name])
  }

  /** Inputs are visible with their types, symbols as indices where no input has their name. */
  ghost predicate EntryTypes(program: Program, visible: map<string, Type>) {
    && visible.Keys == NameSet(program.inputs) + ProgramSymbols(program)
    && (forall v :: v in program.inputs ==> visible[v.name] == v.typ)
    && forall x :: x in ProgramSymbols(program) && x !in NameSet(program.inputs) ==> visible[x] == INDEX
  }

  ghost predicate WellFormed(program: Program) {
    && |program.blocks| == 1 && DistinctNames(program.inputs)
    && forall visible | EntryTypes(program, visible) ::
         var block := program.blocks[0];
         && TypedBlock(block, visible, None)
         && NewBlock(block, visible.Keys, NameSet(program.inputs))
         && OutputsFormed(program, VisibleAfter(block.operations, Bind(visible, block.args)))
  }

  lemma {:induction false} BoundTypes(visible: map<string, Type>, values: seq<Value>)
    requires DistinctNames(values)
    ensures forall v :: v in values ==> v.name in Bind(visible, values) && Bind(visible, values)[v.name] == v.typ
    decreases |values|
  {
    if values != [] {
      var rest := values[1..];
      RestNew(values, {});
      BoundTypes(visible[values[0].name := values[0].typ], rest);
      forall v | v in values
        ensures v.name in Bind(visible, values) && Bind(visible, values)[v.name] == v.typ
      {
        if v !in rest {
          assert v == values[0] && v.name !in NameSet(rest);
        }
      }
    }
  }

  lemma {:induction false} EntryIs(program: Program, visible: map<string, Type>)
    requires DistinctNames(program.inputs)
    ensures EntryTypes(program, visible) <==> visible == EntryScope(program).visible
  {
    hide ProgramSymbols, Bind;
    var entry, inputs := EntryScope(program).visible, program.inputs;
    BoundTypes(map[], inputs);
    if EntryTypes(program, visible) {
      forall x | x in visible
        ensures visible[x] == entry[x]
      {
        if x in NameSet(inputs) {
          var v :| v in inputs && v.name == x;
        }
      }
    }
  }

  lemma {:induction false} OutputsExact(program: Program, outputs: seq<Value>, seen: set<string>,
          top: map<string, Type>)
    ensures VerifyOutputs(program, outputs, seen, top).Success? <==>
        && NewNames(outputs, seen)
        && forall v :: v in outputs ==>
             && v.name in top && (v.name in ProgramSymbols(program) ==> v.name in NameSet(program.inputs))
             && Agree(v.typ, top[v.name])
    decreases |outputs|
  {
    hide ProgramSymbols, Signature;
    if outputs != [] {
      var v, rest := outputs[0], outputs[1..];
      assert v in outputs && v.name in NameSet(outputs);
      RestNew(outputs, seen);
      OutputsExact(program, rest, seen + {v.name}, top);
      if VerifyOutputs(program, outputs, seen, top).Success? {
        NewFirst(outputs, seen);
        assert forall w :: w in outputs ==> w == v || w in rest;
      }
    }
  }

  lemma {:induction false} NewFirst(values: seq<Value>, taken: set<string>)
    requires values != [] && NewNames(values[1..], taken + {values[0].name}) && values[0].name !in taken
    ensures NewNames(values, taken)
  {
    var rest := values[1..];
    forall i, j | 0 <= i < j < |values|
      ensures values[i].name != values[j].name
    {
      assert values[j] == rest[j - 1] && rest[j - 1] in rest && rest[j - 1].name in NameSet(rest);
      if i > 0 {
        assert values[i] == rest[i - 1];
      }
    }
    forall v | v in values
      ensures v.name !in taken
    {
      if v in rest {
        assert v.name in NameSet(rest);
      }
    }
  }

  lemma {:induction false} FinallyTyped(ops: seq<Operation>, scope: Scope, slots: Option<seq<seq<Type>>>)
    requires VerifyOperations(ops, scope, slots).Success?
    ensures VerifyOperations(ops, scope, slots).value.visible == VisibleAfter(ops, scope.visible)
    decreases |ops|
  {
    hide VerifyOperation;
    if ops != [] {
      OperationNext(ops[0], |ops| == 1, scope, slots);
      FinallyTyped(ops[1..], VerifyOperation(ops[0], |ops| == 1, scope, slots).value, slots);
    }
  }

  /** The verifier accepts a program exactly if it is well formed: one block, distinct inputs, only
      new names, every use visible, every loop, branch, yield and memory operation formed as its
      kind demands, with types that go together pairwise, and outputs that agree with what is
      visible at the end. */
  lemma {:induction false} AcceptedExactly(program: Program)
    ensures VerifyProgram(program).Success? <==> WellFormed(program)
  {
    if |program.blocks| == 1 && DistinctNames(program.inputs) {
      hide VerifyOperations, TypedOperations, NewOperations, ProgramSymbols, NewNames, BindArguments, EntryTypes, Agree;
      var block, scope := program.blocks[0], EntryScope(program);
      forall visible: map<string, Type>
        ensures EntryTypes(program, visible) <==> visible == scope.visible
      {
        EntryIs(program, visible);
      }
      assert EntryTypes(program, scope.visible);
      BlockExact(block, scope, None, None);
      var top := VerifyBlock(block, scope, None);
      if top.Success? {
        ArgumentsBound(block.args, scope);
        FinallyTyped(block.operations, BindArguments(block.args, scope).value, None);
        OutputsExact(program, program.outputs, {}, top.value.visible);
        NothingTaken(program.outputs);
      }
    }
  }

  lemma {:induction false} NothingTaken(values: seq<Value>)
    ensures NewNames(values, {}) <==> DistinctNames(values)
  {
  }
}
