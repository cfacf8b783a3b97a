/** A kernel whose rewriting the verifier refuses: `for kk in range(n, n, n): c = a @ a`. With
    another induction name, other than that of the accumulator, it is accepted. */
module HardCodedInput {
  import opened Wrappers
  import opened Ssa
  import opened VerifierSteps
  import opened Linalg
  import opened Decomposition
  import opened DecompositionValid
  import opened DecompositionKeeps
  import opened DecompositionExact

  const TILE := Type(TensorKind, [Fixed(4), Fixed(4)], Some(Float(32)))

  function Given(): seq<Value> {
    [Value("a", TILE), Value("c", TILE), Value("n", SCALAR_INT)]
  }

  function MatMulOp(): Operation {
    Operation(MatMul, ["a", "a"], [Value("%0", TILE)], NO_ATTRS, [])
  }

  function StoreOp(): Operation {
    Operation(Store, ["%0", "c"], [], NO_ATTRS, [])
  }

  function YieldOp(): Operation {
    Operation(Yield, [], [], NO_ATTRS, [])
  }

  function Body(): seq<Operation> {
    [MatMulOp(), StoreOp(), YieldOp()]
  }

  function Loop(x: string): Operation {
    Operation(For, ["n", "n", "n"], [], NO_ATTRS.(induction := x), [Block([Value(x, INDEX)], Body())])
  }

  function Looped(x: string): Program {
    Program(Given(), [], [Block([], [Loop(x)])], {})
  }

  predicate Other(x: string) {
    x != "a" && x != "c" && x != "n" && x != "%0"
  }

  function Entry(): Scope {
    Scope(map["a" := TILE, "c" := TILE, "n" := SCALAR_INT], {"a", "c", "n"})
  }

  function Within(x: string): Scope {
    Scope(Entry().visible[x := INDEX], Entry().definitions + {x})
  }

  lemma {:induction false} EntryIs(x: string)
    ensures EntryScope(Looped(x)) == Entry() && DistinctNames(Given()) && ProgramSymbols(Looped(x)) == {}
  {
    BindIs();
    SymbolsAre(x);
    hide Bind, ProgramSymbols;
    var given := Given();
    assert given[0] in given && given[1] in given && given[2] in given;
    assert NameSet(given) == Entry().definitions;
  }

  lemma {:induction false} BindIs()
    ensures Bind(map[], Given()) == Entry().visible
  {
    var given := Given();
    assert given[1..] == [given[1], given[2]] && given[1..][1..] == [given[2]] && given[1..][1..][1..] == [];
    var a := map["a" := TILE];
    var both := a["c" := TILE];
    var all := both["n" := SCALAR_INT];
    assert Bind(all, given[1..][1..][1..]) == all && Bind(both, given[1..][1..]) == all && Bind(a, given[1..]) == all;
  }

  lemma {:induction false} SymbolsAre(x: string)
    ensures ProgramSymbols(Looped(x)) == {}
  {
  }

  /** The body verifies inside the loop. */
  lemma {:induction false} BodyVerifies(x: string)
    requires Other(x)
    ensures VerifyOperation(MatMulOp(), false, Within(x), Some([])) == Success(Grown(Within(x), "%0", TILE))
    ensures VerifyOperation(StoreOp(), false, Grown(Within(x), "%0", TILE), Some([])) ==
        Success(Grown(Within(x), "%0", TILE))
    ensures VerifyOperation(YieldOp(), true, Grown(Within(x), "%0", TILE), Some([])) ==
        Success(Grown(Within(x), "%0", TILE))
    ensures VerifyOperations(Body(), Within(x), Some([])) == Success(Grown(Within(x), "%0", TILE))
  {
    var s, after := Within(x), Grown(Within(x), "%0", TILE);
    MatMulVerifies(s);
    StoreVerifies(StoreOp(), false, after, Some([]));
    EmptyYield(after);
    hide VerifyOperation, VerifyOperations;
    VerifyOne(YieldOp(), after, after, Some([]));
    VerifyCons(StoreOp(), [YieldOp()], after, after, Some([]), Success(after));
    VerifyCons(MatMulOp(), [StoreOp()] + [YieldOp()], s, after, Some([]), Success(after));
    assert [MatMulOp()] + ([StoreOp()] + [YieldOp()]) == Body();
  }

  lemma {:induction false} MatMulVerifies(s: Scope)
    requires "a" in s.visible && NewIn(s, "%0")
    ensures VerifyOperation(MatMulOp(), false, s, Some([])) == Success(Grown(s, "%0", TILE))
  {
    var op := MatMulOp();
    DefinesOne(Value("%0", TILE), s);
    assert References(op) == ["a", "a"];
    var defined := s.definitions + {"%0"};
    assert VerifyRegions(op.regions, Scope(s.visible, defined), Slots(op, s.visible)) == Success(defined);
  }

  lemma {:induction false} EmptyYield(s: Scope)
    ensures VerifyOperation(YieldOp(), true, s, Some([])) == Success(s)
  {
    var op := YieldOp();
    assert References(op) == [] && CheckYield(op, true, s.visible, Some([])) == Success(());
    assert VerifyRegions(op.regions, s, Slots(op, s.visible)) == Success(s.definitions);
    assert DefineResults(op.results, s.visible, s.definitions) == Success(s.definitions);
    assert Bind(s.visible, op.results) == s.visible;
  }

  lemma {:induction false} RegionBinds(x: string)
    requires Other(x)
    ensures BindArguments([Value(x, INDEX)], Entry()) == Success(Within(x)) && NameSet([Value(x, INDEX)]) == {x}
  {
    var args := [Value(x, INDEX)];
    assert args[1..] == [] && args[0] in args && Entry().definitions == Entry().visible.Keys;
    assert BindArguments(args[1..], Within(x)) == Success(Within(x));
  }

  lemma {:induction false} LoopContract(x: string)
    requires Other(x)
    ensures Contracted(Loop(x), Entry()) && Slots(Loop(x), Entry().visible) == []
    ensures References(Loop(x)) == ["n", "n", "n"]
    ensures forall name :: name in Loop(x).operands ==> name in References(Loop(x)) && name in Entry().visible
    ensures MemoryContractHolds(Loop(x), Entry().visible)
  {
    var op := Loop(x);
    assert op.operands == ["n", "n", "n"] && op.regions[0].operations[2] == YieldOp();
    assert Slots(op, Entry().visible) == [];
  }

  lemma {:induction false} RegionVerifies(x: string)
    requires Other(x)
    ensures VerifyBlock(Loop(x).regions[0], Entry(), Some([])) ==
        Success(Scope(Grown(Within(x), "%0", TILE).visible, Entry().definitions + {"%0"}))
  {
    hide VerifyOperations, BindArguments, Body;
    BodyVerifies(x);
    RegionBinds(x);
    assert Grown(Within(x), "%0", TILE).definitions - {x} == Entry().definitions + {"%0"};
  }

  lemma {:induction false} LoopVerifies(x: string)
    requires Other(x)
    ensures VerifyBlock(Loop(x).regions[0], Entry(), Some([])).Success?
    ensures VerifyOperation(Loop(x), true, Entry(), None) ==
        Success(Scope(Entry().visible, Entry().definitions + {"%0"}))
  {
    hide VerifyOperations, BindArguments, RegionContractHolds, Slots, References, MemoryContractHolds, Body,
        VerifyBlock, Entry, Other;
    var op, s := Loop(x), Entry();
    RegionVerifies(x);
    LoopContract(x);
    assert op.regions[1..] == [];
    assert VerifyRegions(op.regions[1..], Scope(s.visible, s.definitions + {"%0"}), []) ==
        Success(s.definitions + {"%0"});
    assert VerifyRegions(op.regions, s, []) == Success(s.definitions + {"%0"});
    assert DefineResults(op.results, s.visible, s.definitions) == Success(s.definitions);
    assert Bind(s.visible, op.results) == s.visible;
    hide VerifyRegions, DefineResults, Bind;
    assert !op.opcode.Yield? && s == Scope(s.visible, s.definitions);
  }

  lemma {:induction false} LoopAccepted(x: string)
    requires Other(x)
    ensures VerifyProgram(Looped(x)).Success?
  {
    LoopVerifies(x);
    EntryIs(x);
    hide VerifyOperation, VerifyOperations, ProgramSymbols, EntryScope, DistinctNames, Loop;
    var program, s, after := Looped(x), Entry(), Scope(Entry().visible, Entry().definitions + {"%0"});
    VerifyOne(Loop(x), s, after, None);
    var block := program.blocks[0];
    assert BindArguments(block.args, s) == Success(s) && NameSet(block.args) == {};
    assert VerifyBlock(block, s, None) == Success(Scope(after.visible, after.definitions - {}));
  }

  // ----- clean but for the names -----

  lemma {:induction false} BodyParts()
    ensures ProductOf(Body(), "%0") == Some(MatMulOp()) && TransposeOf(Body(), "%0") == None
    ensures Dropped(MatMulOp(), Body()) && !Dropped(StoreOp(), Body()) && !Dropped(YieldOp(), Body())
    ensures DroppedNames(Body()) == {"%0"}
  {
    var ops := Body();
    assert ops[1..] == [StoreOp(), YieldOp()] && ops[1..][1..] == [YieldOp()] && ops[1..][1..][1..] == [];
    assert ProductOf(ops[1..][1..][1..], "%0") == None && TransposeOf(ops[1..][1..][1..], "%0") == None;
    assert ProductOf(ops[1..][1..], "%0") == None && TransposeOf(ops[1..][1..], "%0") == None;
    assert ProductOf(ops[1..], "%0") == None && TransposeOf(ops[1..], "%0") == None;
    assert IsProduct(MatMulOp()) && MatMulOp().results[0].name == "%0";
    assert Consumes(ops[1], "%0");
    assert Consumed(ops, "%0");
    assert forall op :: op in ops ==> op == MatMulOp() || op == StoreOp() || op == YieldOp();
    assert MatMulOp() == ops[0] && MatMulOp() in ops && NameSet(MatMulOp().results) == {"%0"} by {
      assert Value("%0", TILE) in MatMulOp().results;
    }
  }

  /** The product's extent is read from its left operand's shape. */
  lemma {:induction false} ExtentIs(types: map<string, Type>)
    requires "a" in types && types["a"] == TILE
    ensures StoreExtent(MatMulOp(), types) == FromShape
  {
    assert MatMulOp().operands[0] == "a" && TILE.shape[1] == Fixed(4);
  }

  lemma {:induction false} BodyClean(x: string, types: map<string, Type>, named: bool)
    requires Other(x) && "a" in types && types["a"] == TILE
    ensures CleanOperations(Body(), Body(), types, Within(x), Some([]), {"%0"}, named) <==> (named ==> x !in HARD)
  {
    BodyVerifies(x);
    BodyParts();
    ExtentIs(types);
    var all, s, after := Body(), Within(x), Grown(Within(x), "%0", TILE);
    var store, tail := all[1..], all[1..][1..];
    assert store[0] == StoreOp() && tail[0] == YieldOp() && tail[1..] == [];
    StoreClean(x, types, named);
    YieldClean(types, after, named);
    hide VerifyOperation, CleanOperation, Body;
    assert CleanOperations(tail[1..], all, types, after, Some([]), {"%0"}, named);
    assert CleanOperations(tail, all, types, after, Some([]), {"%0"}, named);
    assert CleanOperation(MatMulOp(), all, types, s, {"%0"}, named) by {
      DroppedClean(MatMulOp(), all, types, s, named);
    }
    FlagIrrelevant(StoreOp(), after, Some([]));
    FlagIrrelevant(MatMulOp(), s, Some([]));
  }

  lemma {:induction false} DroppedClean(op: Operation, all: seq<Operation>, types: map<string, Type>, s: Scope,
          named: bool)
    requires Dropped(op, all)
    ensures CleanOperation(op, all, types, s, {"%0"}, named)
  {
  }

  lemma {:induction false} StoreClean(x: string, types: map<string, Type>, named: bool)
    requires Other(x) && StoreExtent(MatMulOp(), types) == FromShape
    requires ProductOf(Body(), "%0") == Some(MatMulOp()) && TransposeOf(Body(), "%0") == None
    requires !Dropped(StoreOp(), Body())
    ensures CleanOperation(StoreOp(), Body(), types, Grown(Within(x), "%0", TILE), {"%0"}, named) <==>
        (named ==> x !in HARD)
  {
    hide Dropped, ProductOf, TransposeOf;
    var op, s := StoreOp(), Grown(Within(x), "%0", TILE);
    assert op.operands[0] == "%0" && op.operands[1] == "c" && op.attrs.indices == [];
    assert MatMulOp().operands == ["a", "a"];
    assert s.visible.Keys == Entry().visible.Keys + {x, "%0"} && s.definitions == Entry().definitions + {x, "%0"};
  }

  lemma {:induction false} YieldClean(types: map<string, Type>, s: Scope, named: bool)
    requires !Dropped(YieldOp(), Body())
    ensures CleanOperation(YieldOp(), Body(), types, s, {"%0"}, named)
  {
    hide Dropped;
    assert References(YieldOp()) == [];
  }

  lemma {:induction false} NothingDropped(x: string)
    ensures !Dropped(Loop(x), [Loop(x)]) && DroppedNames([Loop(x)]) == {}
  {
  }

  lemma {:induction false} ProgramClean(x: string, named: bool)
    requires Other(x)
    ensures NearlyClean(Looped(x), named) <==> (named ==> x !in HARD)
  {
    hide CleanOperation, CleanOperations, VerifyOperation, DroppedNames, ProgramTypes, BlockTypes, ProgramSymbols,
        EntryScope, Loop, Entry, Dropped, Other, CleanBlock;
    var program, s := Looped(x), Entry();
    var block, types := program.blocks[0], ProgramTypes(program);
    var outer := BlockTypes(block, types);
    EntryIs(x);
    LoopVerifies(x);
    NothingDropped(x);
    TypesHere(x);
    LoopClean(x, outer, named);
    OneClean(Loop(x), outer, s, Scope(s.visible, s.definitions + {"%0"}), named);
    TopClean(block, Loop(x), types, s, named);
    assert program.outputs == [] && ProgramSymbols(program) == {};
  }

  lemma {:induction false} TopClean(block: Block, op: Operation, types: map<string, Type>, s: Scope, named: bool)
    requires block == Block([], [op]) && DroppedNames([op]) == {}
    ensures CleanBlock(block, types, s, None, {}, named) <==>
        CleanOperations([op], [op], BlockTypes(block, types), s, None, {}, named)
  {
    hide CleanOperations, BlockTypes, DroppedNames;
    assert BindArguments(block.args, s) == Success(s) && BlockGone(block, {}) == {};
  }

  lemma {:induction false} OneClean(op: Operation, types: map<string, Type>, s: Scope, t: Scope, named: bool)
    requires VerifyOperation(op, true, s, None) == Success(t)
    ensures CleanOperations([op], [op], types, s, None, {}, named) <==> CleanOperation(op, [op], types, s, {}, named)
  {
    hide VerifyOperation, CleanOperation;
    var ops := [op];
    assert ops[1..] == [];
  }

  lemma {:induction false} LoopClean(x: string, outer: map<string, Type>, named: bool)
    requires Other(x) && !Dropped(Loop(x), [Loop(x)])
    requires
      var types := BlockTypes(Loop(x).regions[0], outer);
      "a" in types && types["a"] == TILE
    ensures CleanOperation(Loop(x), [Loop(x)], outer, Entry(), {}, named) <==> (named ==> x !in HARD)
  {
    hide StoreExtent, MatMulOp, StoreOp, Consumed, VerifyOperations;
    var op, region := Loop(x), Loop(x).regions[0];
    LoopContract(x);
    LoopVerifies(x);
    RegionBinds(x);
    BodyParts();
    BodyClean(x, BlockTypes(region, outer), named);
    hide VerifyBlock, CleanOperations, Dropped, DroppedNames, BlockTypes, Body, BindArguments, Slots, References,
        RegionContractHolds, VerifyOperation, ProductOf, TransposeOf, Within;
    assert Around(op, Entry()) == Entry();
    assert op.regions[1..] == [] && BlockGone(region, {}) == {"%0"};
    hide Entry;
    assert CleanBlock(region, outer, Entry(), Some([]), {}, named) <==> (named ==> x !in HARD);
    hide CleanBlock;
    assert CleanRegions(op.regions, outer, Entry(), [], {}, named) <==> (named ==> x !in HARD);
  }

  /** The left operand keeps its type all the way in. */
  lemma {:induction false} TypesHere(x: string)
    requires Other(x)
    ensures
      var types := BlockTypes(Loop(x).regions[0], BlockTypes(Looped(x).blocks[0], ProgramTypes(Looped(x))));
      "a" in types && types["a"] == TILE
  {
    var given := Given();
    assert given[1..] == [given[1], given[2]] && given[1..][1..] == [given[2]] && given[1..][1..][1..] == [];
    var inputs := AddTypes(map[], given);
    assert inputs == map["a" := TILE]["c" := TILE]["n" := SCALAR_INT];
    assert AddTypes(inputs, []) == inputs;
    BodyTypesKeep(x, inputs);
    InnerTypes(x, TypesInBlock(Looped(x).blocks[0], inputs));
  }

  lemma {:induction false} AddsOne(types: map<string, Type>, v: Value)
    ensures AddTypes(types, [v]) == types[v.name := v.typ] && AddTypes(types, []) == types
  {
    var one := [v];
    assert one[1..] == [];
  }

  lemma {:induction false} BodyTypesKeep(x: string, types: map<string, Type>)
    requires Other(x) && "a" in types && types["a"] == TILE
    ensures
      var r := TypesInBlock(Looped(x).blocks[0], types);
      "a" in r && r["a"] == TILE
  {
    var block, loop, region, body := Looped(x).blocks[0], Loop(x), Loop(x).regions[0], Body();
    var ops := block.operations;
    assert ops[0] == loop && ops[1..] == [] && loop.regions[1..] == [];
    assert body[1..] == [StoreOp(), YieldOp()] && body[1..][1..] == [YieldOp()] && body[1..][1..][1..] == [];
    var entered := types[x := INDEX];
    var defined := entered["%0" := TILE];
    AddsOne(types, Value(x, INDEX));
    AddsOne(entered, Value("%0", TILE));
    assert AddTypes(defined, []) == defined && TypesInRegions([], defined) == defined;
    assert TypesInOperations(body[1..][1..][1..], defined) == defined;
    assert TypesInOperations(body[1..][1..], defined) == defined;
    assert TypesInOperations(body[1..], defined) == defined;
    assert TypesInRegions([], defined) == defined && MatMulOp().regions == [];
    assert TypesInOperations(body, entered) == defined;
    assert TypesInBlock(region, types) == defined;
    assert TypesInRegions(loop.regions, types) == defined;
    assert AddTypes(types, []) == types && TypesInOperations(ops[1..], defined) == defined;
    assert TypesInOperations(ops, types) == defined;
  }

  lemma {:induction false} InnerTypes(x: string, types: map<string, Type>)
    requires Other(x) && "a" in types && types["a"] == TILE
    ensures
      var r := BlockTypes(Loop(x).regions[0], BlockTypes(Looped(x).blocks[0], types));
      "a" in r && r["a"] == TILE
  {
    var block, region, body := Looped(x).blocks[0], Loop(x).regions[0], Body();
    var ops := block.operations;
    AddsOne(types, Value(x, INDEX));
    assert ops[1..] == [] && AddResults(types, ops[1..]) == types && ops[0].results == [];
    assert BlockTypes(block, types) == types;
    assert body[1..] == [StoreOp(), YieldOp()] && body[1..][1..] == [YieldOp()] && body[1..][1..][1..] == [];
    var entered := types[x := INDEX];
    var defined := entered["%0" := TILE];
    AddsOne(entered, Value("%0", TILE));
    AddsOne(defined, Value("%0", TILE));
    assert AddResults(defined, body[1..][1..][1..]) == defined && AddResults(defined, body[1..][1..]) == defined;
    assert AddResults(defined, body[1..]) == defined && AddResults(entered, body) == defined;
  }

  /** The pass removes the product only. */
  lemma {:induction false} OnlyProductRemoved(x: string)
    ensures Removed([Loop(x)], [Loop(x)]) == {"%0"}
  {
    var ops, body := [Loop(x)], Body();
    NothingDropped(x);
    BodyParts();
    assert ops[1..] == [] && Loop(x).regions[1..] == [];
    assert body[1..] == [StoreOp(), YieldOp()] && body[1..][1..] == [YieldOp()] && body[1..][1..][1..] == [];
    assert body[1..][0] == StoreOp() && body[1..][1..][0] == YieldOp();
    hide Dropped, Body;
    assert Removed(body[1..][1..], body) == {} && Removed(body[1..], body) == {};
    assert NameSet(MatMulOp().results) == {"%0"} by {
      assert Value("%0", TILE) in MatMulOp().results;
    }
    assert Removed(body, body) == {"%0"};
  }

  /** The loop is accepted whatever its induction value is called, and what the pass makes of it
      is accepted unless that is one of the two names. */
  lemma {:induction false} InductionNamedHard(x: string)
    requires Other(x)
    ensures VerifyProgram(Looped(x)).Success?
    ensures VerifyProgram(DecomposeProgram(Looped(x))).Success? <==> x != KK && x != ACC_ITER
  {
    LoopAccepted(x);
    ProgramClean(x, false);
    ProgramClean(x, true);
    OnlyProductRemoved(x);
    hide VerifyProgram, DecomposeProgram, NearlyClean, Removed;
    assert Looped(x).blocks[0].operations == [Loop(x)];
    DecompositionValidExactly(Looped(x));
  }
}
