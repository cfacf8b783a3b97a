/** The kernel `c = a @ b` stored under a mask: accepted, clean, and changed by the pass. Over
    one-element arrays of 1 and a mask of 0 it leaves its output at 0, its replay writes 1. */
module MaskedKernel {
  import opened Wrappers
  import opened Ssa
  import opened VerifierSteps
  import opened Interpreter
  import opened Linalg
  import opened LaneReplay
  import opened Decomposition
  import opened DecompositionKeeps
  import opened SteadyRuns
  import opened MaskedReplay
  import opened ProgramReplay

  const TILE := Type(TensorKind, [Fixed(1), Fixed(1)], Some(Float(32)))
  const MASK := Type(ScalarKind, [], Some(Bool))
  const ONE: Matrix := Grid(1, 1, [[1]])
  const ZERO: Matrix := Grid(1, 1, [[0]])

  function Given(): seq<Value> {
    [Value("a", TILE), Value("b", TILE), Value("o", TILE), Value("m", MASK)]
  }

  function MatMulOp(): Operation {
    Operation(MatMul, ["a", "b"], [Value("%0", TILE)], NO_ATTRS, [])
  }

  function StoreOp(): Operation {
    Operation(Store, ["%0", "o", "m"], [], NO_ATTRS, [])
  }

  function Pair(): Single {
    Single([], MatMulOp(), [], StoreOp(), [])
  }

  function Masking(): Program {
    Program(Given(), [], [Block([], Pair().Code())], {})
  }

  function OneElement(): View {
    ViewRecord("o", ZERO, ZERO, ONE, 0)
  }

  function Start(): Env {
    map["a" := Tile(ONE), "b" := Tile(ONE), "o" := Ref("o"), "m" := Num(0)]
  }

  function Arrays(): Memory {
    map["o" := ZERO]
  }

  function Views(): map<string, View> {
    map["o" := OneElement()]
  }

  function Entry(): Scope {
    Scope(map["a" := TILE, "b" := TILE, "o" := TILE, "m" := MASK], {"a", "b", "o", "m"})
  }

  // ----- accepted -----

  lemma {:induction false} CodeIs()
    ensures Pair().Code() == [MatMulOp(), StoreOp()]
  {
  }

  lemma {:induction false} EntryIs()
    ensures EntryScope(Masking()) == Entry() && DistinctNames(Given()) && ProgramSymbols(Masking()) == {}
  {
    hide NameSet, Pair;
    BindIs();
    SymbolsAre();
    hide Bind, ProgramSymbols;
    var given := Given();
    assert given[0] in given && given[1] in given && given[2] in given && given[3] in given;
    assert NameSet(given) == Entry().definitions;
  }

  lemma {:induction false} BindIs()
    ensures Bind(map[], Given()) == Entry().visible
  {
    var given := Given();
    assert given[1..] == [given[1], given[2], given[3]] && given[1..][1..] == [given[2], given[3]];
    assert given[1..][1..][1..] == [given[3]] && given[1..][1..][1..][1..] == [];
    var a := map["a" := TILE];
    var b := a["b" := TILE];
    var o := b["o" := TILE];
    var m := o["m" := MASK];
    assert Bind(m, given[1..][1..][1..][1..]) == m && Bind(o, given[1..][1..][1..]) == m;
    assert Bind(b, given[1..][1..]) == m && Bind(a, given[1..]) == m;
  }

  lemma {:induction false} SymbolsAre()
    ensures ProgramSymbols(Masking()) == {}
  {
  }

  lemma {:induction false} OperationsVerify()
    ensures VerifyOperation(MatMulOp(), false, Entry(), None) == Success(Grown(Entry(), "%0", TILE))
    ensures VerifyOperation(StoreOp(), true, Grown(Entry(), "%0", TILE), None) == Success(Grown(Entry(), "%0", TILE))
    ensures VerifyOperations([MatMulOp(), StoreOp()], Entry(), None) == Success(Grown(Entry(), "%0", TILE))
  {
    var s, after := Entry(), Grown(Entry(), "%0", TILE);
    MatMulVerifies(s);
    StoreVerifies(StoreOp(), true, after, None);
    hide VerifyOperation, VerifyOperations;
    VerifyOne(StoreOp(), after, after, None);
    VerifyCons(MatMulOp(), [StoreOp()], s, after, None, Success(after));
    assert [MatMulOp()] + [StoreOp()] == [MatMulOp(), StoreOp()];
  }

  lemma {:induction false} MatMulVerifies(s: Scope)
    requires "a" in s.visible && "b" in s.visible && NewIn(s, "%0")
    ensures VerifyOperation(MatMulOp(), false, s, None) == Success(Grown(s, "%0", TILE))
  {
    var op := MatMulOp();
    DefinesOne(Value("%0", TILE), s);
    assert References(op) == ["a", "b"];
    var defined := s.definitions + {"%0"};
    assert VerifyRegions(op.regions, Scope(s.visible, defined), Slots(op, s.visible)) == Success(defined);
  }

  lemma {:induction false} Accepted()
    ensures VerifyProgram(Masking()).Success?
  {
    CodeIs();
    EntryIs();
    OperationsVerify();
    hide VerifyOperation, VerifyOperations, ProgramSymbols, EntryScope, DistinctNames;
    var block, s, after := Masking().blocks[0], Entry(), Grown(Entry(), "%0", TILE);
    assert BindArguments(block.args, s) == Success(s) && NameSet(block.args) == {};
    assert VerifyBlock(block, s, None) == Success(Scope(after.visible, after.definitions - {}));
  }

  // ----- clean -----

  lemma {:induction false} BodyParts()
    ensures
      var all := [MatMulOp(), StoreOp()];
      && ProductOf(all, "%0") == Some(MatMulOp()) && TransposeOf(all, "%0") == None
      && Dropped(MatMulOp(), all) && !Dropped(StoreOp(), all) && DroppedNames(all) == {"%0"}
  {
    var ops := [MatMulOp(), StoreOp()];
    assert ops[1..] == [StoreOp()] && ops[1..][1..] == [];
    assert ProductOf(ops[1..][1..], "%0") == None && TransposeOf(ops[1..][1..], "%0") == None;
    assert ProductOf(ops[1..], "%0") == None && TransposeOf(ops[1..], "%0") == None;
    assert IsProduct(MatMulOp()) && MatMulOp().results[0].name == "%0";
    assert Consumes(ops[1], "%0");
    assert Consumed(ops, "%0");
    assert forall op :: op in ops ==> op == MatMulOp() || op == StoreOp();
    assert MatMulOp() == ops[0] && MatMulOp() in ops && NameSet(MatMulOp().results) == {"%0"} by {
      assert Value("%0", TILE) in MatMulOp().results;
    }
  }

  lemma {:induction false} TypesHere()
    ensures StoreExtent(MatMulOp(), TypesAt(Masking())) == FromShape
  {
    CodeIs();
    var given, ops := Given(), [MatMulOp(), StoreOp()];
    InputTypes();
    assert ops[1..] == [StoreOp()] && ops[1..][1..] == [];
    var inputs := AddTypes(map[], given);
    assert AddTypes(inputs, []) == inputs;
    var one := MatMulOp().results;
    assert one[1..] == [];
    assert AddTypes(inputs, one) == inputs["%0" := TILE];
    assert MatMulOp().regions == [] && StoreOp().regions == [] && StoreOp().results == [];
    var types := inputs["%0" := TILE];
    assert TypesInOperations(ops, inputs) == types by {
      assert TypesInOperations(ops[1..][1..], types) == types;
      assert TypesInOperations(ops[1..], types) == types;
    }
    assert ProgramTypes(Masking()) == types;
    assert AddTypes(types, one) == types;
    assert AddResults(types, ops) == types by {
      assert AddResults(types, ops[1..][1..]) == types;
      assert AddResults(types, ops[1..]) == types;
    }
    assert TypesAt(Masking()) == types && types["a"] == TILE;
    assert MatMulOp().operands[0] == "a" && TILE.shape[1] == Fixed(1);
  }

  lemma {:induction false} InputTypes()
    ensures "a" in AddTypes(map[], Given()) && AddTypes(map[], Given())["a"] == TILE
  {
    var given := Given();
    assert given[1..] == [given[1], given[2], given[3]] && given[1..][1..] == [given[2], given[3]];
    assert given[1..][1..][1..] == [given[3]] && given[1..][1..][1..][1..] == [];
  }

  lemma {:induction false} StoreClean(types: map<string, Type>)
    requires StoreExtent(MatMulOp(), types) == FromShape
    ensures CleanOperation(StoreOp(), [MatMulOp(), StoreOp()], types, Grown(Entry(), "%0", TILE), {"%0"}, true)
  {
    BodyParts();
    hide Dropped, ProductOf, TransposeOf, DroppedNames;
    var op, s := StoreOp(), Grown(Entry(), "%0", TILE);
    assert op.operands[0] == "%0" && op.operands[1] == "o" && op.attrs.indices == [];
    assert MatMulOp().operands == ["a", "b"];
    assert s.visible.Keys == Entry().visible.Keys + {"%0"} && s.definitions == Entry().definitions + {"%0"};
  }

  lemma {:induction false} PairClean(types: map<string, Type>)
    requires StoreExtent(MatMulOp(), types) == FromShape
    ensures
      var all := [MatMulOp(), StoreOp()];
      CleanOperations(all, all, types, Entry(), None, {"%0"}, true)
  {
    BodyParts();
    OperationsVerify();
    StoreClean(types);
    FlagIrrelevant(MatMulOp(), Entry(), None);
    hide VerifyOperation, VerifyOperations, StoreExtent, Entry, ProductOf, TransposeOf, Dropped, MatMulOp, StoreOp;
    var all, s := [MatMulOp(), StoreOp()], Entry();
    assert all[1..] == [StoreOp()] && all[1..][1..] == [];
    assert CleanOperation(MatMulOp(), all, types, s, {"%0"}, true);
    hide CleanOperation;
    assert CleanOperations(all[1..], all, types, Grown(s, "%0", TILE), None, {"%0"}, true);
  }

  lemma {:induction false} FlatClean(program: Program, ops: seq<Operation>)
    requires program.blocks == [Block([], ops)] && program.outputs == [] && ProgramSymbols(program) == {}
    requires CleanOperations(ops, ops, TypesAt(program), EntryScope(program), None, DroppedNames(ops), true)
    ensures CleanProgram(program)
  {
    hide CleanOperations, ProgramSymbols, EntryScope, DroppedNames, ProgramTypes, BlockTypes;
    var block, s := program.blocks[0], EntryScope(program);
    assert BindArguments(block.args, s) == Success(s) && BlockGone(block, {}) == DroppedNames(ops);
  }

  lemma {:induction false} Clean()
    ensures CleanProgram(Masking())
  {
    hide CleanOperations, ProgramSymbols, EntryScope, DroppedNames, StoreExtent, Entry, ProductOf, TransposeOf, Dropped,
        TypesAt, CleanProgram;
    CodeIs();
    EntryIs();
    BodyParts();
    TypesHere();
    PairClean(TypesAt(Masking()));
    FlatClean(Masking(), [MatMulOp(), StoreOp()]);
  }

  // ----- run -----

  lemma {:induction false} Mask() returns (mask: Matrix)
    ensures mask.rows == 1 && mask.cols == 1 && At(mask, 0, 0) == 0
    ensures forall env: Env :: "m" in env && env["m"] == Num(0) ==>
        MaskedStore(StoreOp(), "%0", "o", env, Arrays(), Views(), mask)
  {
    var view := OneElement();
    forall a: Lane, b: Lane | InView(view, a) && InView(view, b)
      ensures a == b
    {
      assert a == (0, 0) && b == (0, 0);
    }
    mask := Broadcast(Num(0), 1, 1).value;
    assert MaskOf([Num(0), Num(0), Num(0)], 1, 1, Context(Views(), None), Arrays()) == Success(mask);
  }

  lemma {:induction false} Misses(mask: Matrix)
    requires mask.rows == 1 && mask.cols == 1 && At(mask, 0, 0) == 0
    ensures AccessHolds(OneElement(), ZERO) && Product(ONE, ONE).rows == 1 && Product(ONE, ONE).cols == 1
    ensures !AlreadyHolds(OneElement(), ZERO, Product(ONE, ONE), mask)
  {
    var lane: Lane := (0, 0);
    assert At(Product(ONE, ONE), 0, 0) == DotPrefix(ONE, ONE, 0, 0, 1) == DotPrefix(ONE, ONE, 0, 0, 0) + 1;
    assert InView(OneElement(), lane) && Rejected(OneElement(), mask, lane);
  }

  function Reached(): Stops {
    Stops(Start(), Start()["%0" := Tile(Product(ONE, ONE))], ONE, ONE)
  }

  lemma {:induction false} PairIs()
    ensures OneProduct(Pair()) && Hidden(Pair()) == {"%0", "o"}
    ensures OutputIs(Pair(), "o", Start(), Arrays(), Views())
  {
    assert Shadows(Start(), Start(), {"%0", "o"}, "o", Views());
  }

  lemma {:induction false} RunReaches()
    requires OneProduct(Pair())
    ensures Reaches(Pair(), Start(), Arrays(), Views(), Reached())
  {
    hide Product;
  }

  lemma {:induction false} Fitting(extent: Extent)
    requires OneProduct(Pair()) && Reaches(Pair(), Start(), Arrays(), Views(), Reached()) && extent == FromShape
    ensures forall p: Stops :: Reaches(Pair(), Start(), Arrays(), Views(), p) ==> Fits(OneElement(), extent, p)
  {
    hide Reaches, Product;
    forall p: Stops | Reaches(Pair(), Start(), Arrays(), Views(), p)
      ensures Fits(OneElement(), extent, p)
    {
      SameStops(Pair(), Start(), Arrays(), Views(), Reached(), p);
    }
  }

  lemma {:induction false} Runs(mask: Matrix)
    requires MaskedStore(StoreOp(), "%0", "o", Start(), Arrays(), Views(), mask)
    ensures ExecOperations([MatMulOp(), StoreOp()], Start(), Arrays(), Context(Views(), None)).Success?
  {
    hide ExecOperations, Compute, Product, MaskedStore;
    var env, ctx := Start(), Context(Views(), None);
    Lookup2("a", "b", env);
    MatMulComputes(MatMulOp(), env["a"], env["b"], ONE, ONE, ctx, Arrays());
    ExecEmit(MatMulOp(), [StoreOp()], [env["a"], env["b"]], Tile(Product(ONE, ONE)), env, Arrays(), ctx);
    assert [MatMulOp()] + [StoreOp()] == [MatMulOp(), StoreOp()];
    MaskedStoreRuns(StoreOp(), "%0", Product(ONE, ONE), "o", env, Arrays(), Views(), mask);
  }

  /** The program is accepted and clean; run over whole tiles it leaves the output at 0, and what the
      pass makes of it leaves 1. */
  lemma {:induction false} MaskedInput()
    ensures VerifyProgram(Masking()).Success? && CleanProgram(Masking())
    ensures
      var whole := ExecOperations(Masking().blocks[0].operations, Start(), Arrays(), Context(Views(), None));
      var replayed := RunLanes(DecomposeProgram(Masking()).blocks[0].operations, Start(), Arrays(), Views(),
          OneElement(), Lanes(OneElement()));
      whole.Success? && replayed.Success? && replayed.value != whole.value.mem
  {
    hide VerifyProgram, CleanProgram, OneProduct, Reaches, ExecOperations, RunLanes, Lanes, AlreadyHolds, Product,
        MaskedStore, StoreExtent, TypesAt, OutputIs, AccessHolds, EntryScope, DecomposeProgram, Fits, Masking, Pair,
        Start, Arrays, Views, OneElement, MatMulOp, StoreOp, Reached, Entry;
    CodeIs();
    Accepted();
    Clean();
    EntryIs();
    PairIs();
    RunReaches();
    TypesHere();
    Fitting(FromShape);
    MatchesEntry();
    var mask := Mask();
    Runs(mask);
    Misses(mask);
    assert Admissible(Masking(), Pair(), "o", Start(), Arrays(), Views());
    assert ProductFits(Masking(), Pair(), "o", Start(), Arrays(), Views());
    MaskedProgramExact(Masking(), Pair(), "o", Start(), Arrays(), Views(), Reached(), mask);
  }

  lemma {:induction false} MatchesEntry()
    ensures Start().Keys == Entry().visible.Keys && Pair().store == StoreOp() && Pair().matmul == MatMulOp()
    ensures StoreOp().operands == ["%0", "o", "m"] && Masking().blocks == [Block([], Pair().Code())]
    ensures "m" in Reached().store && Reached().store["m"] == Num(0) && "m" in Start() && Start()["m"] == Num(0)
    ensures Views().Keys == {"o"} && Views()["o"] == OneElement() && OneElement().storage == "o"
    ensures Arrays().Keys == {"o"} && Arrays()["o"] == ZERO && Reached().a == ONE && Reached().b == ONE
  {
  }
}
