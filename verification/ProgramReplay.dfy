/** Replaying a whole rewritten program: code that stores nothing, a product, its store, and code
    that stores nothing. Every live lane runs all of it again, and the lanes together leave what
    the one run over whole tiles leaves. */
module ProgramReplay {
  import opened Wrappers
  import opened Ssa
  import opened Interpreter
  import opened Scoping
  import opened Lowering
  import opened Linalg
  import opened LaneReplay
  import opened Decomposition
  import opened DecompositionKeeps
  import opened SteadyRuns
  import opened MaskedReplay

  /** The code of a program with one product and one store, which consumes it. */
  datatype Single = Single(before: seq<Operation>, matmul: Operation, between: seq<Operation>, store: Operation,
      after: seq<Operation>)
  {
    function Code(): seq<Operation> {
      before + ([matmul] + (between + ([store] + after)))
    }
  }

  ghost predicate OneProduct(s: Single) {
    && ClosesMatMul(s.matmul, s.store)
    && |s.store.operands| in {2, 3} && s.store.results == [] && s.store.attrs.indices == []
    && s.store.attrs.decomposition == NotDecomposed
    && s.store.operands[1] !in s.matmul.operands
    && Quiet(s.before, Hidden(s)) && Quiet(s.between, Hidden(s)) && Quiet(s.after, Hidden(s))
  }

  /** The product and the output: only the store may use them. */
  function Hidden(s: Single): set<string>
    requires ClosesMatMul(s.matmul, s.store)
  {
    {s.matmul.results[0].name, s.store.operands[1]}
  }

  ghost predicate NotBound(ops: seq<Operation>, x: string) {
    forall op :: op in ops ==> x !in NameSet(op.results)
  }

  // ----- names -----

  lemma {:induction false} ResultsNew(ops: seq<Operation>, visible: set<string>, x: string)
    requires ScopedOperations(ops, visible) && x in visible
    ensures NotBound(ops, x)
    decreases |ops|
  {
    hide ScopedOperation;
    if ops != [] {
      ResultsAreNew(ops[0], visible);
      ResultsNew(ops[1..], visible + NameSet(ops[0].results), x);
    }
  }

  lemma {:induction false} NotYetBound(ops: seq<Operation>, visible: set<string>, x: string)
    requires x !in FinallyVisible(ops, visible)
    ensures NotBound(ops, x) && x !in visible
    decreases |ops|
  {
    if ops != [] {
      NotYetBound(ops[1..], visible + NameSet(ops[0].results), x);
    }
  }

  lemma {:induction false} TopHasNoYield(ops: seq<Operation>, s: Scope)
    requires VerifyOperations(ops, s, None).Success?
    ensures NoYield(ops)
    decreases |ops|
  {
    hide VerifyRegions, RegionContractHolds, MemoryContractHolds, Slots;
    if ops != [] {
      TopHasNoYield(ops[1..], VerifyOperation(ops[0], |ops| == 1, s, None).value);
    }
  }

  /** What is not rebound keeps its value, and nothing but results is bound. */
  lemma {:induction false} BindingStays(ops: seq<Operation>, env: Env, mem: Memory, ctx: Context, x: string)
    requires NotBound(ops, x) && ExecOperations(ops, env, mem, ctx).Success?
    ensures
      var after := ExecOperations(ops, env, mem, ctx).value.env;
      (x in env <==> x in after) && (x in env ==> after[x] == env[x])
    decreases |ops|
  {
    hide ExecOperation;
    if ops != [] && !ops[0].opcode.Yield? {
      var done := ExecOperation(ops[0], env, mem, ctx).value;
      assert ops[0] in ops;
      BindingStays(ops[1..], BindValues(ops[0].results, done.0, env), done.1, ctx, x);
    }
  }

  lemma {:induction false} KeysFinally(ops: seq<Operation>, env: Env, mem: Memory, ctx: Context, visible: set<string>)
    requires env.Keys <= visible && ExecOperations(ops, env, mem, ctx).Success?
    ensures ExecOperations(ops, env, mem, ctx).value.env.Keys <= FinallyVisible(ops, visible)
    decreases |ops|
  {
    hide ExecOperation;
    if ops != [] {
      if ops[0].opcode.Yield? {
        VisibleGrows(ops, visible);
      } else {
        var done := ExecOperation(ops[0], env, mem, ctx).value;
        KeysFinally(ops[1..], BindValues(ops[0].results, done.0, env), done.1, ctx, visible + NameSet(ops[0].results));
      }
    }
  }

  // ----- what the pass makes of the code -----

  lemma {:induction false} QuietIsNotStore(ops: seq<Operation>, hidden: set<string>, op: Operation)
    requires Quiet(ops, hidden) && op in ops
    ensures QuietOperation(op, hidden) && !op.opcode.Store?
    decreases |ops|
  {
    if op != ops[0] {
      QuietIsNotStore(ops[1..], hidden, op);
    }
  }

  lemma {:induction false} QuietConsumesNothing(ops: seq<Operation>, hidden: set<string>, name: string)
    requires Quiet(ops, hidden)
    ensures !Consumed(ops, name)
  {
    forall i | 0 <= i < |ops|
      ensures !Consumes(ops[i], name)
    {
      QuietIsNotStore(ops, hidden, ops[i]);
    }
  }

  /** Code that stores nothing is left as it is. */
  lemma {:induction false} QuietKept(ops: seq<Operation>, all: seq<Operation>, types: map<string, Type>, taken: Fresh,
          hidden: set<string>)
    requires Quiet(ops, hidden) && forall op :: op in ops ==> !Dropped(op, all)
    ensures DecomposeOperations(ops, all, types, taken) == (ops, taken)
    decreases ops, 0
  {
    hide Dropped;
    if ops != [] {
      var op := ops[0];
      assert op in ops;
      RegionsKept(op.regions, types, taken.existing, hidden);
      assert op.(regions := op.regions) == op && Fresh(taken.existing, taken.counter) == taken;
      assert DecomposeOperation(op, all, types, taken) == ([op], taken);
      hide DecomposeOperation;
      QuietKept(ops[1..], all, types, taken, hidden);
      assert [op] + ops[1..] == ops;
    }
  }

  lemma {:induction false} RegionsKept(regions: seq<Block>, types: map<string, Type>, existing: set<string>,
          hidden: set<string>)
    requires forall region :: region in regions ==> Quiet(region.operations, hidden)
    ensures DecomposeRegions(regions, types, existing) == (regions, existing)
    decreases regions, 0
  {
    hide Quiet, DecomposeOperations;
    if regions != [] {
      var block := regions[0];
      assert block in regions;
      var within := AddResults(AddTypes(types, block.args), block.operations);
      NothingDropped(block.operations, hidden);
      QuietKept(block.operations, block.operations, within, Fresh(existing, FreshIndex(existing, 0)), hidden);
      assert DecomposeBlock(block, types, existing) == (block, existing);
      hide DecomposeBlock;
      RegionsKept(regions[1..], types, existing, hidden);
      assert [block] + regions[1..] == regions;
    }
  }

  lemma {:induction false} NothingDropped(ops: seq<Operation>, hidden: set<string>)
    requires Quiet(ops, hidden)
    ensures forall op :: op in ops ==> !Dropped(op, ops)
  {
    hide Quiet, Consumed;
    forall op | op in ops
      ensures !Dropped(op, ops)
    {
      if op.results != [] {
        QuietConsumesNothing(ops, hidden, op.results[0].name);
      }
    }
  }

  lemma {:induction false} DecomposesThen(a: seq<Operation>, b: seq<Operation>, all: seq<Operation>,
          types: map<string, Type>, taken: Fresh)
    ensures
      var (first, middle) := DecomposeOperations(a, all, types, taken);
      var (rest, last) := DecomposeOperations(b, all, types, middle);
      DecomposeOperations(a + b, all, types, taken) == (first + rest, last)
    decreases |a|
  {
    hide DecomposeOperation;
    if a == [] {
      assert a + b == b;
      var (rest, last) := DecomposeOperations(b, all, types, taken);
      assert [] + rest == rest;
    } else {
      var (first, next) := DecomposeOperation(a[0], all, types, taken);
      DecomposesThen(a[1..], b, all, types, next);
      assert (a + b)[0] == a[0] && (a + b)[1..] == a[1..] + b;
      var (second, middle) := DecomposeOperations(a[1..], all, types, next);
      var (rest, last) := DecomposeOperations(b, all, types, middle);
      assert first + (second + rest) == (first + second) + rest;
    }
  }

  lemma {:induction false} DecomposesOne(op: Operation, all: seq<Operation>, types: map<string, Type>, taken: Fresh)
    ensures DecomposeOperations([op], all, types, taken) == DecomposeOperation(op, all, types, taken)
  {
    hide DecomposeOperation;
    var one := [op];
    assert one[1..] == [] && DecomposeOperation(op, all, types, taken).0 + [] ==
        DecomposeOperation(op, all, types, taken).0;
  }

  /** Only the product defines the name that the store consumes. */
  ghost predicate SoleProducer(s: Single)
    requires OneProduct(s)
  {
    forall op :: op in s.before + s.between + s.after ==> s.matmul.results[0].name !in NameSet(op.results)
  }

  lemma {:induction false} OthersAreNot(ops: seq<Operation>, name: string)
    requires NotBound(ops, name)
    ensures ProductOf(ops, name) == None && TransposeOf(ops, name) == None
    decreases |ops|
  {
    if ops != [] {
      assert ops[0] in ops;
      assert ops[0].results != [] ==> ops[0].results[0] in ops[0].results;
      OthersAreNot(ops[1..], name);
    }
  }

  lemma {:induction false} FoundAfter(a: seq<Operation>, b: seq<Operation>, name: string)
    ensures ProductOf(a + b, name) == if ProductOf(b, name).Some? then ProductOf(b, name) else ProductOf(a, name)
    ensures TransposeOf(a + b, name) == if TransposeOf(b, name).Some? then TransposeOf(b, name)
        else TransposeOf(a, name)
    decreases |a|
  {
    if a == [] {
      assert a + b == b;
    } else {
      assert (a + b)[0] == a[0] && (a + b)[1..] == a[1..] + b;
      FoundAfter(a[1..], b, name);
    }
  }

  lemma {:induction false} ProducerIs(s: Single)
    requires OneProduct(s) && SoleProducer(s)
    ensures ProductOf(s.Code(), s.matmul.results[0].name) == Some(s.matmul)
    ensures TransposeOf(s.Code(), s.matmul.results[0].name) == None
  {
    hide Quiet, ProductOf, TransposeOf;
    var name, tail := s.matmul.results[0].name, s.between + ([s.store] + s.after);
    assert NotBound(s.before, name) && NotBound(tail, name);
    OthersAreNot(s.before, name);
    OthersAreNot(tail, name);
    ProducerFirst(s.matmul, tail);
    FoundAfter(s.before, [s.matmul] + tail, name);
  }

  lemma {:induction false} ProducerFirst(matmul: Operation, tail: seq<Operation>)
    requires IsProduct(matmul) && NotBound(tail, matmul.results[0].name)
    ensures ProductOf([matmul] + tail, matmul.results[0].name) == Some(matmul)
    ensures TransposeOf([matmul] + tail, matmul.results[0].name) == None
  {
    OthersAreNot(tail, matmul.results[0].name);
    assert ([matmul] + tail)[1..] == tail;
  }

  lemma {:induction false} OnlyProductDropped(s: Single)
    requires OneProduct(s) && SoleProducer(s)
    ensures Dropped(s.matmul, s.Code()) && !Dropped(s.store, s.Code())
    ensures forall op :: op in s.before + s.between + s.after ==> !Dropped(op, s.Code())
  {
    var all, name := s.Code(), s.matmul.results[0].name;
    ProducerIs(s);
    hide Quiet, ProductOf, TransposeOf;
    var at := |s.before| + 1 + |s.between|;
    assert all[at] == s.store && Consumes(all[at], name);
    forall op | op in s.before + s.between + s.after
      ensures !Dropped(op, all)
    {
      if op.results != [] {
        assert op.results[0] in op.results && op.results[0].name != name;
        if Consumed(all, op.results[0].name) {
          OnlyStoreConsumes(s, op.results[0].name);
        }
      }
    }
  }

  lemma {:induction false} OnlyStoreConsumes(s: Single, name: string)
    requires OneProduct(s) && Consumed(s.Code(), name)
    ensures name == s.matmul.results[0].name
  {
    hide Quiet;
    var i :| 0 <= i < |s.Code()| && Consumes(s.Code()[i], name);
    var op := s.Code()[i];
    assert op in s.before || op == s.matmul || op in s.between || op == s.store || op in s.after;
    if op in s.before {
      QuietIsNotStore(s.before, Hidden(s), op);
    } else if op in s.between {
      QuietIsNotStore(s.between, Hidden(s), op);
    } else if op in s.after {
      QuietIsNotStore(s.after, Hidden(s), op);
    }
  }

  lemma {:induction false} CodeDecomposes(s: Single, types: map<string, Type>, taken: Fresh)
    requires OneProduct(s) && SoleProducer(s)
    ensures DecomposeOperations(s.Code(), s.Code(), types, taken).0 ==
        s.before + (s.between +
            (DecomposeMatMulStore(s.matmul, s.store, types, taken.existing, taken.counter).0 + s.after))
  {
    var all, hidden := s.Code(), Hidden(s);
    OnlyProductDropped(s);
    ProducerIs(s);
    hide Quiet, Dropped, ProductOf, TransposeOf;
    var tail, last := s.between + ([s.store] + s.after), [s.store] + s.after;
    DecomposesThen(s.before, [s.matmul] + tail, all, types, taken);
    DecomposesThen([s.matmul], tail, all, types, taken);
    DecomposesThen(s.between, last, all, types, taken);
    DecomposesThen([s.store], s.after, all, types, taken);
    QuietKept(s.before, all, types, taken, hidden);
    QuietKept(s.between, all, types, taken, hidden);
    DecomposesOne(s.matmul, all, types, taken);
    DecomposesOne(s.store, all, types, taken);
    hide DecomposeOperations, DecomposeMatMulStore;
    var code := DecomposeMatMulStore(s.matmul, s.store, types, taken.existing, taken.counter).0;
    assert DecomposeOperation(s.matmul, all, types, taken) == ([], taken);
    var (first, next) := DecomposeOperation(s.store, all, types, taken);
    assert first == code;
    hide DecomposeOperation;
    QuietKept(s.after, all, types, next, hidden);
    assert [] + (s.between + (code + s.after)) == s.between + (code + s.after);
  }

  // ----- the run over whole tiles -----

  /** How far the whole-tile run got: before the product, and at the store. */
  datatype Stops = Stops(product: Env, store: Env, a: Matrix, b: Matrix)

  /** The code runs to its end and stores nothing. */
  ghost predicate Ends(ops: seq<Operation>, env: Env, mem: Memory, views: map<string, View>, after: Env) {
    var r := ExecOperations(ops, env, mem, Context(views, None));
    r.Success? && r.value.env == after && r.value.mem == mem
  }

  ghost predicate Reaches(s: Single, env: Env, mem: Memory, views: map<string, View>, p: Stops)
    requires OneProduct(s)
  {
    var lhs, rhs := s.matmul.operands[0], s.matmul.operands[1];
    && p.a.cols == p.b.rows && Ends(s.before, env, mem, views, p.product)
    && lhs in p.product && rhs in p.product
    && Reads(p.product[lhs], p.a, views, mem) && Reads(p.product[rhs], p.b, views, mem)
    && Ends(s.between, p.product[s.matmul.results[0].name := Tile(Product(p.a, p.b))], mem, views, p.store)
  }

  lemma {:induction false} MatMulReads(op: Operation, x: Val, y: Val, ctx: Context, mem: Memory) returns (a: Matrix,
          b: Matrix)
    requires op.opcode.MatMul? && Compute(op, [x, y], ctx, mem).Success?
    ensures Reads(x, a, ctx.views, mem) && Reads(y, b, ctx.views, mem) && a.cols == b.rows
    ensures Compute(op, [x, y], ctx, mem) == Success(Tile(Product(a, b)))
  {
    hide Product, Materialize, Reads, ScalarOf, ExtractAt, ExtentAt, OffsetAt, Elementwise, MapUnary, Where,
        Transposed;
    MaterializesRead(x, ctx, mem);
    MaterializesRead(y, ctx, mem);
    a, b := Materialize(x, ctx, mem).value.tile, Materialize(y, ctx, mem).value.tile;
  }

  lemma {:induction false} MaterializesRead(v: Val, ctx: Context, mem: Memory)
    ensures
      var r := Materialize(v, ctx, mem);
      r.Success? && r.value.Tile? ==> Reads(v, r.value.tile, ctx.views, mem)
  {
  }

  lemma {:induction false} QuietEnds(ops: seq<Operation>, env: Env, mem: Memory, views: map<string, View>,
          hidden: set<string>, storage: string)
    requires Quiet(ops, hidden) && Shadows(env, env, hidden, storage, views)
    requires ExecOperations(ops, env, mem, Context(views, None)).Success?
    ensures
      var after := ExecOperations(ops, env, mem, Context(views, None)).value.env;
      Ends(ops, env, mem, views, after) && Shadows(after, after, hidden, storage, views)
  {
    hide ExecOperations, Quiet;
    OperationsSteady(ops, env, env, hidden, storage, NO_MATRIX, mem, views, None);
  }

  lemma {:induction false} HiddenBound(env: Env, x: string, tile: Matrix, hidden: set<string>, storage: string,
          views: map<string, View>)
    requires Shadows(env, env, hidden, storage, views)
    ensures Shadows(env[x := Tile(tile)], env[x := Tile(tile)], hidden, storage, views)
  {
  }

  /** Every run that succeeds gets to the store in this way. */
  lemma {:induction false} ReachesStore(s: Single, env: Env, mem: Memory, views: map<string, View>, storage: string)
    returns (p: Stops)
    requires OneProduct(s) && NoYield(s.Code()) && Shadows(env, env, Hidden(s), storage, views)
    requires ExecOperations(s.Code(), env, mem, Context(views, None)).Success?
    ensures Reaches(s, env, mem, views, p)
    ensures ExecOperations(s.Code(), env, mem, Context(views, None)) ==
        ExecOperations([s.store] + s.after, p.store, mem, Context(views, None))
  {
    hide ExecOperations, Quiet, Shadows, Compute, Product, Reads;
    var ctx, hidden, tail := Context(views, None), Hidden(s), s.between + ([s.store] + s.after);
    ExecConcat(s.before, [s.matmul] + tail, env, mem, ctx);
    QuietEnds(s.before, env, mem, views, hidden, storage);
    var product := ExecOperations(s.before, env, mem, ctx).value.env;
    var a, b := MatMulRuns(s.matmul, tail, product, mem, ctx);
    var at := product[s.matmul.results[0].name := Tile(Product(a, b))];
    ExecConcat(s.between, [s.store] + s.after, at, mem, ctx);
    HiddenBound(product, s.matmul.results[0].name, Product(a, b), hidden, storage, views);
    QuietEnds(s.between, at, mem, views, hidden, storage);
    p := Stops(product, ExecOperations(s.between, at, mem, ctx).value.env, a, b);
  }

  lemma {:induction false} MatMulRuns(matmul: Operation, tail: seq<Operation>, env: Env, mem: Memory, ctx: Context)
    returns (a: Matrix, b: Matrix)
    requires IsProduct(matmul) && ExecOperations([matmul] + tail, env, mem, ctx).Success?
    ensures matmul.operands[0] in env && matmul.operands[1] in env && a.cols == b.rows
    ensures Reads(env[matmul.operands[0]], a, ctx.views, mem) && Reads(env[matmul.operands[1]], b, ctx.views, mem)
    ensures ExecOperations([matmul] + tail, env, mem, ctx) ==
        ExecOperations(tail, env[matmul.results[0].name := Tile(Product(a, b))], mem, ctx)
  {
    hide Compute, Product, Reads;
    var lhs, rhs := matmul.operands[0], matmul.operands[1];
    var ops := [matmul] + tail;
    assert ops[0] == matmul && matmul.operands == [lhs, rhs];
    assert lhs in matmul.operands && rhs in matmul.operands;
    assert ExecOperation(matmul, env, mem, ctx).Success?;
    Lookup2(lhs, rhs, env);
    a, b := MatMulReads(matmul, env[lhs], env[rhs], ctx, mem);
    hide ExecOperation, ExecOperations;
    ExecEmit(matmul, tail, [env[lhs], env[rhs]], Tile(Product(a, b)), env, mem, ctx);
  }

  // ----- the names at the store -----

  ghost function Visible(s: Single, visible: set<string>): set<string>
    requires ClosesMatMul(s.matmul, s.store)
  {
    FinallyVisible(s.between, FinallyVisible(s.before, visible) + {s.matmul.results[0].name})
  }

  ghost predicate Lined(s: Single, visible: set<string>) {
    OneProduct(s) && NoYield(s.Code()) && ScopedOperations(s.Code(), visible) && s.store.operands[1] in visible
  }

  lemma {:induction false} SingleNames(s: Single, visible: set<string>)
    requires Lined(s, visible)
    ensures
      var sum, first := s.matmul.results[0].name, FinallyVisible(s.before, visible);
      && visible <= first && sum !in first && ScopedOperations(s.between + ([s.store] + s.after), first + {sum})
      && (forall x :: x in s.matmul.operands ==> x in first)
      && FinallyVisible(s.Code(), visible) == FinallyVisible([s.store] + s.after, Visible(s, visible))
      && FinallyVisible(s.between, first + {sum}) == Visible(s, visible) && first <= Visible(s, visible)
  {
    hide Quiet, ScopedOperations, FinallyVisible;
    var tail, first := s.between + ([s.store] + s.after), FinallyVisible(s.before, visible);
    ScopedConcat(s.before, [s.matmul] + tail, visible);
    VisibleGrows(s.before, visible);
    FirstScoped(s.matmul, tail, first);
    assert NameSet(s.matmul.results) == {s.matmul.results[0].name} by {
      assert s.matmul.results[0] in s.matmul.results;
    }
    ScopedConcat(s.between, [s.store] + s.after, first + {s.matmul.results[0].name});
    VisibleGrows(s.between, first + {s.matmul.results[0].name});
  }

  lemma {:induction false} FirstScoped(op: Operation, tail: seq<Operation>, visible: set<string>)
    requires ScopedOperations([op] + tail, visible) && op.opcode.MatMul?
    ensures (forall x :: x in op.operands ==> x in visible) && NameSet(op.results) !! visible
    ensures ScopedOperations(tail, visible + NameSet(op.results))
    ensures FinallyVisible([op] + tail, visible) == FinallyVisible(tail, visible + NameSet(op.results))
  {
    var ops := [op] + tail;
    assert ops[0] == op && ops[1..] == tail;
    assert ScopedOperation(op, visible) && References(op) == op.operands;
  }

  /** Nothing but the product binds its name, and nothing rebinds its operands or the output. */
  lemma {:induction false} SingleBinds(s: Single, visible: set<string>)
    requires Lined(s, visible)
    ensures SoleProducer(s)
    ensures NotBound(s.before + s.between, s.store.operands[1])
    ensures forall x :: x in s.matmul.operands + [s.matmul.results[0].name] ==> NotBound(s.between, x)
    ensures s.matmul.results[0].name !in s.matmul.operands + [s.store.operands[1]]
  {
    SingleNames(s, visible);
    hide Quiet, ScopedOperations, FinallyVisible;
    var sum, first, tail := s.matmul.results[0].name, FinallyVisible(s.before, visible), s.between
        + ([s.store] + s.after);
    NotYetBound(s.before, visible, sum);
    ResultsNew(tail, first + {sum}, sum);
    assert forall op :: op in s.between || op in s.after ==> op in tail;
    ResultsNew(s.Code(), visible, s.store.operands[1]);
    assert forall op :: op in s.before || op in s.between ==> op in s.Code();
    forall x | x in s.matmul.operands
      ensures NotBound(s.between, x)
    {
      ResultsNew(tail, first + {sum}, x);
    }
  }

  /** The state at the store: operands, product and output are as they were. */
  lemma {:induction false} AtStore(s: Single, visible: set<string>, env: Env, mem: Memory, views: map<string, View>,
          p: Stops, storage: string)
    requires Lined(s, visible) && Reaches(s, env, mem, views, p)
    requires s.store.operands[1] in env && Shadows(env, env, Hidden(s), storage, views)
    ensures
      var lhs, rhs, output := s.matmul.operands[0], s.matmul.operands[1], s.store.operands[1];
      && lhs in p.store && p.store[lhs] == p.product[lhs] && lhs !in Hidden(s) && Apart(p.store[lhs], storage, views)
      && rhs in p.store && p.store[rhs] == p.product[rhs] && rhs !in Hidden(s) && Apart(p.store[rhs], storage, views)
      && output in p.store && p.store[output] == env[output]
      && s.matmul.results[0].name in p.store && p.store[s.matmul.results[0].name] == Tile(Product(p.a, p.b))
      && Shadows(p.store, p.store, Hidden(s), storage, views)
  {
    SingleBinds(s, visible);
    hide Quiet, ScopedOperations, FinallyVisible, ExecOperations, Product, Reads;
    var lhs, rhs, output, sum := s.matmul.operands[0], s.matmul.operands[1], s.store.operands[1],
        s.matmul.results[0].name;
    var ctx, at := Context(views, None), p.product[s.matmul.results[0].name := Tile(Product(p.a, p.b))];
    assert lhs in s.matmul.operands && rhs in s.matmul.operands;
    BindingStays(s.before, env, mem, ctx, output);
    BindingStays(s.between, at, mem, ctx, output);
    BindingStays(s.between, at, mem, ctx, lhs);
    BindingStays(s.between, at, mem, ctx, rhs);
    BindingStays(s.between, at, mem, ctx, sum);
    QuietEnds(s.before, env, mem, views, Hidden(s), storage);
    HiddenBound(p.product, sum, Product(p.a, p.b), Hidden(s), storage, views);
    QuietEnds(s.between, at, mem, views, Hidden(s), storage);
  }

  // ----- one lane -----

  /** A lane runs the code before its scalar block as the whole-tile run does. */
  lemma {:induction false} LaneReaches(s: Single, code: seq<Operation>, visible: set<string>, env: Env, mem: Memory,
          views: map<string, View>, p: Stops, storage: string, c: Matrix, lane: Option<Lane>) returns (e: Env)
    requires Lined(s, visible) && Reaches(s, env, mem, views, p) && env.Keys <= visible
    requires s.store.operands[1] in env && Shadows(env, env, Hidden(s), storage, views)
    ensures ExecOperations(s.before + (s.between + code), env, mem[storage := c], Context(views, lane)) ==
        ExecOperations(code, e, mem[storage := c], Context(views, lane))
    ensures Shadows(p.store, e, Hidden(s), storage, views) && e.Keys <= Visible(s, visible)
    ensures s.store.operands[1] in e && e[s.store.operands[1]] == env[s.store.operands[1]]
  {
    SingleBinds(s, visible);
    SingleNames(s, visible);
    hide Quiet, ScopedOperations, FinallyVisible, ExecOperations, Product, Reads;
    var ctx, now, hidden, output := Context(views, lane), mem[storage := c], Hidden(s), s.store.operands[1];
    var sum := s.matmul.results[0].name;
    ExecConcat(s.before, s.between + code, env, now, ctx);
    OperationsSteady(s.before, env, env, hidden, storage, c, mem, views, lane);
    var first := ExecOperations(s.before, env, now, ctx).value.env;
    KeysFinally(s.before, env, now, ctx, visible);
    BindingStays(s.before, env, now, ctx, output);
    HiddenAdded(p.product, first, sum, Product(p.a, p.b), hidden, storage, views);
    ExecConcat(s.between, code, first, now, ctx);
    OperationsSteady(s.between, p.product[sum := Tile(Product(p.a, p.b))], first, hidden, storage, c, mem, views, lane);
    e := ExecOperations(s.between, first, now, ctx).value.env;
    KeysFinally(s.between, first, now, ctx, FinallyVisible(s.before, visible) + {sum});
    BindingStays(s.between, first, now, ctx, output);
  }

  lemma {:induction false} HiddenAdded(env: Env, env2: Env, x: string, tile: Matrix, hidden: set<string>,
          storage: string, views: map<string, View>)
    requires Shadows(env, env2, hidden, storage, views) && x in hidden
    ensures Shadows(env[x := Tile(tile)], env2, hidden, storage, views)
  {
  }

  /** The names of the scalar code are new, and so are those of its loop. */
  ghost predicate FreshFor(names: seq<string>, visible: set<string>) {
    && |names| == 11 && (forall i :: 0 <= i < 11 ==> names[i] !in visible && names[i] != KK && names[i] != ACC_ITER)
    && (forall i, j :: 0 <= i < j < 11 ==> names[i] != names[j])
    && KK !in visible && ACC_ITER !in visible
  }

  /** The product has the extents of the output, and a symbolic K is its inner extent. */
  ghost predicate Fits(view: View, extent: Extent, p: Stops) {
    && p.a.rows == view.row.rows && p.b.cols == view.row.cols
    && (extent.FromSymbol? ==> extent.name in p.store && p.store[extent.name] == Num(p.a.cols))
  }

  /** The output is an input of its own: other references lead to other storage. */
  ghost predicate OutputIs(s: Single, target: string, env: Env, mem: Memory, views: map<string, View>)
    requires OneProduct(s)
  {
    && s.store.operands[1] in env && env[s.store.operands[1]] == Ref(target)
    && Reachable(Context(views, None), mem, target)
    && Shadows(env, env, Hidden(s), views[target].storage, views)
  }

  /** A whole-tile run and the names of the scalar code that replays it. */
  datatype Replay = Replay(s: Single, names: seq<string>, extent: Extent, t: LaneTypes, visible: set<string>, env: Env,
      mem: Memory, views: map<string, View>, view: View, p: Stops, target: string)

  /** Names and extents are such that the scalar code and what it stores can be written down. */
  ghost predicate Sized(u: Replay) {
    && |u.names| == 11 && ClosesMatMul(u.s.matmul, u.s.store) && u.p.a.cols == u.p.b.rows
    && u.target in u.views && u.views[u.target] == u.view && u.view.storage in u.mem
    && u.p.a.rows == u.view.row.rows && u.p.b.cols == u.view.row.cols
  }

  ghost predicate Ready(u: Replay) {
    && Lined(u.s, u.visible) && Reaches(u.s, u.env, u.mem, u.views, u.p)
    && OutputIs(u.s, u.target, u.env, u.mem, u.views) && u.env.Keys <= u.visible && u.view == u.views[u.target]
    && Fits(u.view, u.extent, u.p) && FreshFor(u.names, Visible(u.s, u.visible))
  }

  lemma {:induction false} ReadySized(u: Replay)
    requires Ready(u)
    ensures Sized(u)
  {
    hide ScopedOperations, NoYield, Quiet, Ends, Reads, Visible, Shadows;
  }

  lemma {:induction false} ReadyParts(u: Replay)
    requires Sized(u) && Ready(u)
    ensures u.s.store.attrs.indices == [] && Quiet(u.s.after, Hidden(u.s))
    ensures FreshFor(u.names, Visible(u.s, u.visible))
  {
    hide ScopedOperations, NoYield, Quiet, Ends, Reads, Visible, Shadows;
  }

  ghost function ScalarCode(u: Replay): seq<Operation>
    requires Sized(u)
  {
    LaneOperations(u.names, u.s.matmul.operands[0], u.s.matmul.operands[1], u.s.store.operands[1], u.extent, u.s.store,
        u.t)
  }

  /** The memory with the given contents of the output. */
  ghost function Holding(u: Replay, c: Matrix): Memory
    requires Sized(u)
  {
    u.mem[u.view.storage := c]
  }

  ghost function StoredBy(u: Replay, c: Matrix, lanes: seq<Lane>): Matrix
    requires Sized(u) && AccessHolds(u.view, c)
    requires forall lane :: lane in lanes ==> InView(u.view, lane)
  {
    StoreLanes(u.view, c, Product(u.p.a, u.p.b), lanes)
  }

  /** The state in which a lane comes to its scalar code. */
  ghost predicate Arrives(u: Replay, e: Env)
    requires Sized(u)
  {
    && Shadows(u.p.store, e, Hidden(u.s), u.view.storage, u.views) && e.Keys <= Visible(u.s, u.visible)
    && u.s.store.operands[1] in e && e[u.s.store.operands[1]] == Ref(u.target)
  }

  lemma {:induction false} LaneCanRun(u: Replay, c: Matrix, e: Env)
    requires Sized(u) && Ready(u) && Arrives(u, e)
    ensures Decomposable(u.names, u.s.matmul.operands[0], u.s.matmul.operands[1], u.s.store.operands[1], u.extent, e,
        u.views, u.p.a, u.p.b)
    ensures Reads(e[u.s.matmul.operands[0]], u.p.a, u.views, Holding(u, c))
    ensures Reads(e[u.s.matmul.operands[1]], u.p.b, u.views, Holding(u, c))
  {
    ReadyAlone(u);
    hide Quiet, Ends, Product, Reads, Visible, Lined, Shadows, Apart, OneProduct, FreshFor, Reaches, Ready, OutputIs,
        Decomposable;
    var storage, lhs, rhs, p := u.view.storage, u.s.matmul.operands[0], u.s.matmul.operands[1], u.p;
    AtStore(u.s, u.visible, u.env, u.mem, u.views, p, storage);
    Shadowed(p.store, e, Hidden(u.s), storage, u.views, lhs);
    Shadowed(p.store, e, Hidden(u.s), storage, u.views, rhs);
    ExtentBound(u, e);
    ReachesReads(u.s, u.env, u.mem, u.views, p);
    ReadsKept(e[lhs], p.a, u.views, u.mem, storage, c);
    ReadsKept(e[rhs], p.b, u.views, u.mem, storage, c);
    NamesFree(u.names, Visible(u.s, u.visible), e);
    CanDecompose(u.names, lhs, rhs, u.s.store.operands[1], u.extent, e, u.views, u.target, p.a, p.b);
  }

  lemma {:induction false} ReadyAlone(u: Replay)
    requires Sized(u) && Ready(u)
    ensures Lined(u.s, u.visible) && Reaches(u.s, u.env, u.mem, u.views, u.p)
    ensures FreshFor(u.names, Visible(u.s, u.visible)) && u.s.store.operands[1] in u.env
    ensures u.env[u.s.store.operands[1]] == Ref(u.target) && Fits(u.view, u.extent, u.p)
    ensures Shadows(u.env, u.env, Hidden(u.s), u.view.storage, u.views)
  {
    hide Lined, Reaches, Shadows, FreshFor, Fits, Visible;
  }

  lemma {:induction false} CanDecompose(names: seq<string>, lhs: string, rhs: string, output: string, extent: Extent,
          e: Env, views: map<string, View>, target: string, a: Matrix, b: Matrix)
    requires |names| == 11 && forall i :: 0 <= i < 11 ==> names[i] !in e && names[i] != KK && names[i] != ACC_ITER
    requires forall i, j :: 0 <= i < j < 11 ==> names[i] != names[j]
    requires KK !in e && ACC_ITER !in e && lhs in e && rhs in e && output in e && e[output] == Ref(target)
    requires target in views && a.cols == b.rows && a.rows == views[target].row.rows
    requires b.cols == views[target].row.cols
    requires extent.FromSymbol? ==> extent.name in e && e[extent.name] == Num(a.cols)
    requires Apart(e[lhs], views[target].storage, views) && Apart(e[rhs], views[target].storage, views)
    ensures Decomposable(names, lhs, rhs, output, extent, e, views, a, b)
  {
    hide Apart;
  }

  /** A symbolic K is still bound when a lane comes to its scalar code. */
  lemma {:induction false} ExtentBound(u: Replay, e: Env)
    requires Sized(u) && Ready(u) && Arrives(u, e)
    ensures u.extent.FromSymbol? ==> u.extent.name in e && e[u.extent.name] == Num(u.p.a.cols)
  {
    hide Quiet, Ends, Product, Reads, Visible, Lined, Shadows, FreshFor, Reaches, Ready, OneProduct;
    if u.extent.FromSymbol? {
      ReadyAlone(u);
      AtStore(u.s, u.visible, u.env, u.mem, u.views, u.p, u.view.storage);
      Shadowed(u.p.store, e, Hidden(u.s), u.view.storage, u.views, u.extent.name);
    }
  }

  lemma {:induction false} ReachesReads(s: Single, env: Env, mem: Memory, views: map<string, View>, p: Stops)
    requires OneProduct(s) && Reaches(s, env, mem, views, p)
    ensures s.matmul.operands[0] in p.product && s.matmul.operands[1] in p.product && p.a.cols == p.b.rows
    ensures Reads(p.product[s.matmul.operands[0]], p.a, views, mem)
    ensures Reads(p.product[s.matmul.operands[1]], p.b, views, mem)
  {
    hide Quiet, Ends, Reads;
  }

  lemma {:induction false} Shadowed(env: Env, e: Env, hidden: set<string>, storage: string, views: map<string, View>,
          x: string)
    requires Shadows(env, e, hidden, storage, views) && x in env && x !in hidden
    ensures x in e && e[x] == env[x] && Apart(e[x], storage, views)
  {
  }

  lemma {:induction false} NamesFree(names: seq<string>, visible: set<string>, e: Env)
    requires FreshFor(names, visible) && e.Keys <= visible
    ensures forall i :: 0 <= i < 11 ==> names[i] !in e && names[i] != KK && names[i] != ACC_ITER
    ensures |names| == 11 && KK !in e && ACC_ITER !in e && forall i, j :: 0 <= i < j < 11 ==> names[i] != names[j]
  {
  }

  /** The results of the scalar code are the chosen names. */
  lemma {:induction false} LaneResults(names: seq<string>, lhs: string, rhs: string, output: string, extent: Extent,
          store: Operation, t: LaneTypes, x: string)
    requires |names| == 11 && forall i :: 0 <= i < 11 ==> names[i] != x
    ensures NotBound(LaneOperations(names, lhs, rhs, output, extent, store, t), x)
  {
    hide LaneBody;
    PrefixResults(names, lhs, output, extent, t, x);
    hide LanePrefix;
    var loop := LaneLoop(names, lhs, rhs, BoundName(names, extent), t);
    assert x !in NameSet(loop.results);
  }

  lemma {:induction false} PrefixResults(names: seq<string>, lhs: string, output: string, extent: Extent, t: LaneTypes,
          x: string)
    requires |names| == 11 && forall i :: 0 <= i < 11 ==> names[i] != x
    ensures NotBound(LanePrefix(names, lhs, output, extent, t), x)
  {
    assert NotBound([LaneOperation(Offset(0, true), [output], names[0], INDEX),
        LaneOperation(Offset(1, true), [output], names[1], INDEX)], x);
    assert NotBound([LaneOperation(Constant(0), [], names[2], SCALAR_INT),
        LaneOperation(Constant(1), [], names[3], SCALAR_INT), LaneOperation(Constant(0), [], names[4], t.scalar)], x);
  }

  /** What the scalar code binds besides, the rest of the program does not see. */
  lemma {:induction false} ShadowsAfter(code: seq<Operation>, names: seq<string>, visible: set<string>, env: Env,
          e: Env, mem: Memory, ctx: Context, hidden: set<string>, storage: string)
    requires Shadows(env, e, hidden, storage, ctx.views) && e.Keys <= visible
    requires FreshFor(names, visible) && ExecOperations(code, e, mem, ctx).Success?
    requires forall x :: (forall i :: 0 <= i < 11 ==> names[i] != x) ==> NotBound(code, x)
    ensures Shadows(env, ExecOperations(code, e, mem, ctx).value.env, hidden, storage, ctx.views)
  {
    hide ExecOperations;
    var after := ExecOperations(code, e, mem, ctx).value.env;
    forall x | x in env && x !in hidden
      ensures x in after && after[x] == env[x] && Apart(env[x], storage, ctx.views)
    {
      BindingStays(code, e, mem, ctx, x);
    }
  }

  lemma {:induction false} HoldingAgain(u: Replay, c: Matrix, d: Matrix)
    requires Sized(u)
    ensures Holding(u, c)[u.view.storage := d] == Holding(u, d)
    ensures u.view.storage in Holding(u, c) && Holding(u, c)[u.view.storage] == c
  {
  }

  /** The scalar code of one lane stores its element of the product. */
  lemma {:induction false} LaneStores(u: Replay, c: Matrix, lane: Lane, e: Env)
    requires Sized(u) && Ready(u) && Arrives(u, e) && AccessHolds(u.view, c) && InView(u.view, lane)
    ensures
      var r := ExecOperations(ScalarCode(u), e, Holding(u, c), Context(u.views, Some(lane)));
      r.Success? && r.value.mem == Holding(u, StoredBy(u, c, [lane]))
  {
    hide Ready, Holding, Arrives, FreshFor, Visible, Quiet, ExecOperations, Product, Reads, LaneOperations,
        Decomposable, StoreLanes, AccessHolds;
    LaneCanRun(u, c, e);
    ReadyParts(u);
    HoldingAgain(u, c, c);
    HoldingAgain(u, c, StoredBy(u, c, [lane]));
    OutputBound(u, e);
    OneLane(u.s.matmul, u.s.store, u.names, u.extent, u.t, e, Holding(u, c), u.views, u.target, u.p.a, u.p.b, c, lane);
  }

  lemma {:induction false} OutputBound(u: Replay, e: Env)
    requires Sized(u) && Ready(u) && Arrives(u, e)
    ensures u.s.store.operands[1] in e && e[u.s.store.operands[1]] == Ref(u.target)
  {
  }

  lemma {:induction false} OneLane(matmul: Operation, store: Operation, names: seq<string>, extent: Extent,
          t: LaneTypes, e: Env, now: Memory, views: map<string, View>, target: string, a: Matrix, b: Matrix, c: Matrix,
          lane: Lane)
    requires ClosesMatMul(matmul, store) && store.attrs.indices == [] && target in views
    requires Decomposable(names, matmul.operands[0], matmul.operands[1], store.operands[1], extent, e, views, a, b)
    requires Reads(e[matmul.operands[0]], a, views, now) && Reads(e[matmul.operands[1]], b, views, now)
    requires e[store.operands[1]] == Ref(target) && views[target].storage in now && now[views[target].storage] == c
    requires AccessHolds(views[target], c) && InView(views[target], lane)
    ensures a.cols == b.rows && a.rows == views[target].row.rows && b.cols == views[target].row.cols
    ensures
      var code := LaneOperations(names, matmul.operands[0], matmul.operands[1], store.operands[1], extent, store, t);
      var r := ExecOperations(code, e, now, Context(views, Some(lane)));
      r.Success? && r.value.mem ==
          now[views[target].storage := StoreLanes(views[target], c, Product(a, b), [lane])]
  {
    hide ExecOperations, Product, Reads, LaneOperations, StoreLanes, AccessHolds;
    LaneRuns(names, matmul.operands[0], matmul.operands[1], store.operands[1], target, extent, store, t, e, now, a, b,
        lane, Context(views, Some(lane)));
  }

  lemma {:induction false} ScalarBinds(u: Replay, e: Env, mem: Memory, ctx: Context)
    requires Sized(u) && Ready(u) && Arrives(u, e) && ctx.views == u.views
    requires ExecOperations(ScalarCode(u), e, mem, ctx).Success?
    ensures Shadows(u.p.store, ExecOperations(ScalarCode(u), e, mem, ctx).value.env, Hidden(u.s),
        u.view.storage, u.views)
  {
    ReadyParts(u);
    hide ExecOperations, LaneOperations, Shadows, Ready, Visible, Quiet;
    var s, names, visible, code := u.s, u.names, Visible(u.s, u.visible), ScalarCode(u);
    forall x | forall i :: 0 <= i < 11 ==> names[i] != x
      ensures NotBound(code, x)
    {
      LaneResults(names, s.matmul.operands[0], s.matmul.operands[1], s.store.operands[1], u.extent, s.store, u.t, x);
    }
    ShadowsAfter(code, names, visible, u.p.store, e, mem, ctx, Hidden(s), u.view.storage);
  }

  /** One lane of the whole rewritten program. */
  lemma {:induction false} LaneOnce(u: Replay, stored: Matrix, c: Matrix, lane: Lane)
    requires Sized(u) && Ready(u) && AccessHolds(u.view, c) && InView(u.view, lane)
    requires ExecOperations(u.s.after, u.p.store, Holding(u, stored), Context(u.views, None)).Success?
    ensures
      var r := ExecOperations(u.s.before + (u.s.between + (ScalarCode(u) + u.s.after)), u.env, Holding(u, c),
          Context(u.views, Some(lane)));
      r.Success? && r.value.mem == Holding(u, StoredBy(u, c, [lane]))
  {
    hide Quiet, ExecOperations, LaneOperations, Shadows, FreshFor, StoredBy, Ready, Arrives, ScalarCode, AccessHolds,
        Holding, NoYield, Visible;
    ReadyParts(u);
    ScalarFlat(u);
    var e := LaneArrives(u, c, lane, ScalarCode(u) + u.s.after);
    LaneStores(u, c, lane, e);
    var next := StoredBy(u, c, [lane]);
    HoldingAgain(u, stored, next);
    var ctx := Context(u.views, Some(lane));
    var done := ExecOperations(ScalarCode(u), e, Holding(u, c), ctx).value;
    ScalarBinds(u, e, Holding(u, c), ctx);
    ExecConcat(ScalarCode(u), u.s.after, e, Holding(u, c), ctx);
    OperationsSteady(u.s.after, u.p.store, done.env, Hidden(u.s), u.view.storage, next, Holding(u, stored), u.views,
        Some(lane));
  }

  lemma {:induction false} LaneArrives(u: Replay, c: Matrix, lane: Lane, code: seq<Operation>) returns (e: Env)
    requires Sized(u) && Ready(u)
    ensures Arrives(u, e)
    ensures ExecOperations(u.s.before + (u.s.between + code), u.env, Holding(u, c), Context(u.views, Some(lane))) ==
        ExecOperations(code, e, Holding(u, c), Context(u.views, Some(lane)))
  {
    hide ExecOperations, Lined, Reaches, Fits, FreshFor, Visible, Shadows;
    e := LaneReaches(u.s, code, u.visible, u.env, u.mem, u.views, u.p, u.view.storage, c, Some(lane));
  }

  lemma {:induction false} ScalarFlat(u: Replay)
    requires Sized(u) && Ready(u)
    ensures NoYield(ScalarCode(u))
  {
    ReadyParts(u);
    hide LaneOperations, Ready, Quiet, FreshFor;
    var s := u.s;
    LaneHasNoYield(u.names, s.matmul.operands[0], s.matmul.operands[1], s.store.operands[1], u.extent, s.store, u.t);
  }

  lemma {:induction false} LaneHasNoYield(names: seq<string>, lhs: string, rhs: string, output: string, extent: Extent,
          store: Operation, t: LaneTypes)
    requires |names| == 11
    ensures NoYield(LaneOperations(names, lhs, rhs, output, extent, store, t))
  {
    hide LaneBody;
  }

  // ----- all lanes -----

  ghost function Rewritten(u: Replay): seq<Operation>
    requires Sized(u)
  {
    u.s.before + (u.s.between + (ScalarCode(u) + u.s.after))
  }

  lemma {:induction false} AllLanes(u: Replay, stored: Matrix, c: Matrix, lanes: seq<Lane>)
    requires Sized(u) && Ready(u) && AccessHolds(u.view, c)
    requires forall lane :: lane in lanes ==> InView(u.view, lane)
    requires ExecOperations(u.s.after, u.p.store, Holding(u, stored), Context(u.views, None)).Success?
    ensures RunLanes(Rewritten(u), u.env, Holding(u, c), u.views, u.view, lanes) ==
        Success(Holding(u, StoredBy(u, c, lanes)))
    decreases |lanes|
  {
    hide ExecOperations, Ready, Sized, Holding, Rewritten, AccessHolds, StoredBy;
    StoredNext(u, c, lanes);
    if lanes != [] {
      if Live(u.view, lanes[0]) {
        RewrittenOnce(u, stored, c, lanes[0]);
        AllLanes(u, stored, StoredBy(u, c, [lanes[0]]), lanes[1..]);
      } else {
        AllLanes(u, stored, c, lanes[1..]);
      }
    }
  }

  lemma {:induction false} StoredNext(u: Replay, c: Matrix, lanes: seq<Lane>)
    requires Sized(u) && AccessHolds(u.view, c) && forall lane :: lane in lanes ==> InView(u.view, lane)
    ensures lanes == [] ==> StoredBy(u, c, lanes) == c
    ensures lanes != [] && !Live(u.view, lanes[0]) ==> StoredBy(u, c, lanes) == StoredBy(u, c, lanes[1..])
    ensures lanes != [] && Live(u.view, lanes[0]) ==>
        AccessHolds(u.view, StoredBy(u, c, [lanes[0]]))
        && StoredBy(u, c, lanes) == StoredBy(u, StoredBy(u, c, [lanes[0]]), lanes[1..])
  {
    hide Product;
    if lanes != [] && Live(u.view, lanes[0]) {
      var next := StoreOne(u.view, c, Product(u.p.a, u.p.b), lanes);
    }
  }

  lemma {:induction false} RewrittenOnce(u: Replay, stored: Matrix, c: Matrix, lane: Lane)
    requires Sized(u) && Ready(u) && AccessHolds(u.view, c) && InView(u.view, lane)
    requires ExecOperations(u.s.after, u.p.store, Holding(u, stored), Context(u.views, None)).Success?
    ensures
      var r := ExecOperations(Rewritten(u), u.env, Holding(u, c), Context(u.views, Some(lane)));
      r.Success? && r.value.mem == Holding(u, StoredBy(u, c, [lane]))
  {
    hide ExecOperations, Ready, Sized, Holding, StoredBy, ScalarCode, AccessHolds;
    LaneOnce(u, stored, c, lane);
  }

  // ----- an accepted program -----

  /** Temporaries in scope at the store are names of the program. */
  lemma {:induction false} TempsKnown(ops: seq<Operation>, visible: set<string>, base: set<string>, x: string)
    requires KnownOperations(ops, base) && (x in visible ==> x in base) && x in FinallyVisible(ops, visible)
    ensures x in base
    decreases |ops|
  {
    if ops != [] {
      TempsKnown(ops[1..], visible + NameSet(ops[0].results), base, x);
    }
  }

  /** The scope at the operations after `done`, where the rest is still accepted and clean. */
  lemma {:induction false} CleanAfter(done: seq<Operation>, ops: seq<Operation>, all: seq<Operation>,
          types: map<string, Type>, s: Scope, gone: set<string>) returns (at: Scope)
    requires VerifyOperations(done + ops, s, None).Success?
    requires CleanOperations(done + ops, all, types, s, None, gone, true)
    ensures VerifyOperations(ops, at, None).Success? && CleanOperations(ops, all, types, at, None, gone, true)
    ensures at.visible.Keys == FinallyVisible(done, s.visible.Keys)
    decreases |done|
  {
    hide VerifyOperation, CleanOperation;
    if done == [] {
      assert done + ops == ops;
      at := s;
    } else {
      assert (done + ops)[0] == done[0] && (done + ops)[1..] == done[1..] + ops;
      OperationScoped(done[0], |done + ops| == 1, s, None);
      at := CleanAfter(done[1..], ops, all, types, VerifyOperation(done[0], |done + ops| == 1, s, None).value, gone);
    }
  }

  /** The loop names of the scalar code are new at the store. */
  lemma {:induction false} LoopNamesNew(s: Single, types: map<string, Type>, scope: Scope, gone: set<string>)
    requires OneProduct(s) && SoleProducer(s) && VerifyOperations(s.Code(), scope, None).Success?
    requires Lined(s, scope.visible.Keys) && CleanOperations(s.Code(), s.Code(), types, scope, None, gone, true)
    ensures KK !in Visible(s, scope.visible.Keys) && ACC_ITER !in Visible(s, scope.visible.Keys)
  {
    OnlyProductDropped(s);
    ProducerIs(s);
    hide Quiet, Dropped, ProductOf, TransposeOf, VerifyOperations, FinallyVisible;
    var all, done, rest := s.Code(), s.before + ([s.matmul] + s.between), [s.store] + s.after;
    assert done + rest == all;
    var at := CleanAfter(done, rest, all, types, scope, gone);
    StoreVisible(s, scope.visible.Keys);
    assert rest[0] == s.store;
    assert CleanOperation(s.store, all, types, at, gone, true);
    hide CleanOperations;
  }

  lemma {:induction false} StoreVisible(s: Single, visible: set<string>)
    requires Lined(s, visible)
    ensures FinallyVisible(s.before + ([s.matmul] + s.between), visible) == Visible(s, visible)
  {
    hide Quiet, ScopedOperations, FinallyVisible;
    var done, rest := s.before + ([s.matmul] + s.between), [s.store] + s.after;
    assert done + rest == s.Code();
    ScopedConcat(done, rest, visible);
    ScopedConcat(s.before, [s.matmul] + s.between, visible);
    FirstScoped(s.matmul, s.between, FinallyVisible(s.before, visible));
    assert s.matmul.results[0] in s.matmul.results;
    assert NameSet(s.matmul.results) == {s.matmul.results[0].name};
  }

  /** An accepted, clean program of this form, and a state to run it from. */
  ghost predicate Admissible(program: Program, s: Single, target: string, env: Env, mem: Memory,
          views: map<string, View>) {
    && VerifyProgram(program).Success? && CleanProgram(program) && OneProduct(s)
    && program.blocks == [Block([], s.Code())] && env.Keys == EntryScope(program).visible.Keys
    && OutputIs(s, target, env, mem, views)
  }

  function TypesAt(program: Program): map<string, Type>
    requires |program.blocks| == 1
  {
    BlockTypes(program.blocks[0], ProgramTypes(program))
  }

  /** Wherever the run gets to the store, the product has the extents of the output. */
  ghost predicate ProductFits(program: Program, s: Single, target: string, env: Env, mem: Memory,
          views: map<string, View>)
    requires |program.blocks| == 1 && OneProduct(s) && target in views
  {
    forall p: Stops :: Reaches(s, env, mem, views, p) ==>
        Fits(views[target], StoreExtent(s.matmul, TypesAt(program)), p)
  }

  lemma {:induction false} AdmissibleLined(program: Program, s: Single, target: string, env: Env, mem: Memory,
          views: map<string, View>)
    requires Admissible(program, s, target, env, mem, views)
    ensures Lined(s, env.Keys) && VerifyOperations(s.Code(), EntryScope(program), None).Success?
    ensures CleanOperations(s.Code(), s.Code(), TypesAt(program), EntryScope(program), None,
        BlockGone(program.blocks[0], {}), true)
  {
    hide VerifyOperations, CleanOperations, OneProduct, EntryScope, Shadows, BlockGone, BlockTypes,
        ScopedOperations, ProgramTypes, ProgramSymbols;
    var block, scope := program.blocks[0], EntryScope(program);
    assert BindArguments(block.args, scope) == Success(scope);
    OperationsScoped(s.Code(), scope, None);
    TopHasNoYield(s.Code(), scope);
  }

  /** The names of the scalar code are new wherever the store is. */
  lemma {:induction false} NamesFresh(program: Program, s: Single, target: string, env: Env, mem: Memory,
          views: map<string, View>, names: seq<string>)
    requires Admissible(program, s, target, env, mem, views) && Lined(s, env.Keys)
    requires |names| == 11 && forall i :: 0 <= i < 11 ==> names[i] !in ProgramTypes(program) && IsTemp(names[i])
    requires forall i :: 0 <= i < 11 ==> names[i] != KK && names[i] != ACC_ITER
    requires forall i, j :: 0 <= i < j < 11 ==> names[i] != names[j]
    ensures FreshFor(names, Visible(s, env.Keys))
  {
    AdmissibleLined(program, s, target, env, mem, views);
    SingleBinds(s, env.Keys);
    LoopNamesNew(s, TypesAt(program), EntryScope(program), BlockGone(program.blocks[0], {}));
    EntryTracks(program);
    var base, all := ProgramTypes(program).Keys, Visible(s, env.Keys);
    hide VerifyProgram, VerifyOperations, CleanOperations, CleanBlock, OneProduct, Tracks, TypesAt, BlockGone,
        ProgramTypes, FinallyVisible, Visible, KnownOperations, Lined;
    forall i | 0 <= i < 11
      ensures names[i] !in all
    {
      if names[i] in all {
        TempBelongs(s, env.Keys, base, names[i]);
        assert false;
      }
    }
  }

  lemma {:induction false} TempBelongs(s: Single, visible: set<string>, base: set<string>, x: string)
    requires Lined(s, visible) && KnownOperations(s.Code(), base) && (x in visible ==> x in base)
    requires x in Visible(s, visible)
    ensures x in base
  {
    SingleNames(s, visible);
    hide Lined, FinallyVisible, KnownOperations, Visible;
    VisibleGrows([s.store] + s.after, Visible(s, visible));
    TempsKnown(s.Code(), visible, base, x);
  }

  /** The rewritten program is the code of some replay. */
  lemma {:induction false} ReplayOf(program: Program, s: Single, target: string, env: Env, mem: Memory,
          views: map<string, View>, p: Stops) returns (u: Replay)
    requires Admissible(program, s, target, env, mem, views) && target in views
    requires Reaches(s, env, mem, views, p) && Fits(views[target], StoreExtent(s.matmul, TypesAt(program)), p)
    ensures Sized(u) && Ready(u) && u.s == s && u.env == env && u.mem == mem && u.views == views && u.p == p
    ensures u.view == views[target] && u.target == target
    ensures DecomposeProgram(program).blocks == [Block([], Rewritten(u))]
  {
    hide Admissible, Reaches, Fits, Quiet, OneProduct, FreshNames, LaneOperations, DecomposeMatMulStore,
        DecomposeOperations, DecomposeProgram, FreshFor, Lined, OutputIs, TypesAt, ExtentOf, SoleProducer;
    AdmissibleParts(program, s, target, env, mem, views);
    var types, existing := TypesAt(program), ProgramTypes(program).Keys;
    var counter := FreshIndex(existing, 0);
    var names, t := GeneratedBlock(s.matmul, s.store, types, existing, counter);
    AdmissibleLined(program, s, target, env, mem, views);
    NamesFresh(program, s, target, env, mem, views, names);
    u := Replay(s, names, StoreExtent(s.matmul, types), t, env.Keys, env, mem, views, views[target], p, target);
    ReadySized(u);
    SingleBinds(s, env.Keys);
    CodeDecomposes(s, types, Fresh(existing, counter));
    PassUnfolds(program, s.Code());
  }

  lemma {:induction false} AdmissibleParts(program: Program, s: Single, target: string, env: Env, mem: Memory,
          views: map<string, View>)
    requires Admissible(program, s, target, env, mem, views)
    ensures OneProduct(s) && OutputIs(s, target, env, mem, views) && IsProduct(s.matmul)
    ensures ClosesMatMul(s.matmul, s.store) && program.blocks == [Block([], s.Code())]
    ensures target in views && views[target].storage in mem && AccessHolds(views[target], mem[views[target].storage])
    ensures Shadows(env, env, Hidden(s), views[target].storage, views) && s.store.operands[1] in env
    ensures env[s.store.operands[1]] == Ref(target)
  {
    hide CleanProgram, Quiet, VerifyProgram, Shadows, AccessHolds;
  }

  lemma {:induction false} PassUnfolds(program: Program, ops: seq<Operation>)
    requires program.blocks == [Block([], ops)]
    ensures
      var existing := ProgramTypes(program).Keys;
      DecomposeProgram(program).blocks == [Block([],
          DecomposeOperations(ops, ops, TypesAt(program), Fresh(existing, FreshIndex(existing, 0))).0)]
  {
    hide DecomposeOperations, ProgramTypes, FreshIndex;
  }

  // ----- the theorem -----

  /** After the store the rest of the program runs as it would from the stored memory. */
  lemma {:induction false} StoreThen(s: Single, p: Stops, mem: Memory, after: Memory, views: map<string, View>,
          storage: string)
    requires OneProduct(s) && Shadows(p.store, p.store, Hidden(s), storage, views)
    requires ExecOperations([s.store], p.store, mem, Context(views, None)).Success?
    requires ExecOperations([s.store], p.store, mem, Context(views, None)).value.mem == after
    requires ExecOperations([s.store] + s.after, p.store, mem, Context(views, None)).Success?
    ensures ExecOperations(s.after, p.store, after, Context(views, None)).Success?
    ensures ExecOperations([s.store] + s.after, p.store, mem, Context(views, None)).value.mem == after
  {
    var ctx := Context(views, None);
    StoreBindsNothing(s.store, p.store, mem, ctx);
    hide ExecOperations, Quiet, Shadows;
    ExecConcat([s.store], s.after, p.store, mem, ctx);
    QuietEnds(s.after, p.store, after, views, Hidden(s), storage);
  }

  lemma {:induction false} StoreBindsNothing(store: Operation, env: Env, mem: Memory, ctx: Context)
    requires store.opcode.Store? && store.results == [] && ExecOperations([store], env, mem, ctx).Success?
    ensures ExecOperations([store], env, mem, ctx).value.env == env
  {
    hide ExecOperation;
    var one := [store];
    assert one[1..] == [];
  }

  /** Replaying the rewritten program stores the product at every live lane. */
  lemma {:induction false} RewrittenReplays(program: Program, s: Single, target: string, env: Env, mem: Memory,
          views: map<string, View>, p: Stops, stored: Matrix)
    requires Admissible(program, s, target, env, mem, views) && target in views
    requires Reaches(s, env, mem, views, p) && Fits(views[target], StoreExtent(s.matmul, TypesAt(program)), p)
    requires AccessHolds(views[target], mem[views[target].storage])
    requires ExecOperations(s.after, p.store, mem[views[target].storage := stored], Context(views, None)).Success?
    ensures p.a.cols == p.b.rows && p.a.rows == views[target].row.rows && p.b.cols == views[target].row.cols
    ensures
      var view := views[target];
      RunLanes(DecomposeProgram(program).blocks[0].operations, env, mem, views, view, Lanes(view)) ==
      Success(mem[view.storage := StoreLanes(view, mem[view.storage], Product(p.a, p.b), Lanes(view))])
  {
    hide Admissible, Reaches, ExecOperations, Ready, RunLanes, AccessHolds, Lanes, DecomposeProgram, Rewritten,
        StoreLanes, Product, StoreExtent;
    var u := ReplayOf(program, s, target, env, mem, views, p);
    AllLanes(u, stored, mem[u.view.storage], Lanes(u.view));
    assert mem[u.view.storage := mem[u.view.storage]] == mem;
  }

  /** A successful run of an admissible program: its stops, and its end after the store. */
  lemma {:induction false} WholeRun(program: Program, s: Single, target: string, env: Env, mem: Memory,
          views: map<string, View>) returns (p: Stops)
    requires Admissible(program, s, target, env, mem, views) && target in views
    requires ExecOperations(s.Code(), env, mem, Context(views, None)).Success?
    ensures Reaches(s, env, mem, views, p) && Shadows(p.store, p.store, Hidden(s), views[target].storage, views)
    ensures s.store.operands[1] in p.store && p.store[s.store.operands[1]] == Ref(target)
    ensures s.store.operands[0] in p.store && p.store[s.store.operands[0]] == Tile(Product(p.a, p.b))
    ensures ExecOperations(s.Code(), env, mem, Context(views, None)) ==
        ExecOperations([s.store] + s.after, p.store, mem, Context(views, None))
  {
    hide Admissible, Reaches, Quiet, OutputIs, Shadows, ExecOperations, Product, Lined, CleanOperations,
        ScopedOperations, NoYield;
    AdmissibleParts(program, s, target, env, mem, views);
    AdmissibleLined(program, s, target, env, mem, views);
    LinedFlat(s, env.Keys);
    p := ReachesStore(s, env, mem, views, views[target].storage);
    AtStore(s, env.Keys, env, mem, views, p, views[target].storage);
  }

  lemma {:induction false} LinedFlat(s: Single, visible: set<string>)
    requires Lined(s, visible)
    ensures NoYield(s.Code())
  {
  }

  /** The rewritten program, run once for each live lane of its output, leaves exactly what the
      program leaves: for any code before, between and after the product and its store. */
  lemma {:induction false} ProgramReplays(program: Program, s: Single, target: string, env: Env, mem: Memory,
          views: map<string, View>)
    requires Admissible(program, s, target, env, mem, views) && |s.store.operands| == 2 && target in views
    requires ProductFits(program, s, target, env, mem, views)
    requires ExecOperations(program.blocks[0].operations, env, mem, Context(views, None)).Success?
    ensures RunLanes(DecomposeProgram(program).blocks[0].operations, env, mem, views, views[target],
        Lanes(views[target]))
         == Success(ExecOperations(program.blocks[0].operations, env, mem, Context(views, None)).value.mem)
  {
    AdmissibleParts(program, s, target, env, mem, views);
    hide Admissible, Reaches, ExecOperations, RunLanes, Lanes, DecomposeProgram, StoreLanes, Product, StoreExtent,
        OutputIs, Shadows, Quiet, AccessHolds;
    var view := views[target];
    var p := WholeRun(program, s, target, env, mem, views);
    assert Fits(view, StoreExtent(s.matmul, TypesAt(program)), p);
    var stored := StoreLanes(view, mem[view.storage], Product(p.a, p.b), Lanes(view));
    StoreRuns(s.store, Product(p.a, p.b), target, p.store, mem, Context(views, None));
    StoreThen(s, p, mem, mem[view.storage := stored], views, view.storage);
    RewrittenReplays(program, s, target, env, mem, views, p, stored);
  }

  /** With a mask the replay leaves what the program leaves exactly if the output already holds
      the product wherever the mask rejects a live lane. */
  lemma {:induction false} MaskedProgramExact(program: Program, s: Single, target: string, env: Env, mem: Memory,
          views: map<string, View>, p: Stops, mask: Matrix)
    requires Admissible(program, s, target, env, mem, views) && |s.store.operands| == 3 && target in views
    requires ProductFits(program, s, target, env, mem, views) && Reaches(s, env, mem, views, p)
    requires MaskedStore(s.store, s.store.operands[0], target, p.store, mem, views, mask)
    requires ExecOperations(program.blocks[0].operations, env, mem, Context(views, None)).Success?
    ensures p.a.cols == p.b.rows && p.a.rows == mask.rows == views[target].row.rows
    ensures p.b.cols == mask.cols == views[target].row.cols
    ensures
      var view, whole := views[target], ExecOperations(program.blocks[0].operations, env, mem, Context(views, None));
      var replayed := RunLanes(DecomposeProgram(program).blocks[0].operations, env, mem, views, view, Lanes(view));
      && replayed.Success? && view.storage in mem && AccessHolds(view, mem[view.storage])
      && (replayed == Success(whole.value.mem) <==> AlreadyHolds(view, mem[view.storage], Product(p.a, p.b), mask))
  {
    hide Admissible, Reaches, ExecOperations, RunLanes, Lanes, DecomposeProgram, StoreLanes, Product, StoreExtent,
        OutputIs, Quiet, AccessHolds, MaskedStore, Masked, AlreadyHolds, LanesApart;
    AdmissibleParts(program, s, target, env, mem, views);
    assert Fits(views[target], StoreExtent(s.matmul, TypesAt(program)), p);
    ReachesReads(s, env, mem, views, p);
    hide OneProduct, ProductFits;
    MaskApart(s.store, s.store.operands[0], target, p.store, mem, views, mask);
    MaskedWhole(program, s, target, env, mem, views, p, mask);
    RewrittenReplays(program, s, target, env, mem, views, p, MaskedResult(views[target], mem, p, mask));
    MaskVerdict(views[target], mem, Product(p.a, p.b), mask);
  }

  lemma {:induction false} MaskApart(store: Operation, result: string, target: string, env: Env, mem: Memory,
          views: map<string, View>, mask: Matrix)
    requires MaskedStore(store, result, target, env, mem, views, mask)
    ensures target in views && LanesApart(views[target])
    ensures mask.rows == views[target].row.rows && mask.cols == views[target].row.cols
  {
  }

  ghost function MaskedResult(view: View, mem: Memory, p: Stops, mask: Matrix): Matrix
    requires view.storage in mem && AccessHolds(view, mem[view.storage]) && p.a.cols == p.b.rows
    requires p.a.rows == mask.rows == view.row.rows && p.b.cols == mask.cols == view.row.cols
  {
    MaskedAccess(view, mem[view.storage], mask);
    StoreLanes(Masked(view, mask), mem[view.storage], Product(p.a, p.b), Lanes(view))
  }

  /** What the whole-tile run leaves under a mask. */
  lemma {:induction false} MaskedWhole(program: Program, s: Single, target: string, env: Env, mem: Memory,
          views: map<string, View>, p: Stops, mask: Matrix)
    requires Admissible(program, s, target, env, mem, views) && |s.store.operands| == 3 && target in views
    requires Reaches(s, env, mem, views, p) && p.a.cols == p.b.rows
    requires p.a.rows == mask.rows == views[target].row.rows && p.b.cols == mask.cols == views[target].row.cols
    requires MaskedStore(s.store, s.store.operands[0], target, p.store, mem, views, mask)
    requires views[target].storage in mem && AccessHolds(views[target], mem[views[target].storage])
    requires ExecOperations(s.Code(), env, mem, Context(views, None)).Success?
    ensures
      var after := mem[views[target].storage := MaskedResult(views[target], mem, p, mask)];
      && ExecOperations(s.Code(), env, mem, Context(views, None)).value.mem == after
      && ExecOperations(s.after, p.store, after, Context(views, None)).Success?
  {
    hide Admissible, Reaches, ExecOperations, Lanes, StoreLanes, Product, OutputIs, Shadows, Quiet, AccessHolds,
        MaskedStore, Masked, LanesApart, Reachable;
    var view := views[target];
    AdmissibleParts(program, s, target, env, mem, views);
    var q := WholeRun(program, s, target, env, mem, views);
    SameStops(s, env, mem, views, p, q);
    assert Reachable(Context(views, None), mem, target) by {
      OutputReachable(s, target, env, mem, views);
    }
    MaskedStoreRuns(s.store, s.store.operands[0], Product(p.a, p.b), target, p.store, mem, views, mask);
    assert p.store[s.store.operands[0] := Tile(Product(p.a, p.b))] == p.store;
    StoreThen(s, p, mem, mem[view.storage := MaskedResult(view, mem, p, mask)], views, view.storage);
  }

  lemma {:induction false} OutputReachable(s: Single, target: string, env: Env, mem: Memory, views: map<string, View>)
    requires OneProduct(s) && OutputIs(s, target, env, mem, views)
    ensures Reachable(Context(views, None), mem, target)
  {
  }

  lemma {:induction false} SameStops(s: Single, env: Env, mem: Memory, views: map<string, View>, p: Stops, q: Stops)
    requires OneProduct(s) && Reaches(s, env, mem, views, p) && Reaches(s, env, mem, views, q)
    ensures p == q
  {
    hide Quiet, ExecOperations;
  }
}
