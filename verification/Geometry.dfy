/** The address map of an arranged block, and the one-entry cache that keeps a proven one. */
module Geometry {
  import opened Wrappers
  import opened Expressions
  import opened Bounds

  /** An arranged layout: the shapes of its levels and the access of the innermost one. */
  datatype Layout = Layout(levels: seq<seq<Expr>>, access: Option<AccessMap>)

  datatype AccessMap = AccessMap(mask: Expr, indices: seq<Expr>)

  /** A tensor reference. `layoutId` is the object identity of its layout; `plain` says that
      array, layout, symbol table and observer are of the exact built-in types. */
  datatype Ref = Ref(
    layoutId: nat, layout: Layout, plain: bool,
    shape: seq<int>, strides: seq<int>, dtype: string,
    symbols: map<string, Value>, outer: Value, level: nat, extracted: seq<seq<Value>>)

  /** The source indices of every lane, in order, and which lanes are live. */
  datatype Access = Access(mask: seq<bool>, coordinates: seq<seq<int>>)

  type Lane = seq<nat>

  // ----- the direct computation -----

  function ExtentOf(v: Option<Value>): Option<nat> {
    match v
    case None => None
    case Some(x) => if AsInt(x) < 0 then None else Some(AsInt(x))
  }

  function ShapeValue(shape: seq<Expr>, symbols: map<string, Value>): Option<seq<nat>> {
    if shape == [] then Some([])
    else
      match (ExtentOf(Evaluate(shape[0], symbols, Exact)), ShapeValue(shape[1..], symbols))
      case (Some(n), Some(rest)) => Some([n] + rest)
      case _ => None
  }

  /** The lanes of a block in row-major order. */
  function LanesOf(shape: seq<nat>): (r: seq<Lane>)
    ensures forall i :: 0 <= i < |r| ==> |r[i]| == |shape| && forall d :: 0 <= d < |shape| ==> r[i][d] < shape[d]
    decreases |shape|, 1, 0
  {
    if shape == [] then [[]] else LanesFrom(shape, shape[0])
  }

  function LanesFrom(shape: seq<nat>, n: nat): (r: seq<Lane>)
    requires shape != [] && n <= shape[0]
    ensures forall i :: 0 <= i < |r| ==> |r[i]| == |shape| && forall d :: 0 <= d < |shape| ==> r[i][d] < shape[d]
    decreases |shape|, 0, n
  {
    if n == 0 then [] else
      var rest := LanesOf(shape[1..]);
      LanesFrom(shape, n - 1) + seq(|rest|, i requires 0 <= i < |rest| => [n - 1] + rest[i])
  }

  function ExtractName(level: nat, dim: nat): string {
    "extract_" + Digits(level) + "_" + Digits(dim)
  }

  function ValueName(dim: nat): string {
    "value_" + Digits(dim)
  }

  function BindExtract(symbols: map<string, Value>, level: nat, at: seq<Value>): map<string, Value> {
    if at == [] then symbols
    else BindExtract(symbols, level, at[..|at| - 1])[ExtractName(level, |at| - 1) := at[|at| - 1]]
  }

  function BindExtracted(symbols: map<string, Value>, extracted: seq<seq<Value>>): map<string, Value> {
    if extracted == [] then symbols
    else BindExtract(BindExtracted(symbols, extracted[..|extracted| - 1]), |extracted| - 1, extracted[|extracted| - 1])
  }

  function BindLane(symbols: map<string, Value>, lane: Lane): map<string, Value> {
    if lane == [] then symbols
    else BindLane(symbols, lane[..|lane| - 1])[ValueName(|lane| - 1) := I(lane[|lane| - 1])]
  }

  /** The symbols an access map sees in one lane. */
  function LaneSymbols(ref: Ref, lane: Lane): map<string, Value> {
    BindLane(BindExtracted(ref.symbols["outer_index" := ref.outer], ref.extracted), lane)
  }

  function Integers(indices: seq<Expr>, symbols: map<string, Value>): Option<seq<int>> {
    if indices == [] then Some([])
    else
      match (Evaluate(indices[0], symbols, Wrap), Integers(indices[1..], symbols))
      case (Some(I(n)), Some(rest)) => Some([n] + rest)
      case _ => None
  }

  predicate Inside(at: seq<int>, shape: seq<int>) {
    |at| == |shape| && forall d :: 0 <= d < |at| ==> 0 <= at[d] < shape[d]
  }

  /** Mask and coordinates of some lanes; a live lane outside the source is an error. */
  function AccessLanes(ref: Ref, map_: AccessMap, lanes: seq<Lane>): Option<Access> {
    if lanes == [] then Some(Access([], []))
    else
      var symbols := LaneSymbols(ref, lanes[0]);
      match (Evaluate(map_.mask, symbols, Wrap), Integers(map_.indices, symbols), AccessLanes(ref, map_, lanes[1..]))
      case (Some(live), Some(at), Some(rest)) =>
        if |at| == |ref.shape| && (Truth(live) ==>
            Inside(at, ref.shape)) then Some(Access([Truth(live)] + rest.mask, [at] + rest.coordinates))
        else None
      case _ => None
  }

  /** `TensorRef._access`: None stands for an exception. */
  function DirectAccess(ref: Ref): Option<Access> {
    if ref.level + 1 != |ref.layout.levels| then None
    else match (ShapeValue(ref.layout.levels[ref.level], ref.symbols), ref.layout.access)
      case (Some(shape), Some(map_)) => AccessLanes(ref, map_, LanesOf(shape))
      case _ => None
  }

  // ----- what the proof demands -----

  predicate Trusted(e: Expr, depth: nat) {
    depth <= 128
    && match e
       case Constant(value) => Literal(value).Some?
       case Symbol(_) => true
       case Node(op, operands) =>
         !op.CallOp? && |operands| == (if op.BinaryOp? then 2 else 1)
         && forall i :: 0 <= i < |operands| ==> Trusted(operands[i], depth + 1)
  }

  function SymbolsOf(roots: seq<Expr>): set<string> {
    set i, s | 0 <= i < |roots| && s in Symbols(roots[i]) :: s
  }

  function Roots(layout: Layout, level: nat): (r: seq<Expr>)
    requires level < |layout.levels| && layout.access.Some?
  {
    layout.levels[level] + [layout.access.value.mask] + layout.access.value.indices
  }

  predicate Cacheable(layout: Layout, level: nat) {
    level + 1 == |layout.levels| && layout.access.Some? && forall i :: 0 <= i < |Roots(layout, level)| ==>
        Trusted(Roots(layout, level)[i], 0)
  }

  function Bindings(symbols: map<string, Value>, names: set<string>): map<string, Value> {
    map s | s in symbols && s in names :: symbols[s]
  }

  predicate AllIntegers(extracted: seq<seq<Value>>) {
    forall l, d :: 0 <= l < |extracted| && 0 <= d < |extracted[l]| ==> extracted[l][d].I?
  }

  datatype Key = Key(layoutId: nat, level: nat, outer: Value, extracted: seq<seq<Value>>, shape: seq<int>,
      strides: seq<int>, dtype: string, bindings: map<string, Value>)

  function KeyOf(ref: Ref, names: set<string>): Key {
    Key(ref.layoutId, ref.level, ref.outer, ref.extracted, ref.shape, ref.strides, ref.dtype,
        Bindings(ref.symbols, names))
  }

  // ----- the key determines the address map -----

  lemma {:induction false} BindingsAgree(names: set<string>, a: map<string, Value>, b: map<string, Value>)
    requires Bindings(a, names) == Bindings(b, names)
    ensures AgreeOn(names, a, b)
  {
    forall s | s in names
      ensures (s in a <==> s in b) && (s in a ==> a[s] == b[s])
    {
      assert s in a <==> s in Bindings(a, names);
      assert s in b <==> s in Bindings(b, names);
      assert s in a ==> Bindings(a, names)[s] == a[s];
      assert s in b ==> Bindings(b, names)[s] == b[s];
    }
  }

  lemma {:induction false} ExtractAgrees(names: set<string>, a: map<string, Value>, b: map<string, Value>, level: nat,
          at: seq<Value>)
    requires AgreeOn(names, a, b)
    ensures AgreeOn(names, BindExtract(a, level, at), BindExtract(b, level, at))
    decreases |at|
  {
    if at != [] {
      ExtractAgrees(names, a, b, level, at[..|at| - 1]);
    }
  }

  lemma {:induction false} ExtractedAgrees(names: set<string>, a: map<string, Value>, b: map<string, Value>,
          extracted: seq<seq<Value>>)
    requires AgreeOn(names, a, b)
    ensures AgreeOn(names, BindExtracted(a, extracted), BindExtracted(b, extracted))
    decreases |extracted|
  {
    if extracted != [] {
      var n := |extracted| - 1;
      ExtractedAgrees(names, a, b, extracted[..n]);
      ExtractAgrees(names, BindExtracted(a, extracted[..n]), BindExtracted(b, extracted[..n]), n, extracted[n]);
    }
  }

  lemma {:induction false} LaneAgrees(names: set<string>, a: map<string, Value>, b: map<string, Value>, lane: Lane)
    requires AgreeOn(names, a, b)
    ensures AgreeOn(names, BindLane(a, lane), BindLane(b, lane))
    decreases |lane|
  {
    if lane != [] {
      LaneAgrees(names, a, b, lane[..|lane| - 1]);
    }
  }

  lemma {:induction false} ShapeLocal(shape: seq<Expr>, a: map<string, Value>, b: map<string, Value>)
    requires AgreeOn(SymbolsOf(shape), a, b)
    ensures ShapeValue(shape, a) == ShapeValue(shape, b)
    decreases |shape|
  {
    if shape != [] {
      RootsAgree(shape, a, b);
      EvaluateLocal(shape[0], a, b, Exact);
      ShapeLocal(shape[1..], a, b);
    }
  }

  lemma {:induction false} RootsAgree(roots: seq<Expr>, a: map<string, Value>, b: map<string, Value>)
    requires AgreeOn(SymbolsOf(roots), a, b) && roots != []
    ensures AgreeOn(Symbols(roots[0]), a, b) && AgreeOn(SymbolsOf(roots[1..]), a, b)
  {
    forall s | s in Symbols(roots[0])
      ensures s in SymbolsOf(roots)
    {
      assert 0 <= 0 < |roots| && s in Symbols(roots[0]);
    }
    forall s | s in SymbolsOf(roots[1..])
      ensures s in SymbolsOf(roots)
    {
      var i :| 0 <= i < |roots| - 1 && s in Symbols(roots[1..][i]);
      assert s in Symbols(roots[i + 1]);
    }
  }

  lemma {:induction false} IntegersLocal(indices: seq<Expr>, a: map<string, Value>, b: map<string, Value>)
    requires AgreeOn(SymbolsOf(indices), a, b)
    ensures Integers(indices, a) == Integers(indices, b)
    decreases |indices|
  {
    if indices != [] {
      RootsAgree(indices, a, b);
      EvaluateLocal(indices[0], a, b, Wrap);
      IntegersLocal(indices[1..], a, b);
    }
  }

  lemma {:induction false} LanesLocal(a: Ref, b: Ref, map_: AccessMap, lanes: seq<Lane>, names: set<string>)
    requires AgreeOn(names, a.symbols, b.symbols) && a.outer == b.outer && a.extracted == b.extracted
    requires a.shape == b.shape
    requires Symbols(map_.mask) <= names && SymbolsOf(map_.indices) <= names
    ensures AccessLanes(a, map_, lanes) == AccessLanes(b, map_, lanes)
    decreases |lanes|
  {
    if lanes != [] {
      LanesLocal(a, b, map_, lanes[1..], names);
      var x, y := a.symbols["outer_index" := a.outer], b.symbols["outer_index" := b.outer];
      assert AgreeOn(names, x, y);
      ExtractedAgrees(names, x, y, a.extracted);
      LaneAgrees(names, BindExtracted(x, a.extracted), BindExtracted(y, b.extracted), lanes[0]);
      EvaluateLocal(map_.mask, LaneSymbols(a, lanes[0]), LaneSymbols(b, lanes[0]), Wrap);
      IntegersLocal(map_.indices, LaneSymbols(a, lanes[0]), LaneSymbols(b, lanes[0]));
    }
  }

  lemma {:induction false} PartOfRoots(roots: seq<Expr>, i: nat, j: nat)
    requires i <= j <= |roots|
    ensures SymbolsOf(roots[i..j]) <= SymbolsOf(roots)
  {
    forall s | s in SymbolsOf(roots[i..j])
      ensures s in SymbolsOf(roots)
    {
      var k :| 0 <= k < j - i && s in Symbols(roots[i..j][k]);
      assert s in Symbols(roots[i + k]);
    }
  }

  /** Two references with the same layout and the same key have the same address map. */
  lemma {:induction false} KeyDeterminesAccess(a: Ref, b: Ref)
    requires a.layout == b.layout && Cacheable(a.layout, a.level)
    requires var names := SymbolsOf(Roots(a.layout, a.level)); KeyOf(a, names) == KeyOf(b, names)
    ensures DirectAccess(a) == DirectAccess(b)
  {
    var roots := Roots(a.layout, a.level);
    var names, shape, map_ := SymbolsOf(roots), a.layout.levels[a.level], a.layout.access.value;
    BindingsAgree(names, a.symbols, b.symbols);
    assert roots[..|shape|] == shape && roots[0..|shape|] == shape;
    PartOfRoots(roots, 0, |shape|);
    ShapeLocal(shape, a.symbols, b.symbols);
    assert roots[|shape| + 1..|roots|] == map_.indices && roots[|shape|] == map_.mask;
    PartOfRoots(roots, |shape| + 1, |roots|);
    assert Symbols(map_.mask) <= names;
    match ShapeValue(shape, a.symbols)
    case None =>
    case Some(sizes) => LanesLocal(a, b, map_, LanesOf(sizes), names);
  }

  // ----- the range proof -----

  /** `_bounds`: one memo entry for each plan, shared by all that contain it. */
  method BoundsWithMemo(p: Plan, ranges: map<string, Range>, memo: map<Plan, Option<Range>>)
    returns (r: Option<Range>, memo': map<Plan, Option<Range>>)
    requires forall q :: q in memo ==> memo[q] == BoundsOf(q, ranges)
    ensures r == BoundsOf(p, ranges)
    ensures p in memo' && memo.Keys <= memo'.Keys && forall q :: q in memo' ==> memo'[q] == BoundsOf(q, ranges)
    decreases p
  {
    if p in memo {
      return memo[p], memo;
    }
    memo' := memo;
    match p {
      case PConstant(value) => r := Literal(value);
      case PSymbol(name) => r := if name in ranges then Some(ranges[name]) else None;
      case PUnary(g, operand) =>
        r, memo' := BoundsWithMemo(operand, ranges, memo');
        r := if r.None? then None else UnaryBounds(g, r.value);
      case PBinary(f, left, right) =>
        var a, b;
        a, memo' := BoundsWithMemo(left, ranges, memo');
        b, memo' := BoundsWithMemo(right, ranges, memo');
        r := if a.None? || b.None? then None else BinaryBounds(f, a.value, b.value);
      case PEvaluate(_) => r := None;
    }
    memo' := memo'[p := r];
  }

  function Nodes(e: Expr): (n: nat)
    ensures n > 0
    decreases e, 1, 0
  {
    match e
    case Node(_, operands) => 1 + AllNodes(e, operands)
    case _ => 1
  }

  function AllNodes(ghost parent: Expr, operands: seq<Expr>): nat
    requires forall i :: 0 <= i < |operands| ==> operands[i] < parent
    decreases parent, 0, |operands|
  {
    if operands == [] then 0 else Nodes(operands[0]) + AllNodes(parent, operands[1..])
  }

  function Weight(pending: seq<Expr>): nat {
    if pending == [] then 0 else Nodes(pending[0]) + Weight(pending[1..])
  }

  lemma {:induction false} WeightConcat(a: seq<Expr>, b: seq<Expr>)
    ensures Weight(a + b) == Weight(a) + Weight(b)
  {
    if a == [] {
      assert a + b == b;
    } else {
      assert (a + b)[1..] == a[1..] + b;
      WeightConcat(a[1..], b);
    }
  }

  lemma {:induction false} WeightOfOperands(parent: Expr, operands: seq<Expr>)
    requires forall i :: 0 <= i < |operands| ==> operands[i] < parent
    ensures Weight(operands) == AllNodes(parent, operands)
    decreases |operands|
  {
    if operands != [] {
      WeightOfOperands(parent, operands[1..]);
    }
  }

  function Operands(e: Expr): seq<Expr> {
    if e.Node? then e.operands else []
  }

  /** Whatever has been seen has its own name recorded and its operands seen or waiting. */
  ghost predicate Visited(seen: set<Expr>, names: set<string>, pending: seq<Expr>) {
    forall e :: e in seen ==> (e.Symbol? ==> e.name in names) && forall i :: 0 <= i < |Operands(e)| ==>
        Operands(e)[i] in seen || Operands(e)[i] in pending
  }

  lemma {:induction false} VisitedAll(seen: set<Expr>, names: set<string>, e: Expr)
    requires Visited(seen, names, []) && e in seen
    ensures Symbols(e) <= names
  {
    if e.Node? {
      forall s | s in Symbols(e)
        ensures s in names
      {
        var i :| 0 <= i < |e.operands| && s in Symbols(e.operands[i]);
        assert Operands(e)[i] in seen;
        VisitedAll(seen, names, e.operands[i]);
      }
    }
  }

  /** `_referenced_symbols`: a worklist over the expressions; shared ones are visited once. */
  method ReferencedSymbols(roots: seq<Expr>) returns (names: set<string>)
    ensures names == SymbolsOf(roots)
  {
    var pending: seq<Expr>, seen: set<Expr> := roots, {};
    names := {};
    while pending != []
      invariant Visited(seen, names, pending)
      invariant forall i :: 0 <= i < |roots| ==> roots[i] in seen || roots[i] in pending
      invariant names + SymbolsOf(pending) <= SymbolsOf(roots)
      decreases Weight(pending)
    {
      var e, rest := pending[|pending| - 1], pending[..|pending| - 1];
      Pop(pending, rest, e);
      pending := rest;
      if e !in seen {
        seen := seen + {e};
        if e.Symbol? {
          names := names + {e.name};
        }
        pending := rest + Operands(e);
      }
    }
    forall i | 0 <= i < |roots|
      ensures Symbols(roots[i]) <= names
    {
      VisitedAll(seen, names, roots[i]);
    }
  }

  lemma {:induction false} Pop(pending: seq<Expr>, rest: seq<Expr>, e: Expr)
    requires pending == rest + [e]
    ensures forall x :: x in pending <==> x in rest || x == e
    ensures SymbolsOf(pending) == SymbolsOf(rest) + Symbols(e)
    ensures e.Symbol? ==> e.name in SymbolsOf(pending)
    ensures SymbolsOf(rest + Operands(e)) <= SymbolsOf(pending)
    ensures Weight(rest) < Weight(pending) && Weight(rest + Operands(e)) < Weight(pending)
  {
    WeightConcat(rest, [e]);
    SymbolsConcat(rest, [e]);
    assert [e][1..] == [];
    WeightConcat(rest, Operands(e));
    SymbolsConcat(rest, Operands(e));
    if e.Node? {
      WeightOfOperands(e, e.operands);
      assert Symbols(e) == SymbolsOf(e.operands);
    }
  }

  lemma {:induction false} SymbolsConcat(a: seq<Expr>, b: seq<Expr>)
    ensures SymbolsOf(a + b) == SymbolsOf(a) + SymbolsOf(b)
    ensures |b| == 1 ==> SymbolsOf(b) == Symbols(b[0])
  {
    var all := a + b;
    forall s | s in SymbolsOf(a)
      ensures s in SymbolsOf(all)
    {
      var i :| 0 <= i < |a| && s in Symbols(a[i]);
      assert s in Symbols(all[i]);
    }
    forall s | s in SymbolsOf(b)
      ensures s in SymbolsOf(all)
    {
      var i :| 0 <= i < |b| && s in Symbols(b[i]);
      assert s in Symbols(all[|a| + i]);
    }
  }

  // ----- ranges of all names an access map may see -----

  function LiteralRanges(bindings: map<string, Value>): Option<map<string, Range>> {
    if forall s :: s in bindings ==>
        Literal(bindings[s]).Some? then Some(map s | s in bindings :: Literal(bindings[s]).value) else None
  }

  predicate AllLiteral(extracted: seq<seq<Value>>) {
    forall l, d :: 0 <= l < |extracted| && 0 <= d < |extracted[l]| ==> Literal(extracted[l][d]).Some?
  }

  function RangeExtract(ranges: map<string, Range>, level: nat, at: seq<Value>): map<string, Range>
    requires forall d :: 0 <= d < |at| ==> Literal(at[d]).Some?
  {
    if at == [] then ranges
    else RangeExtract(ranges, level, at[..|at| - 1])[ExtractName(level, |at| - 1) := Literal(at[|at| - 1]).value]
  }

  function RangeExtracted(ranges: map<string, Range>, extracted: seq<seq<Value>>): map<string, Range>
    requires AllLiteral(extracted)
  {
    if extracted == [] then ranges
    else RangeExtract(RangeExtracted(ranges, extracted[..|extracted| - 1]), |extracted| - 1, extracted[|extracted| - 1])
  }

  function RangeLane(ranges: map<string, Range>, shape: seq<nat>): map<string, Range> {
    if shape == [] then ranges
    else
      var size: int := shape[|shape| - 1];
      RangeLane(ranges, shape[..|shape| - 1])[ValueName(|shape| - 1) := Range(0, size - 1, false)]
  }

  /** The extents, when the analysis pins each of them to one positive number. */
  function ProvenShape(shape: seq<Expr>, ranges: map<string, Range>): Option<seq<nat>> {
    if shape == [] then Some([])
    else
      match (BoundsOf(Build(shape[0]), ranges), ProvenShape(shape[1..], ranges))
      case (Some(r), Some(rest)) =>
          if !r.boolean && r.low == r.high && r.low > 0 then (var n: nat := r.low; Some([n] + rest)) else None
      case _ => None
  }

  function Product(shape: seq<nat>): nat {
    if shape == [] then 1 else shape[0] * Product(shape[1..])
  }

  /** Every proof obligation of the cache: constant extents, a small block, and bounds for
      the mask and all indices, which must not be truth values. */
  predicate Proven(ref: Ref)
    requires Cacheable(ref.layout, ref.level)
  {
    var names := SymbolsOf(Roots(ref.layout, ref.level));
    var map_ := ref.layout.access.value;
    var literals := LiteralRanges(Bindings(ref.symbols, names));
    literals.Some? && Literal(ref.outer).Some? && AllLiteral(ref.extracted)
    && var shape := ProvenShape(ref.layout.levels[ref.level], literals.value);
       shape.Some? && Product(shape.value) <= 65536
       && var ranges := AccessRanges(ref, literals.value, shape.value);
          BoundsOf(Build(map_.mask), ranges).Some?
          && forall i :: 0 <= i < |map_.indices| ==>
              BoundsOf(Build(map_.indices[i]), ranges).Some? && !BoundsOf(Build(map_.indices[i]), ranges).value.boolean
  }

  function AccessRanges(ref: Ref, literals: map<string, Range>, shape: seq<nat>): map<string, Range>
    requires Literal(ref.outer).Some? && AllLiteral(ref.extracted)
  {
    RangeLane(RangeExtracted(literals["outer_index" := Literal(ref.outer).value], ref.extracted), shape)
  }

  lemma {:induction false} LiteralCovers(v: Value)
    requires Literal(v).Some?
    ensures Narrow(Literal(v).value) && Within(v, Literal(v).value)
  {
  }

  lemma {:induction false} ExtractCovered(ranges: map<string, Range>, symbols: map<string, Value>, level: nat,
          at: seq<Value>)
    requires Covered(ranges, symbols) && forall d :: 0 <= d < |at| ==> Literal(at[d]).Some?
    ensures Covered(RangeExtract(ranges, level, at), BindExtract(symbols, level, at))
    decreases |at|
  {
    if at != [] {
      ExtractCovered(ranges, symbols, level, at[..|at| - 1]);
      LiteralCovers(at[|at| - 1]);
    }
  }

  lemma {:induction false} ExtractedCovered(ranges: map<string, Range>, symbols: map<string, Value>,
          extracted: seq<seq<Value>>)
    requires Covered(ranges, symbols) && AllLiteral(extracted)
    ensures Covered(RangeExtracted(ranges, extracted), BindExtracted(symbols, extracted))
    decreases |extracted|
  {
    if extracted != [] {
      var n := |extracted| - 1;
      ExtractedCovered(ranges, symbols, extracted[..n]);
      ExtractCovered(RangeExtracted(ranges, extracted[..n]), BindExtracted(symbols, extracted[..n]), n, extracted[n]);
    }
  }

  lemma {:induction false} LaneCovered(ranges: map<string, Range>, symbols: map<string, Value>, shape: seq<nat>,
          lane: Lane)
    requires Covered(ranges, symbols) && |lane| == |shape| && forall d :: 0 <= d < |shape| ==> lane[d] < shape[d] <= MAX
    ensures Covered(RangeLane(ranges, shape), BindLane(symbols, lane))
    decreases |shape|
  {
    if shape != [] {
      LaneCovered(ranges, symbols, shape[..|shape| - 1], lane[..|lane| - 1]);
    }
  }

  /** A proven shape is the shape that evaluation gives. */
  lemma {:induction false} ProvenShapeIsShape(shape: seq<Expr>, ranges: map<string, Range>, symbols: map<string, Value>)
    requires Covered(ranges, symbols) && ProvenShape(shape, ranges).Some?
    ensures ShapeValue(shape, symbols) == ProvenShape(shape, ranges)
    ensures forall d :: 0 <= d < |ProvenShape(shape, ranges).value| ==> ProvenShape(shape, ranges).value[d] <= MAX
    decreases |shape|
  {
    if shape != [] {
      ProvenShapeIsShape(shape[1..], ranges, symbols);
      BoundsAreSound(Build(shape[0]), ranges, symbols);
      CompiledPlansAgree(shape[0], symbols, Exact);
    }
  }

  /** What the cache stores never wraps: in every lane the mask and the indices evaluate,
      and 64-bit evaluation gives their exact values. */
  lemma {:induction false} ProvenAccessIsExact(ref: Ref, lane: Lane)
    requires Cacheable(ref.layout, ref.level) && Proven(ref)
    requires
      var shape := ShapeValue(ref.layout.levels[ref.level], ref.symbols);
      shape.Some? ==> lane in LanesOf(shape.value)
    ensures ShapeValue(ref.layout.levels[ref.level], ref.symbols).Some?
    ensures var mask := ref.layout.access.value.mask;
            Evaluate(mask, LaneSymbols(ref, lane), Wrap).Some?
                && Evaluate(mask, LaneSymbols(ref, lane), Wrap) == Evaluate(mask, LaneSymbols(ref, lane), Exact)
    ensures forall i :: 0 <= i < |ref.layout.access.value.indices| ==>
      var index := Evaluate(ref.layout.access.value.indices[i], LaneSymbols(ref, lane), Wrap);
      index.Some? && index.value.I?
          && index == Evaluate(ref.layout.access.value.indices[i], LaneSymbols(ref, lane), Exact)
  {
    hide ShapeValue, SymbolsOf, RangeExtracted, Trusted;
    var bindings := Bindings(ref.symbols, SymbolsOf(Roots(ref.layout, ref.level)));
    var literals := LiteralRanges(bindings).value;
    assert Covered(literals, ref.symbols);
    ProvenShapeIsShape(ref.layout.levels[ref.level], literals, ref.symbols);
    var shape := ShapeValue(ref.layout.levels[ref.level], ref.symbols).value;
    LiteralCovers(ref.outer);
    var outer := literals["outer_index" := Literal(ref.outer).value];
    ExtractedCovered(outer, ref.symbols["outer_index" := ref.outer], ref.extracted);
    LaneCovered(RangeExtracted(outer, ref.extracted),
        BindExtracted(ref.symbols["outer_index" := ref.outer], ref.extracted), shape, lane);
    var ranges, symbols := AccessRanges(ref, literals, shape), LaneSymbols(ref, lane);
    var mask := ref.layout.access.value.mask;
    EvaluatesExactly(mask, ranges, symbols);
    forall i | 0 <= i < |ref.layout.access.value.indices|
      ensures var index := Evaluate(ref.layout.access.value.indices[i], symbols, Wrap);
              index.Some? && index.value.I? && index == Evaluate(ref.layout.access.value.indices[i], symbols, Exact)
    {
      EvaluatesExactly(ref.layout.access.value.indices[i], ranges, symbols);
    }
  }

  lemma {:induction false} EvaluatesExactly(e: Expr, ranges: map<string, Range>, symbols: map<string, Value>)
    requires Covered(ranges, symbols) && BoundsOf(Build(e), ranges).Some?
    ensures Evaluate(e, symbols, Wrap).Some? && Evaluate(e, symbols, Wrap) == Evaluate(e, symbols, Exact)
    ensures Within(Evaluate(e, symbols, Wrap).value, BoundsOf(Build(e), ranges).value)
  {
    BoundsAreSound(Build(e), ranges, symbols);
    CompiledPlansAgree(e, symbols, Exact);
    CompiledPlansAgree(e, symbols, Wrap);
  }

  // ----- the identity of the layout -----

  function OneLane(id: nat, index: int): Ref {
    Ref(id, Layout([[Constant(I(1))]], Some(AccessMap(Constant(B(true)), [Constant(I(index))]))), true, [2], [8], "<i8",
        map[], I(0), 0, [])
  }

  lemma {:induction false} OneLaneAccess(id: nat, index: int)
    requires 0 <= index < 2
    ensures var ref := OneLane(id, index);
            DirectAccess(ref) == Some(Access([true], [[index]]))
  {
    var ref := OneLane(id, index);
    var map_ := ref.layout.access.value;
    var shape := ref.layout.levels[0];
    assert shape[1..] == [] && ShapeValue(shape[1..], ref.symbols) == Some([]) && [1] + [] == [1];
    assert ShapeValue(shape, ref.symbols) == Some([1]);
    OneLaneBlock();
    var symbols := LaneSymbols(ref, [0]);
    assert map_.indices[1..] == [] && Integers(map_.indices[1..], symbols) == Some([]) && [index] + [] == [index];
    assert Integers(map_.indices, symbols) == Some([index]);
    var lanes := LanesOf([1]);
    assert AccessLanes(ref, map_, lanes[1..]) == Some(Access([], []));
    assert lanes[0] == [0] && lanes[1..] == [];
    assert Truth(B(true)) && Inside([index], ref.shape);
    assert [true] + [] == [true] && [[index]] + [] == [[index]];
    assert AccessLanes(ref, map_, lanes) == Some(Access([true], [[index]]));
  }

  lemma {:induction false} OneLaneProven(id: nat, index: int)
    requires 0 <= index < 2
    ensures var ref := OneLane(id, index);
            Cacheable(ref.layout, 0) && SymbolsOf(Roots(ref.layout, 0)) == {} && Proven(ref)
  {
    var ref := OneLane(id, index);
    var roots, map_, shape := Roots(ref.layout, 0), ref.layout.access.value, ref.layout.levels[0];
    assert roots == [Constant(I(1)), Constant(B(true)), Constant(I(index))];
    assert SymbolsOf(roots) == {};
    var none: map<string, Range> := map[];
    assert shape[1..] == [] && ProvenShape(shape[1..], none) == Some([]);
    assert Bindings(ref.symbols, {}) == map[] && LiteralRanges(map[]) == Some(none);
    assert [1] + [] == [1] && BoundsOf(Build(shape[0]), none) == Some(Range(1, 1, false));
    assert ProvenShape(shape, none) == Some([1]);
    var one: seq<nat> := [1];
    assert one[1..] == [] && Product(one[1..]) == 1 && Product(one) == 1;
    hide RangeLane, RangeExtracted;
    assert forall ranges :: BoundsOf(Build(Constant(I(index))), ranges) == Some(Range(index, index, false));
  }

  lemma {:induction false} OneLaneBlock()
    ensures LanesOf([1]) == [[0]]
  {
    var one: seq<nat> := [1];
    assert one[1..] == [];
    assert LanesOf(one[1..]) == [[]];
    assert LanesFrom(one, 0) == [];
    assert [0] + [] == [0];
  }

  /** The cache names a layout by its object identity only. Two layouts that have held the
      same identity can have the same key and different address maps, so the cache is
      right only for references whose layout stays alive between the calls. */
  lemma {:induction false} KeyIgnoresLayout(id: nat)
    ensures var a, b := OneLane(id, 0), OneLane(id, 1);
            Proven(a) && Proven(b) && KeyOf(a, SymbolsOf(Roots(a.layout, 0))) ==
                KeyOf(b, SymbolsOf(Roots(b.layout, 0))) && DirectAccess(a) != DirectAccess(b)
  {
    OneLaneAccess(id, 0);
    OneLaneAccess(id, 1);
    OneLaneProven(id, 0);
    OneLaneProven(id, 1);
    var a, b := OneLane(id, 0), OneLane(id, 1);
    assert Proven(a) && Proven(b);
    assert KeyOf(a, SymbolsOf(Roots(a.layout, 0))) == KeyOf(b, SymbolsOf(Roots(b.layout, 0)));
    var x, y := [[0]], [[1]];
    assert x[0][0] != y[0][0];
  }

  // ----- the cache -----

  class ExtractionGeometry {
    var schema: Option<(nat, nat)>
    var names: set<string>
    var trusted: bool
    var key: Option<Key>
    var value: Option<Access>
    /** The layout whose expressions are recorded with the schema. */
    var layout: Layout

    /** The recorded names are those of the layout last seen, and the stored map is the
        address map of every reference to that layout with the stored key. */
    ghost predicate Valid()
      reads this
    {
      && (schema.None? ==> !trusted && key.None?)
      && (key.Some? ==> trusted && value.Some?)
      && (schema.Some? && trusted ==>
          Cacheable(layout, schema.value.1) && names == SymbolsOf(Roots(layout, schema.value.1)))
      && (key.Some? ==>
          forall ref: Ref ::
            (ref.layoutId, ref.level) == schema.value && ref.layout == layout && KeyOf(ref, names) == key.value ==>
              DirectAccess(ref) == value)
    }

    constructor ()
      ensures Valid() && schema == None
    {
      schema, names, trusted, key, value, layout := None, {}, false, None, None, Layout([], None);
    }

    /** The identity of the reference's layout, if it is the one last seen, still denotes
        the same layout. */
    ghost predicate Faithful(ref: Ref)
      reads this
    {
      schema.Some? && schema.value.0 == ref.layoutId ==> layout == ref.layout
    }

    /** The reference is one the cache may serve. */
    static predicate Served(ref: Ref) {
      ref.plain && ref.layout.levels != [] && ref.level + 1 == |ref.layout.levels| && ref.layout.access.Some?
          && ref.outer.I? && AllIntegers(ref.extracted)
    }

    /** `access`: the stored map if the key is the stored one, or else the direct computation,
        which is stored if it is proven to stay within the machine's integers. */
    method Access(ref: Ref) returns (r: Option<Access>)
      requires Valid()
      modifies this
      ensures old(Faithful(ref)) ==> Valid() && r == DirectAccess(ref)
      ensures (schema == old(schema) && layout == old(layout))
          || (schema == Some((ref.layoutId, ref.level)) && layout == ref.layout)
      ensures (Served(ref) && old(schema) == Some((ref.layoutId, ref.level)) && old(trusted)
               && old(key) == Some(KeyOf(ref, old(names)))) ==>
                r == old(value)
      ensures (Served(ref) && old(schema) != Some((ref.layoutId, ref.level)) && Cacheable(ref.layout, ref.level)
               && Proven(ref) && r.Some?) ==>
                && schema == Some((ref.layoutId, ref.level)) && trusted
                && names == SymbolsOf(Roots(ref.layout, ref.level))
                && key == Some(KeyOf(ref, names)) && value == r
    {
      hide DirectAccess, Proven, SymbolsOf, Literal;
      ghost var faithful := Faithful(ref);
      if !ref.plain || ref.layout.levels == [] || ref.level + 1 != |ref.layout.levels| || ref.layout.access.None? {
        return DirectAccess(ref);
      }
      if schema != Some((ref.layoutId, ref.level)) {
        schema, trusted, key, value, names := Some((ref.layoutId, ref.level)), false, None, None, {};
        layout := ref.layout;
        if Cacheable(ref.layout, ref.level) {
          var found := ReferencedSymbols(Roots(ref.layout, ref.level));
          names, trusted := found, true;
        }
      }
      if !trusted || !ref.outer.I? || !AllIntegers(ref.extracted) {
        return DirectAccess(ref);
      }
      var next := KeyOf(ref, names);
      if key == Some(next) {
        return value;
      }
      key, value := None, None;
      if !Proven(ref.(layout := layout)) {
        return DirectAccess(ref);
      }
      r := DirectAccess(ref);
      if r.Some? {
        key, value := Some(next), r;
        if faithful {
          assert ref.(layout := layout) == ref;
          forall other: Ref | (other.layoutId, other.level) == schema.value && other.layout == layout
              && KeyOf(other, names) == next
            ensures DirectAccess(other) == r
          {
            KeyDeterminesAccess(ref, other);
          }
        }
      }
    }

    /** Over any sequence of calls the cache answers what the direct computation would,
        provided that an object identity denotes one layout throughout. */
    method AccessAll(refs: seq<Ref>) returns (rs: seq<Option<Access>>)
      requires Valid() && schema == None
      requires forall i, j :: 0 <= i < j < |refs| && refs[i].layoutId == refs[j].layoutId ==>
          refs[i].layout == refs[j].layout
      modifies this
      ensures |rs| == |refs| && forall i :: 0 <= i < |refs| ==> rs[i] == DirectAccess(refs[i])
    {
      rs := [];
      for n := 0 to |refs|
        invariant Valid() && |rs| == n && forall i :: 0 <= i < n ==> rs[i] == DirectAccess(refs[i])
        invariant schema.Some? ==>
            exists i :: 0 <= i < n && refs[i].layoutId == schema.value.0 && refs[i].layout == layout
      {
        var r := Access(refs[n]);
        rs := rs + [r];
      }
    }
  }

  /** A layout dies and another comes to life under its identity: the second call is answered
      with the address map of the first. */
  method StaleLayout(id: nat) returns (first: Option<Access>, second: Option<Access>)
    ensures first == DirectAccess(OneLane(id, 0)) && second == first && second != DirectAccess(OneLane(id, 1))
  {
    KeyIgnoresLayout(id);
    OneLaneAccess(id, 0);
    OneLaneProven(id, 0);
    OneLaneProven(id, 1);
    var geometry := new ExtractionGeometry();
    first := geometry.Access(OneLane(id, 0));
    second := geometry.Access(OneLane(id, 1));
  }
}
