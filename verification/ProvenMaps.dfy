/** Exactly which address maps the cache keeps: for maps that read no symbol twice in an index, those
    that every lane computes within 64 bits, of blocks of constant positive extents that are small
    enough. */
module ProvenMaps {
  import opened Wrappers
  import opened Expressions
  import opened Bounds
  import opened BoundsTight
  import opened Geometry
  import opened AddressMaps

  // ----- ranges and values -----

  /** Each range is that of the value with its name, and each value that may be read has one. */
  ghost predicate Mirrors(ranges: map<string, Range>, symbols: map<string, Value>, names: set<string>) {
    && (forall x :: x in ranges ==> x in symbols && Literal(symbols[x]) == Some(ranges[x]))
    && forall x :: x in names && x in symbols ==> x in ranges
  }

  lemma {:induction false} ExtractMirrors(ranges: map<string, Range>, symbols: map<string, Value>, names: set<string>,
          level: nat, at: seq<Value>)
    requires Mirrors(ranges, symbols, names) && forall d :: 0 <= d < |at| ==> Literal(at[d]).Some?
    ensures Mirrors(RangeExtract(ranges, level, at), BindExtract(symbols, level, at), names)
    decreases |at|
  {
    if at != [] {
      ExtractMirrors(ranges, symbols, names, level, at[..|at| - 1]);
    }
  }

  lemma {:induction false} ExtractedMirrors(ranges: map<string, Range>, symbols: map<string, Value>,
          names: set<string>, extracted: seq<seq<Value>>)
    requires Mirrors(ranges, symbols, names) && AllLiteral(extracted)
    ensures Mirrors(RangeExtracted(ranges, extracted), BindExtracted(symbols, extracted), names)
    decreases |extracted|
  {
    if extracted != [] {
      hide Mirrors;
      var n := |extracted| - 1;
      ExtractedMirrors(ranges, symbols, names, extracted[..n]);
      ExtractMirrors(RangeExtracted(ranges, extracted[..n]), BindExtracted(symbols, extracted[..n]), names, n,
          extracted[n]);
    }
  }

  function LaneRange(size: int): Range {
    Range(0, size - 1, false)
  }

  function ValueNames(n: nat): set<string> {
    set d | 0 <= d < n :: ValueName(d)
  }

  /** In a lane, its own coordinates have the ranges of the block, and nothing else changes. */
  ghost predicate Overlays(base: map<string, Range>, symbols: map<string, Value>, shape: seq<nat>, lane: Lane,
          ranges: map<string, Range>, seen: map<string, Value>)
    requires |lane| == |shape|
  {
    && (forall d :: 0 <= d < |shape| ==>
          && ValueName(d) in ranges && ranges[ValueName(d)] == LaneRange(shape[d])
          && ValueName(d) in seen && seen[ValueName(d)] == I(lane[d]))
    && (forall x :: x !in ValueNames(|shape|) ==>
          && (x in ranges <==> x in base) && (x in base ==> ranges[x] == base[x])
          && (x in seen <==> x in symbols) && (x in symbols ==> seen[x] == symbols[x]))
  }

  lemma {:induction false} LaneOverlays(base: map<string, Range>, symbols: map<string, Value>, shape: seq<nat>,
          lane: Lane)
    requires |lane| == |shape|
    ensures Overlays(base, symbols, shape, lane, RangeLane(base, shape), BindLane(symbols, lane))
    decreases |shape|
  {
    if shape != [] {
      hide Overlays;
      var n := |shape| - 1;
      LaneOverlays(base, symbols, shape[..n], lane[..n]);
      OverlayStep(base, symbols, shape, lane, RangeLane(base, shape[..n]), BindLane(symbols, lane[..n]));
    }
  }

  lemma {:induction false} OverlayStep(base: map<string, Range>, symbols: map<string, Value>, shape: seq<nat>,
          lane: Lane, ranges: map<string, Range>, seen: map<string, Value>)
    requires |lane| == |shape| && shape != []
    requires Overlays(base, symbols, shape[..|shape| - 1], lane[..|shape| - 1], ranges, seen)
    ensures
      var n := |shape| - 1;
      Overlays(base, symbols, shape, lane, ranges[ValueName(n) := LaneRange(shape[n])],
               seen[ValueName(n) := I(lane[n])])
  {
    hide ValueName;
    var n := |shape| - 1;
    forall d | 0 <= d < n
      ensures ValueName(d) != ValueName(n) && shape[..n][d] == shape[d] && lane[..n][d] == lane[d]
    {
      if ValueName(d) == ValueName(n) {
        ValueNamesDiffer(d, n);
      }
    }
    assert forall x :: x !in ValueNames(n + 1) ==> x !in ValueNames(n) && x != ValueName(n);
  }

  // ----- assignments are lanes -----

  ghost predicate Positive(shape: seq<nat>) {
    forall d :: 0 <= d < |shape| ==> 0 < shape[d] <= MAX
  }

  /** Every assignment of the ranges is what some lane sees. */
  lemma {:induction false} AssignmentIsLane(base: map<string, Range>, symbols: map<string, Value>, names: set<string>,
          shape: seq<nat>, given: map<string, Value>)
    returns (lane: Lane)
    requires Mirrors(base, symbols, names) && Positive(shape) && Assigns(RangeLane(base, shape), given)
    ensures InBlock(shape, lane) && AgreeOn(names, given, BindLane(symbols, lane))
  {
    CoordinatesGiven(base, symbols, shape, given);
    hide ValueName, RangeLane, BindLane, Mirrors, Assigns;
    lane := seq(|shape|, d requires 0 <= d < |shape| => given[ValueName(d)].n);
    LaneOverlays(base, symbols, shape, lane);
    hide Overlays, AgreeOn;
    forall x | x in names
      ensures AgreeOn({x}, given, BindLane(symbols, lane))
    {
      NameAgrees(base, symbols, names, shape, given, lane, x);
    }
    AgreeOnEach(names, given, BindLane(symbols, lane));
  }

  lemma {:induction false} AgreeOnEach(names: set<string>, s: map<string, Value>, t: map<string, Value>)
    requires forall x :: x in names ==> AgreeOn({x}, s, t)
    ensures AgreeOn(names, s, t)
  {
    forall x | x in names ensures (x in s <==> x in t) && (x in s ==> s[x] == t[x]) {
      assert AgreeOn({x}, s, t) && x in {x};
    }
  }

  lemma {:induction false} CoordinatesGiven(base: map<string, Range>, symbols: map<string, Value>, shape: seq<nat>,
          given: map<string, Value>)
    requires Positive(shape) && Assigns(RangeLane(base, shape), given)
    ensures forall d :: 0 <= d < |shape| ==>
        ValueName(d) in given && given[ValueName(d)].I? && 0 <= given[ValueName(d)].n < shape[d]
  {
    var zeros := seq(|shape|, d requires 0 <= d < |shape| => 0);
    LaneOverlays(base, symbols, shape, zeros);
    hide ValueName, RangeLane, BindLane;
    var ranges := RangeLane(base, shape);
    assert forall d :: 0 <= d < |shape| ==> ValueName(d) in ranges && Within(given[ValueName(d)], ranges[ValueName(d)]);
  }

  lemma {:induction false} NameAgrees(base: map<string, Range>, symbols: map<string, Value>, names: set<string>,
          shape: seq<nat>, given: map<string, Value>, lane: Lane, x: string)
    requires Mirrors(base, symbols, names) && |lane| == |shape| && x in names
    requires Overlays(base, symbols, shape, lane, RangeLane(base, shape), BindLane(symbols, lane))
    requires Assigns(RangeLane(base, shape), given)
    requires forall d :: 0 <= d < |shape| ==> ValueName(d) in given && given[ValueName(d)] == I(lane[d])
    ensures AgreeOn({x}, given, BindLane(symbols, lane))
  {
    hide ValueName, RangeLane, BindLane;
    if x !in ValueNames(|shape|) && x in base {
      OneValue(symbols[x], given[x]);
    }
  }

  lemma {:induction false} OneValue(v: Value, w: Value)
    requires Literal(v).Some? && Within(w, Literal(v).value)
    ensures v == w
  {
  }

  /** And what a lane sees is an assignment, as far as the ranges go. */
  lemma {:induction false} LaneIsAssignment(base: map<string, Range>, symbols: map<string, Value>,
          names: set<string>, shape: seq<nat>, lane: Lane)
    returns (given: map<string, Value>)
    requires Mirrors(base, symbols, names) && Positive(shape) && InBlock(shape, lane)
    ensures Assigns(RangeLane(base, shape), given) && AgreeOn(names, given, BindLane(symbols, lane))
  {
    hide Literal, Digits;
    LaneOverlays(base, symbols, shape, lane);
    hide ValueName, RangeLane, BindLane;
    var ranges, seen := RangeLane(base, shape), BindLane(symbols, lane);
    forall x | x in ranges
      ensures x in seen && Narrow(ranges[x]) && Within(seen[x], ranges[x])
    {
      if x !in ValueNames(|shape|) {
        LiteralCovers(symbols[x]);
      }
    }
    given := map x | x in ranges :: seen[x];
  }

  /** What is clean for every assignment is clean in every lane, and the other way round. */
  lemma {:induction false} CleanInLanes(p: Plan, base: map<string, Range>, symbols: map<string, Value>,
          names: set<string>, shape: seq<nat>)
    requires Mirrors(base, symbols, names) && Positive(shape) && Names(p) <= names
    ensures AlwaysClean(p, RangeLane(base, shape)) <==>
        forall lane :: InBlock(shape, lane) ==> Clean(p, BindLane(symbols, lane))
  {
    hide Mirrors, Positive, Assigns, InBlock, Clean;
    var ranges := RangeLane(base, shape);
    if AlwaysClean(p, ranges) {
      forall lane | InBlock(shape, lane) ensures Clean(p, BindLane(symbols, lane)) {
        var given := LaneIsAssignment(base, symbols, names, shape, lane);
        CleanIsLocal(p, given, BindLane(symbols, lane));
      }
    }
    if forall lane :: InBlock(shape, lane) ==> Clean(p, BindLane(symbols, lane)) {
      forall given | Assigns(ranges, given) ensures Clean(p, given) {
        var lane := AssignmentIsLane(base, symbols, names, shape, given);
        CleanIsLocal(p, given, BindLane(symbols, lane));
      }
    }
  }

  // ----- extents -----

  ghost predicate ReadsNumbers(names: set<string>, symbols: map<string, Value>) {
    forall x :: x in names && x in symbols ==> symbols[x].I?
  }

  lemma {:induction false} MirrorIsNumeric(p: Plan, ranges: map<string, Range>, symbols: map<string, Value>,
          names: set<string>)
    requires Mirrors(ranges, symbols, names) && Names(p) <= names && ReadsNumbers(names, symbols)
    ensures Numeric(p, ranges)
  {
    forall x | x in ranges
      ensures Narrow(ranges[x]) && (x in names ==> !ranges[x].boolean)
    {
      LiteralCovers(symbols[x]);
    }
  }

  /** Where every range is one value, so are the bounds. */
  lemma {:induction false} ConstantBounds(p: Plan, ranges: map<string, Range>, symbols: map<string, Value>,
          names: set<string>)
    requires Mirrors(ranges, symbols, names) && Names(p) <= names && ReadsNumbers(names, symbols) && ReadOnce(p)
    ensures BoundsOf(p, ranges).Some? <==> Good(p, symbols)
    ensures BoundsOf(p, ranges).Some? ==>
        var r := BoundsOf(p, ranges).value; !r.boolean && r.low == r.high && Run(p, symbols, Exact) == Some(I(r.low))
  {
    hide Numeric, Run, Good;
    MirrorIsNumeric(p, ranges, symbols, names);
    BoundsAreTight(p, ranges);
    forall given | Assigns(ranges, given)
      ensures AgreeOn(Names(p), given, symbols)
    {
      OnlyAssignment(p, ranges, symbols, names, given);
    }
    hide Mirrors, AgreeOn, Assigns;
    forall given | Assigns(ranges, given)
      ensures Run(p, given, Exact) == Run(p, symbols, Exact) && (Good(p, given) <==> Good(p, symbols))
    {
      RunIsLocal(p, given, symbols);
    }
    var low := Lows(p, ranges);
  }

  lemma {:induction false} OnlyAssignment(p: Plan, ranges: map<string, Range>, symbols: map<string, Value>,
          names: set<string>, given: map<string, Value>)
    requires Mirrors(ranges, symbols, names) && Names(p) <= names && Assigns(ranges, given)
    ensures AgreeOn(Names(p), given, symbols)
  {
    forall x | x in ranges
      ensures given[x] == symbols[x]
    {
      OneValue(symbols[x], given[x]);
    }
  }

  /** Each extent is computed within 64 bits and is positive. */
  ghost predicate Extents(level: seq<Expr>, symbols: map<string, Value>, shape: seq<nat>) {
    |shape| == |level| && forall d :: 0 <= d < |level| ==> ExtentIs(level[d], symbols, shape[d])
  }

  predicate ExtentIs(e: Expr, symbols: map<string, Value>, n: nat) {
    n > 0 && Good(Build(e), symbols) && Run(Build(e), symbols, Exact) == Some(I(n))
  }

  predicate ReadOnceOf(names: set<string>, es: seq<Expr>) {
    forall i :: 0 <= i < |es| ==> ReadOnce(Build(es[i])) && Names(Build(es[i])) <= names
  }

  lemma {:induction false} ExtentsExact(level: seq<Expr>, ranges: map<string, Range>, symbols: map<string, Value>,
          names: set<string>)
    requires Mirrors(ranges, symbols, names) && ReadsNumbers(names, symbols) && ReadOnceOf(names, level)
    ensures forall shape :: ProvenShape(level, ranges) == Some(shape) <==> Extents(level, symbols, shape)
    decreases |level|
  {
    hide Mirrors, ReadsNumbers, Good, Run, Names, ReadOnce;
    if level != [] {
      ExtentsExact(level[1..], ranges, symbols, names);
      ConstantBounds(Build(level[0]), ranges, symbols, names);
      forall shape: seq<nat>
        ensures Extents(level, symbols, shape) <==>
            shape != [] && ExtentIs(level[0], symbols, shape[0]) && Extents(level[1..], symbols, shape[1..])
      {
        FirstExtent(level, symbols, shape);
      }
      hide Extents;
      forall shape: seq<nat>
        ensures ProvenShape(level, ranges) == Some(shape) <==>
            shape != [] && ExtentIs(level[0], symbols, shape[0]) && ProvenShape(level[1..], ranges) == Some(shape[1..])
      {
        assert shape != [] ==> shape == [shape[0]] + shape[1..];
      }
    }
  }

  lemma {:induction false} FirstExtent(level: seq<Expr>, symbols: map<string, Value>, shape: seq<nat>)
    requires level != []
    ensures Extents(level, symbols, shape) <==>
        shape != [] && ExtentIs(level[0], symbols, shape[0]) && Extents(level[1..], symbols, shape[1..])
  {
    hide ExtentIs;
    if shape != [] && ExtentIs(level[0], symbols, shape[0]) && Extents(level[1..], symbols, shape[1..]) {
      forall d | 0 <= d < |level| ensures ExtentIs(level[d], symbols, shape[d]) {
        assert d > 0 ==> level[d] == level[1..][d - 1] && shape[d] == shape[1..][d - 1];
      }
    }
  }

  // ----- what the proof accepts -----

  function NamesOf(ref: Ref): set<string>
    requires Cacheable(ref.layout, ref.level)
  {
    SymbolsOf(Roots(ref.layout, ref.level))
  }

  /** Extents and indices read no symbol twice, the mask is a condition over such, and nothing that
      they read is a truth value. */
  ghost predicate Direct(ref: Ref) {
    && Cacheable(ref.layout, ref.level) && ref.outer.I? && AllIntegers(ref.extracted)
    && ReadsNumbers(NamesOf(ref), ref.symbols)
    && (forall d :: 0 <= d < |ref.layout.levels[ref.level]| ==> ReadOnce(Build(ref.layout.levels[ref.level][d])))
    && Checked(Build(ref.layout.access.value.mask))
    && forall i :: 0 <= i < |ref.layout.access.value.indices| ==> ReadOnce(Build(ref.layout.access.value.indices[i]))
  }

  predicate Fits(v: Value) {
    InMachine(AsInt(v))
  }

  /** In this lane the mask and the indices are computed within 64 bits. */
  ghost predicate LaneFits(ref: Ref, map_: AccessMap, lane: Lane) {
    && Clean(Build(map_.mask), LaneSymbols(ref, lane))
    && forall i :: 0 <= i < |map_.indices| ==> Good(Build(map_.indices[i]), LaneSymbols(ref, lane))
  }

  ghost predicate BlockFits(ref: Ref, map_: AccessMap, shape: seq<nat>)
    requires ref.level < |ref.layout.levels|
  {
    && Extents(ref.layout.levels[ref.level], ref.symbols, shape) && Size(shape) <= 65536
    && forall lane :: InBlock(shape, lane) ==> LaneFits(ref, map_, lane)
  }

  lemma {:induction false} NamesAreRead(e: Expr)
    ensures Names(Build(e)) <= Symbols(e)
  {
    match e
    case Node(op, operands) =>
      if op.BinaryOp? && |operands| == 2 {
        NamesAreRead(operands[0]);
        NamesAreRead(operands[1]);
      } else if op.UnaryOp? && |operands| == 1 {
        NamesAreRead(operands[0]);
      }
    case _ =>
  }

  lemma {:induction false} RootNames(ref: Ref)
    requires Cacheable(ref.layout, ref.level)
    ensures var map_, names, level := ref.layout.access.value, NamesOf(ref), ref.layout.levels[ref.level];
        && Names(Build(map_.mask)) <= names
        && (forall i :: 0 <= i < |map_.indices| ==> Names(Build(map_.indices[i])) <= names)
        && (forall d :: 0 <= d < |level| ==> Names(Build(level[d])) <= names)
  {
    var map_, level, roots := ref.layout.access.value, ref.layout.levels[ref.level], Roots(ref.layout, ref.level);
    hide Cacheable, Trusted, Build, Names;
    forall i | 0 <= i < |roots|
      ensures Names(Build(roots[i])) <= NamesOf(ref)
    {
      NamesAreRead(roots[i]);
    }
    assert roots[|level|] == map_.mask;
    assert forall i :: 0 <= i < |map_.indices| ==> roots[|level| + 1 + i] == map_.indices[i];
    assert forall d :: 0 <= d < |level| ==> roots[d] == level[d];
  }

  lemma {:induction false} BlockIsNumeric(p: Plan, base: map<string, Range>, symbols: map<string, Value>,
          names: set<string>, shape: seq<nat>)
    requires Mirrors(base, symbols, names) && Positive(shape) && Names(p) <= names && ReadsNumbers(names, symbols)
    ensures Numeric(p, RangeLane(base, shape))
  {
    MirrorIsNumeric(p, base, symbols, names);
    var zeros := seq(|shape|, d requires 0 <= d < |shape| => 0);
    LaneOverlays(base, symbols, shape, zeros);
    hide ValueName, RangeLane, BindLane, Mirrors, ReadsNumbers;
    var ranges := RangeLane(base, shape);
    forall x | x in ranges
      ensures Narrow(ranges[x]) && (x in Names(p) ==> !ranges[x].boolean)
    {
      if x in ValueNames(|shape|) {
        var d :| 0 <= d < |shape| && x == ValueName(d);
      }
    }
  }

  /** A plan has bounds over the block if and only if it is clean in every lane. */
  lemma {:induction false} PlanInLanes(p: Plan, base: map<string, Range>, symbols: map<string, Value>,
          names: set<string>, shape: seq<nat>)
    requires Mirrors(base, symbols, names) && Positive(shape) && Names(p) <= names && ReadsNumbers(names, symbols)
    requires Checked(p)
    ensures BoundsOf(p, RangeLane(base, shape)).Some? <==>
        forall lane :: InBlock(shape, lane) ==> Clean(p, BindLane(symbols, lane))
    ensures ReadOnce(p) && BoundsOf(p, RangeLane(base, shape)).Some? ==>
        !BoundsOf(p, RangeLane(base, shape)).value.boolean
  {
    hide Mirrors, Positive, ReadsNumbers, InBlock, Clean, Numeric, Checked, RangeLane;
    BlockIsNumeric(p, base, symbols, names, shape);
    ConditionsAreTight(p, RangeLane(base, shape));
    CleanInLanes(p, base, symbols, names, shape);
    if ReadOnce(p) {
      BoundsAreTight(p, RangeLane(base, shape));
    }
  }

  /** All numbers that the proof starts from fit 64 bits. */
  ghost predicate NumbersFit(ref: Ref, names: set<string>) {
    && (forall x :: x in names && x in ref.symbols ==> Fits(ref.symbols[x]))
    && Fits(ref.outer)
    && forall l, d :: 0 <= l < |ref.extracted| && 0 <= d < |ref.extracted[l]| ==> Fits(ref.extracted[l][d])
  }

  lemma {:induction false} LiteralFits(v: Value)
    ensures Literal(v).Some? <==> Fits(v)
  {
  }

  lemma {:induction false} NumbersAreLiteral(ref: Ref, names: set<string>)
    ensures NumbersFit(ref, names) <==>
        LiteralRanges(Bindings(ref.symbols, names)).Some? && Literal(ref.outer).Some? && AllLiteral(ref.extracted)
    ensures NumbersFit(ref, names) ==>
        Mirrors(LiteralRanges(Bindings(ref.symbols, names)).value, ref.symbols, names)
  {
    hide Literal, Fits;
    forall v: Value ensures Literal(v).Some? <==> Fits(v) {
      LiteralFits(v);
    }
    var bindings := Bindings(ref.symbols, names);
    assert forall x :: x in bindings <==> x in names && x in ref.symbols;
    assert forall x :: x in bindings ==> bindings[x] == ref.symbols[x];
  }

  lemma {:induction false} ExtractedNumbers(symbols: map<string, Value>, names: set<string>, extracted: seq<seq<Value>>)
    requires ReadsNumbers(names, symbols) && AllIntegers(extracted)
    ensures ReadsNumbers(names, BindExtracted(symbols, extracted))
    decreases |extracted|
  {
    if extracted != [] {
      var n := |extracted| - 1;
      ExtractedNumbers(symbols, names, extracted[..n]);
      ExtractNumbers(BindExtracted(symbols, extracted[..n]), names, n, extracted[n]);
    }
  }

  lemma {:induction false} ExtractNumbers(symbols: map<string, Value>, names: set<string>, level: nat, at: seq<Value>)
    requires ReadsNumbers(names, symbols) && forall d :: 0 <= d < |at| ==> at[d].I?
    ensures ReadsNumbers(names, BindExtract(symbols, level, at))
    decreases |at|
  {
    if at != [] {
      ExtractNumbers(symbols, names, level, at[..|at| - 1]);
    }
  }

  /** What one lane sees before its own coordinates, with the ranges the proof gives it. */
  lemma {:induction false} OuterMirrors(ref: Ref, literals: map<string, Range>, names: set<string>)
    requires Mirrors(literals, ref.symbols, names) && ReadsNumbers(names, ref.symbols)
    requires Literal(ref.outer).Some? && AllLiteral(ref.extracted) && ref.outer.I? && AllIntegers(ref.extracted)
    ensures Mirrors(RangeExtracted(literals["outer_index" := Literal(ref.outer).value], ref.extracted),
                    BindExtracted(ref.symbols["outer_index" := ref.outer], ref.extracted), names)
    ensures ReadsNumbers(names, BindExtracted(ref.symbols["outer_index" := ref.outer], ref.extracted))
  {
    hide Literal, AllLiteral, AllIntegers;
    ExtractedMirrors(literals["outer_index" := Literal(ref.outer).value], ref.symbols["outer_index" := ref.outer],
        names, ref.extracted);
    ExtractedNumbers(ref.symbols["outer_index" := ref.outer], names, ref.extracted);
  }

  lemma {:induction false} SameSize(shape: seq<nat>)
    ensures Product(shape) == Size(shape)
    decreases |shape|
  {
    if shape != [] {
      SameSize(shape[1..]);
    }
  }

  lemma {:induction false} ExtentsPositive(level: seq<Expr>, symbols: map<string, Value>, shape: seq<nat>)
    requires Extents(level, symbols, shape)
    ensures Positive(shape)
  {
    forall d | 0 <= d < |shape| ensures 0 < shape[d] <= MAX {
      assert ExtentIs(level[d], symbols, shape[d]);
    }
  }

  /** Bounds for the mask and the indices over one block. */
  ghost predicate BlockBounded(map_: AccessMap, ranges: map<string, Range>) {
    && BoundsOf(Build(map_.mask), ranges).Some?
    && forall i :: 0 <= i < |map_.indices| ==>
         BoundsOf(Build(map_.indices[i]), ranges).Some? && !BoundsOf(Build(map_.indices[i]), ranges).value.boolean
  }

  lemma {:induction false} LanesFit(ref: Ref, literals: map<string, Range>, shape: seq<nat>)
    requires Direct(ref) && Positive(shape) && Mirrors(literals, ref.symbols, NamesOf(ref))
    requires Literal(ref.outer).Some? && AllLiteral(ref.extracted)
    ensures var map_ := ref.layout.access.value;
        BlockBounded(map_, AccessRanges(ref, literals, shape)) <==>
        forall lane :: InBlock(shape, lane) ==> LaneFits(ref, map_, lane)
  {
    RootNames(ref);
    var map_, names := ref.layout.access.value, NamesOf(ref);
    hide Mirrors, Positive, Literal, AllLiteral, AllIntegers, ReadsNumbers, InBlock, Clean, Cacheable, NamesOf, Checked,
         BoundsOf;
    OuterMirrors(ref, literals, names);
    var base := RangeExtracted(literals["outer_index" := Literal(ref.outer).value], ref.extracted);
    var symbols := BindExtracted(ref.symbols["outer_index" := ref.outer], ref.extracted);
    hide RangeExtracted, BindExtracted;
    PlanInLanes(Build(map_.mask), base, symbols, names, shape);
    forall i | 0 <= i < |map_.indices|
      ensures (BoundsOf(Build(map_.indices[i]), RangeLane(base, shape)).Some?
               && !BoundsOf(Build(map_.indices[i]), RangeLane(base, shape)).value.boolean) <==>
          forall lane :: InBlock(shape, lane) ==> Good(Build(map_.indices[i]), BindLane(symbols, lane))
    {
      IndexInLanes(Build(map_.indices[i]), base, symbols, names, shape);
    }
  }

  lemma {:induction false} IndexInLanes(p: Plan, base: map<string, Range>, symbols: map<string, Value>,
          names: set<string>, shape: seq<nat>)
    requires Mirrors(base, symbols, names) && Positive(shape) && Names(p) <= names && ReadsNumbers(names, symbols)
    requires ReadOnce(p)
    ensures BoundsOf(p, RangeLane(base, shape)).Some? && !BoundsOf(p, RangeLane(base, shape)).value.boolean <==>
        forall lane :: InBlock(shape, lane) ==> Good(p, BindLane(symbols, lane))
  {
    hide Mirrors, Positive, ReadsNumbers, InBlock, Good, RangeLane, ReadOnce;
    PlanInLanes(p, base, symbols, names, shape);
  }

  /** The proof obligation of the cache, exactly, for maps that read no symbol twice in an index: the
      map is kept if and only if all numbers it starts from fit 64 bits, the extents are positive, the
      block has at most 65536 lanes, and in every lane the mask and all indices are computed within
      64 bits with positive divisors. */
  lemma {:induction false} ProvenExactly(ref: Ref)
    requires Direct(ref)
    ensures Proven(ref) <==>
        NumbersFit(ref, NamesOf(ref)) && exists shape :: BlockFits(ref, ref.layout.access.value, shape)
  {
    var map_, names, level := ref.layout.access.value, NamesOf(ref), ref.layout.levels[ref.level];
    hide Mirrors, Literal, AllLiteral, Size, InBlock, LaneFits, LiteralRanges, Bindings, AccessRanges, Extents;
    NumbersAreLiteral(ref, names);
    if NumbersFit(ref, names) {
      var literals := LiteralRanges(Bindings(ref.symbols, names)).value;
      RootNames(ref);
      ExtentsExact(level, literals, ref.symbols, names);
      forall shape | Extents(level, ref.symbols, shape)
        ensures Product(shape) == Size(shape)
        ensures BlockBounded(map_, AccessRanges(ref, literals, shape)) <==>
            forall lane :: InBlock(shape, lane) ==> LaneFits(ref, map_, lane)
      {
        SameSize(shape);
        ExtentsPositive(level, ref.symbols, shape);
        LanesFit(ref, literals, shape);
      }
      var proven := ProvenShape(level, literals);
      if proven.Some? {
        assert Extents(level, ref.symbols, proven.value);
        assert Proven(ref) ==> BlockFits(ref, map_, proven.value);
      }
      if shape :| BlockFits(ref, map_, shape) {
        assert ProvenShape(level, literals) == Some(shape);
        assert Proven(ref);
      }
    }
  }

  // ----- what the cache looks at -----

  function Height(e: Expr): nat {
    match e
    case Node(_, operands) => Tallest(e, operands)
    case _ => 0
  }

  function Tallest(ghost parent: Expr, operands: seq<Expr>): nat
    requires forall i :: 0 <= i < |operands| ==> operands[i] < parent
  {
    if operands == [] then 0 else
      var first, rest := Height(operands[0]) + 1, Tallest(parent, operands[1..]);
      if first > rest then first else rest
  }

  /** The plan has no call into the evaluator left, and its constants fit 64 bits. */
  predicate FullyCompiled(p: Plan) {
    match p
    case PConstant(value) => Fits(value)
    case PSymbol(_) => true
    case PUnary(_, operand) => FullyCompiled(operand)
    case PBinary(_, left, right) => FullyCompiled(left) && FullyCompiled(right)
    case PEvaluate(_) => false
  }

  /** The cache looks at expressions that compile completely and are at most 128 operators deep. */
  lemma {:induction false} TrustedExact(e: Expr, depth: nat)
    ensures Trusted(e, depth) <==> depth + Height(e) <= 128 && FullyCompiled(Build(e))
  {
    match e
    case Constant(value) => LiteralFits(value);
    case Symbol(_) =>
    case Node(op, operands) =>
      if |operands| == 1 {
        TrustedExact(operands[0], depth + 1);
        OneHigh(e, operands);
      } else if |operands| == 2 {
        TrustedExact(operands[0], depth + 1);
        TrustedExact(operands[1], depth + 1);
        TwoHigh(e, operands);
      }
  }

  /** And it looks at nothing else: all extents, the mask and all indices must be of that kind. */
  lemma {:induction false} CacheableExact(layout: Layout, level: nat)
    ensures Cacheable(layout, level) <==>
        && |layout.levels| == level + 1 && layout.access.Some?
        && (forall e :: e in layout.levels[level] ==> Height(e) <= 128 && FullyCompiled(Build(e)))
        && Height(layout.access.value.mask) <= 128 && FullyCompiled(Build(layout.access.value.mask))
        && forall e :: e in layout.access.value.indices ==> Height(e) <= 128 && FullyCompiled(Build(e))
  {
    hide Trusted, FullyCompiled, Build;
    forall e: Expr
      ensures Trusted(e, 0) <==> Height(e) <= 128 && FullyCompiled(Build(e))
    {
      TrustedExact(e, 0);
    }
    if |layout.levels| == level + 1 && layout.access.Some? {
      var roots, shape, map_ := Roots(layout, level), layout.levels[level], layout.access.value;
      assert forall e :: e in roots <==> e in shape || e == map_.mask || e in map_.indices;
      assert (forall i :: 0 <= i < |roots| ==> Trusted(roots[i], 0)) <==> forall e :: e in roots ==> Trusted(e, 0);
    }
  }

  lemma {:induction false} OneHigh(e: Expr, operands: seq<Expr>)
    requires e.Node? && operands == e.operands && |operands| == 1
    ensures Height(e) == Height(operands[0]) + 1
  {
    var tail := operands[1..];
    assert tail == [];
    assert Tallest(e, tail) == 0;
  }

  lemma {:induction false} TwoHigh(e: Expr, operands: seq<Expr>)
    requires e.Node? && operands == e.operands && |operands| == 2
    ensures Height(operands[0]) < Height(e) && Height(operands[1]) < Height(e)
    ensures Height(e) == Height(operands[0]) + 1 || Height(e) == Height(operands[1]) + 1
  {
    var tail := operands[1..];
    assert tail[0] == operands[1] && tail[1..] == [];
    assert Tallest(e, tail) == Height(operands[1]) + 1;
  }
}
