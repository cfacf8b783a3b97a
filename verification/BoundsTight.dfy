/** The interval analysis loses nothing where no symbol is read twice: its bounds are there exactly
    when no assignment leaves the 64-bit integers, and assignments attain both of them. */
module BoundsTight {
  import opened Wrappers
  import opened Expressions
  import opened Bounds

  function Names(p: Plan): set<string> {
    match p
    case PSymbol(name) => {name}
    case PUnary(_, operand) => Names(operand)
    case PBinary(_, left, right) => Names(left) + Names(right)
    case _ => {}
  }

  /** Integer arithmetic that reads no symbol twice. */
  predicate ReadOnce(p: Plan) {
    match p
    case PConstant(value) => value.I?
    case PSymbol(_) => true
    case PUnary(g, operand) => g in {Invert, Pos, Neg} && ReadOnce(operand)
    case PBinary(f, left, right) =>
      f in {Add, Sub, Mul, FloorDivide} && ReadOnce(left) && ReadOnce(right) && Names(left) !! Names(right)
    case PEvaluate(_) => false
  }

  /** The ranges are of 64-bit values, and those that the plan reads are of integers. */
  ghost predicate Numeric(p: Plan, ranges: map<string, Range>) {
    (forall name :: name in ranges ==> Narrow(ranges[name])) && forall name :: name in ranges && name in Names(p) ==>
        !ranges[name].boolean
  }

  /** A value within its range for each name, and for no other. */
  ghost predicate Assigns(ranges: map<string, Range>, symbols: map<string, Value>) {
    Covered(ranges, symbols) && symbols.Keys == ranges.Keys
  }

  predicate InMachine(n: int) {
    MIN <= n <= MAX
  }

  predicate Fine(v: Option<Value>) {
    v.Some? && v.value.I? && InMachine(v.value.n)
  }

  /** Every subexpression is a 64-bit integer, and every divisor is positive. */
  predicate Good(p: Plan, symbols: map<string, Value>) {
    && Fine(Run(p, symbols, Exact))
    && match p
       case PUnary(_, operand) => Good(operand, symbols)
       case PBinary(f, left, right) =>
         Good(left, symbols) && Good(right, symbols) && (f.FloorDivide? ==> AsInt(Run(right, symbols, Exact).value) > 0)
       case _ => true
  }

  ghost predicate Takes(p: Plan, symbols: map<string, Value>, n: int) {
    Run(p, symbols, Exact) == Some(I(n))
  }

  // ----- assignments -----

  lemma {:induction false} RunIsLocal(p: Plan, s: map<string, Value>, t: map<string, Value>)
    requires ReadOnce(p) && AgreeOn(Names(p), s, t)
    ensures Run(p, s, Exact) == Run(p, t, Exact) && (Good(p, s) <==> Good(p, t))
  {
    match p
    case PUnary(_, operand) => RunIsLocal(operand, s, t);
    case PBinary(_, left, right) => RunIsLocal(left, s, t); RunIsLocal(right, s, t);
    case _ =>
  }

  ghost function Mixed(ranges: map<string, Range>, names: set<string>, s: map<string, Value>,
          t: map<string, Value>): map<string, Value>
    requires Assigns(ranges, s) && Assigns(ranges, t)
  {
    map name | name in ranges :: if name in names then s[name] else t[name]
  }

  /** The operands of a plan that reads no symbol twice take their values independently. */
  lemma {:induction false} Independent(f: BinaryFn, left: Plan, right: Plan, ranges: map<string, Range>,
          s: map<string, Value>, t: map<string, Value>)
    returns (u: map<string, Value>)
    requires ReadOnce(PBinary(f, left, right)) && Assigns(ranges, s) && Assigns(ranges, t)
    ensures Assigns(ranges, u)
    ensures Run(left, u, Exact) == Run(left, s, Exact) && Run(right, u, Exact) == Run(right, t, Exact)
  {
    u := Mixed(ranges, Names(left), s, t);
    RunIsLocal(left, u, s);
    RunIsLocal(right, u, t);
  }

  // ----- one operator -----

  predicate Ordinary(r: Range) {
    !r.boolean && MIN <= r.low <= r.high <= MAX
  }

  predicate EndOf(r: Range, x: int) {
    x == r.low || x == r.high
  }

  predicate Divides(f: BinaryFn, b: Range) {
    f.FloorDivide? ==> b.low > 0
  }

  function Combine(f: BinaryFn, x: int, y: int): int
    requires f in {Add, Sub, Mul, FloorDivide}
  {
    match f
    case Add => x + y
    case Sub => x - y
    case Mul => x * y
    case _ => Quotient(x, y)
  }

  /** The smallest and the largest result lie at ends of the operands' ranges. */
  lemma {:induction false} Ends(f: BinaryFn, a: Range, b: Range) returns (x: int, y: int, z: int, w: int)
    requires f in {Add, Sub, Mul, FloorDivide} && Ordinary(a) && Ordinary(b) && Divides(f, b)
    ensures EndOf(a, x) && EndOf(b, y) && EndOf(a, z) && EndOf(b, w)
    ensures Combine(f, x, y) <= Combine(f, z, w)
    ensures BinaryBounds(f, a, b) == Bounded(Combine(f, x, y), Combine(f, z, w))
  {
    match f
    case Add => x, y, z, w := a.low, b.low, a.high, b.high;
    case Sub => x, y, z, w := a.low, b.high, a.high, b.low;
    case _ => x, y, z, w := CornerEnds(f, a, b);
  }

  lemma {:induction false} CornerEnds(f: BinaryFn, a: Range, b: Range) returns (x: int, y: int, z: int, w: int)
    requires f in {Mul, FloorDivide} && Ordinary(a) && Ordinary(b) && Divides(f, b)
    ensures EndOf(a, x) && EndOf(b, y) && EndOf(a, z) && EndOf(b, w)
    ensures Combine(f, x, y) <= Combine(f, z, w)
    ensures BinaryBounds(f, a, b) == Bounded(Combine(f, x, y), Combine(f, z, w))
  {
    var p, q := Combine(f, a.low, b.low), Combine(f, a.low, b.high);
    var r, s := Combine(f, a.high, b.low), Combine(f, a.high, b.high);
    assert BinaryBounds(f, a, b) == Corners(p, q, r, s);
    hide Combine;
    var least, most := Min(Min(p, q), Min(r, s)), Max(Max(p, q), Max(r, s));
    if least == p { x, y := a.low, b.low; }
    else if least == q { x, y := a.low, b.high; }
    else if least == r { x, y := a.high, b.low; }
    else { x, y := a.high, b.high; }
    if most == p { z, w := a.low, b.low; }
    else if most == q { z, w := a.low, b.high; }
    else if most == r { z, w := a.high, b.low; }
    else { z, w := a.high, b.high; }
  }

  // ----- plans -----

  ghost predicate Attains(p: Plan, ranges: map<string, Range>, n: int) {
    exists symbols :: Assigns(ranges, symbols) && Takes(p, symbols, n)
  }

  /** The bounds are ordinary and assignments attain both of them. */
  ghost predicate Tight(p: Plan, ranges: map<string, Range>, r: Range) {
    Ordinary(r) && Attains(p, ranges, r.low) && Attains(p, ranges, r.high)
  }

  ghost predicate Fails(p: Plan, ranges: map<string, Range>) {
    exists symbols :: Assigns(ranges, symbols) && !Good(p, symbols)
  }

  ghost predicate Settled(p: Plan, ranges: map<string, Range>) {
    match BoundsOf(p, ranges)
    case None => Fails(p, ranges)
    case Some(r) => Tight(p, ranges, r)
  }

  lemma {:induction false} Settles(p: Plan, ranges: map<string, Range>)
    requires ReadOnce(p) && Numeric(p, ranges)
    ensures Settled(p, ranges)
  {
    match p
    case PConstant(value) =>
      var symbols := Lows(p, ranges);
      assert Takes(p, symbols, value.n);
      assert InMachine(value.n) <==> Good(p, symbols);
    case PSymbol(name) =>
      var low := Lows(p, ranges);
      if name in ranges {
        var high := low[name := I(ranges[name].high)];
        assert Assigns(ranges, high);
        assert Takes(p, low, ranges[name].low) && Takes(p, high, ranges[name].high);
      } else {
        assert !Good(p, low);
      }
    case PUnary(g, operand) =>
      Settles(operand, ranges);
      UnarySettles(g, operand, ranges);
    case PBinary(f, left, right) =>
      Settles(left, ranges);
      Settles(right, ranges);
      BinarySettles(f, left, right, ranges);
    case PEvaluate(_) =>
  }

  /** An assignment there always is. */
  lemma {:induction false} Lows(p: Plan, ranges: map<string, Range>) returns (symbols: map<string, Value>)
    requires Numeric(p, ranges)
    ensures Assigns(ranges, symbols)
    ensures forall name :: name in ranges && name in Names(p) ==> symbols[name] == I(ranges[name].low)
  {
    symbols := map name | name in ranges ::
      if ranges[name].boolean then B(ranges[name].low == 1) else I(ranges[name].low);
  }

  function Turn(g: UnaryFn, x: int): int
    requires g in {Invert, Pos, Neg}
  {
    if g.Invert? then -x - 1 else if g.Neg? then -x else x
  }

  lemma {:induction false} UnarySettles(g: UnaryFn, operand: Plan, ranges: map<string, Range>)
    requires ReadOnce(PUnary(g, operand)) && Settled(operand, ranges)
    ensures Settled(PUnary(g, operand), ranges)
  {
    hide Assigns;
    var p := PUnary(g, operand);
    match BoundsOf(operand, ranges)
    case None =>
      var symbols :| Assigns(ranges, symbols) && !Good(operand, symbols);
      assert !Good(p, symbols);
    case Some(r) =>
      var s :| Assigns(ranges, s) && Takes(operand, s, r.low);
      var t :| Assigns(ranges, t) && Takes(operand, t, r.high);
      assert Takes(p, s, Turn(g, r.low)) && Takes(p, t, Turn(g, r.high));
      assert !InMachine(Turn(g, r.low)) ==> !Good(p, s);
      assert !InMachine(Turn(g, r.high)) ==> !Good(p, t);
  }

  /** Ends of both operands meet in one assignment. */
  lemma {:induction false} Meet(f: BinaryFn, left: Plan, right: Plan, ranges: map<string, Range>, x: int, y: int)
    requires ReadOnce(PBinary(f, left, right))
    requires Attains(left, ranges, x) && Attains(right, ranges, y)
    ensures Attains(PBinary(f, left, right), ranges, Combine(f, x, y))
    ensures !InMachine(Combine(f, x, y)) || (f.FloorDivide? && y <= 0) ==> Fails(PBinary(f, left, right), ranges)
  {
    hide Assigns;
    var p := PBinary(f, left, right);
    var s :| Assigns(ranges, s) && Takes(left, s, x);
    var t :| Assigns(ranges, t) && Takes(right, t, y);
    var u := Independent(f, left, right, ranges, s, t);
    assert Takes(p, u, Combine(f, x, y));
    assert !InMachine(Combine(f, x, y)) || (f.FloorDivide? && y <= 0) ==> !Good(p, u);
  }

  lemma {:induction false} BinarySettles(f: BinaryFn, left: Plan, right: Plan, ranges: map<string, Range>)
    requires ReadOnce(PBinary(f, left, right))
    requires Settled(left, ranges) && Settled(right, ranges)
    ensures Settled(PBinary(f, left, right), ranges)
  {
    hide Assigns, Combine, Attains;
    var p := PBinary(f, left, right);
    match (BoundsOf(left, ranges), BoundsOf(right, ranges))
    case (None, _) =>
      var symbols :| Assigns(ranges, symbols) && !Good(left, symbols);
      assert !Good(p, symbols);
    case (_, None) =>
      var symbols :| Assigns(ranges, symbols) && !Good(right, symbols);
      assert !Good(p, symbols);
    case (Some(a), Some(b)) =>
      if Divides(f, b) {
        var x, y, z, w := Ends(f, a, b);
        Meet(f, left, right, ranges, x, y);
        Meet(f, left, right, ranges, z, w);
      } else {
        Meet(f, left, right, ranges, a.low, b.low);
      }
  }

  lemma {:induction false} BoundedIsGood(p: Plan, ranges: map<string, Range>, symbols: map<string, Value>)
    requires ReadOnce(p) && Numeric(p, ranges) && Assigns(ranges, symbols)
    requires BoundsOf(p, ranges).Some?
    ensures Good(p, symbols)
  {
    BoundsAreSound(p, ranges, symbols);
    Settles(p, ranges);
    match p
    case PUnary(_, operand) => BoundedIsGood(operand, ranges, symbols);
    case PBinary(f, left, right) =>
      BoundedIsGood(left, ranges, symbols);
      BoundedIsGood(right, ranges, symbols);
      BoundsAreSound(right, ranges, symbols);
    case _ =>
  }

  /** Where no symbol is read twice, the analysis is exact: it gives bounds if and only if every
      assignment keeps every subexpression in 64 bits and every divisor positive, and then some
      assignment takes the lower bound and some assignment the upper one. */
  lemma {:induction false} BoundsAreTight(p: Plan, ranges: map<string, Range>)
    requires ReadOnce(p) && Numeric(p, ranges)
    ensures BoundsOf(p, ranges).Some? <==> forall symbols :: Assigns(ranges, symbols) ==> Good(p, symbols)
    ensures BoundsOf(p, ranges).Some? ==> Tight(p, ranges, BoundsOf(p, ranges).value)
  {
    Settles(p, ranges);
    if BoundsOf(p, ranges).Some? {
      forall symbols | Assigns(ranges, symbols) ensures Good(p, symbols) {
        BoundedIsGood(p, ranges, symbols);
      }
    }
  }

  // ----- the other operators -----

  /** Exactly these values are within the range. */
  ghost predicate Holds(r: Option<Range>, test: Value -> bool) {
    r.Some? && forall v :: Within(v, r.value) <==> test(v)
  }

  ghost predicate AnyTruth(r: Option<Range>) {
    Holds(r, (v: Value) => v.B?)
  }

  lemma {:induction false} TruthBounds(f: BinaryFn, g: UnaryFn, a: Range, b: Range)
    ensures f in {Eq, Ne, Lt, Le, Gt, Ge, And, Or} ==> AnyTruth(BinaryBounds(f, a, b))
    ensures a.boolean && b.boolean && f.Bits? ==> AnyTruth(BinaryBounds(f, a, b))
    ensures g.Not? || (g.Invert? && a.boolean) ==> AnyTruth(UnaryBounds(g, a))
    ensures forall v: Value :: v.B? ==> Holds(Literal(v), (w: Value) => w == v)
  {
  }

  lemma {:induction false} RemainderBounds(a: Range, b: Range)
    requires Ordinary(a) && Ordinary(b)
    ensures BinaryBounds(Remainder, a, b).Some? <==> b.low > 0
    ensures b.low > 0 ==> Holds(BinaryBounds(Remainder, a, b), (v: Value) => v.I? && 0 <= v.n < b.high)
  {
  }

  /** `p` is the least power of two above `x`. */
  ghost predicate LeastPower(p: int, x: int) {
    && x < p && (exists k: nat :: p == Power2(k)) && forall k: nat :: x < Power2(k) ==> p <= Power2(k)
  }

  /** Bits of natural numbers stay below the least power of two above both, and those of a
      conjunction below each; bits of other integers can be anything. */
  lemma {:induction false} BitsBounds(f: Bit, a: Range, b: Range)
    requires Ordinary(a) && Ordinary(b)
    ensures a.low >= 0 && b.low >= 0 && f == BitAnd ==>
        Holds(BitBounds(f, a, b), (v: Value) => v.I? && 0 <= v.n <= a.high && v.n <= b.high)
    ensures a.low >= 0 && b.low >= 0 && f != BitAnd ==>
        exists p: int ::
          && LeastPower(p, Max(a.high, b.high))
          && Holds(BitBounds(f, a, b), (v: Value) => v.I? && 0 <= v.n < p)
    ensures a.low < 0 || b.low < 0 ==> Holds(BitBounds(f, a, b), (v: Value) => v.I? && InMachine(v.n))
  {
    if a.low >= 0 && b.low >= 0 && f != BitAnd {
      var x := Max(a.high, b.high);
      LengthMonotone(Min(a.high, b.high), x);
      LengthIsLeast(x);
      LengthFits(x);
      assert BitBounds(f, a, b) == Bounded(0, Power2(BitLength(x)) - 1);
      assert LeastPower(Power2(BitLength(x)), x);
    }
  }

  lemma {:induction false} LengthMonotone(x: nat, y: nat)
    requires x <= y
    ensures BitLength(x) <= BitLength(y)
    decreases y
  {
    if x > 0 {
      LengthMonotone(x / 2, y / 2);
    }
  }

  lemma {:induction false} LengthIsLeast(x: nat)
    ensures LeastPower(Power2(BitLength(x)), x)
  {
    BitLengthCovers(x, x);
    forall k: nat | x < Power2(k) ensures Power2(BitLength(x)) <= Power2(k) {
      LengthAtMost(x, k);
      Power2Grows(BitLength(x), k);
    }
  }

  lemma {:induction false} LengthAtMost(x: nat, k: nat)
    requires x < Power2(k)
    ensures BitLength(x) <= k
    decreases k
  {
    if x > 0 {
      LengthAtMost(x / 2, k - 1);
    }
  }

  lemma {:induction false} LengthFits(x: nat)
    requires x <= MAX
    ensures Power2(BitLength(x)) - 1 <= MAX
  {
    Power63();
    LengthAtMost(x, 63);
    Power2Grows(BitLength(x), 63);
  }

  // ----- conditions -----

  /** Truth values made of comparisons and logic, down to integer arithmetic that reads no symbol
      twice in itself. */
  predicate Checked(p: Plan) {
    ReadOnce(p)
    || match p
       case PConstant(_) => true
       case PUnary(g, operand) => g.Not? && Checked(operand)
       case PBinary(f, left, right) => f in {Eq, Ne, Lt, Le, Gt, Ge, And, Or} && Checked(left) && Checked(right)
       case _ => false
  }

  /** All integer arithmetic in the plan is `Good`. */
  predicate Clean(p: Plan, symbols: map<string, Value>) {
    if ReadOnce(p) then Good(p, symbols)
    else match p
      case PUnary(_, operand) => Clean(operand, symbols)
      case PBinary(_, left, right) => Clean(left, symbols) && Clean(right, symbols)
      case _ => true
  }

  lemma {:induction false} CleanIsLocal(p: Plan, s: map<string, Value>, t: map<string, Value>)
    requires AgreeOn(Names(p), s, t)
    ensures Clean(p, s) <==> Clean(p, t)
  {
    if ReadOnce(p) {
      RunIsLocal(p, s, t);
    } else {
      match p
      case PUnary(_, operand) => CleanIsLocal(operand, s, t);
      case PBinary(_, left, right) => CleanIsLocal(left, s, t); CleanIsLocal(right, s, t);
      case _ =>
    }
  }

  ghost predicate AlwaysClean(p: Plan, ranges: map<string, Range>) {
    forall symbols :: Assigns(ranges, symbols) ==> Clean(p, symbols)
  }

  /** A condition has bounds if and only if its arithmetic is good for every assignment. */
  lemma {:induction false} ConditionsAreTight(p: Plan, ranges: map<string, Range>)
    requires Checked(p) && Numeric(p, ranges)
    ensures BoundsOf(p, ranges).Some? <==> AlwaysClean(p, ranges)
  {
    hide Assigns;
    if ReadOnce(p) {
      BoundsAreTight(p, ranges);
    } else {
      match p
      case PConstant(_) =>
      case PUnary(_, operand) =>
        ConditionsAreTight(operand, ranges);
      case PBinary(f, left, right) =>
        ConditionsAreTight(left, ranges);
        ConditionsAreTight(right, ranges);
    }
  }
}
