/** Interval analysis of compiled plans over 64-bit integers. */
module Bounds {
  import opened Wrappers
  import opened Expressions

  datatype Range = Range(low: int, high: int, boolean: bool)

  function Min(x: int, y: int): int {
    if y < x then y else x
  }

  function Max(x: int, y: int): int {
    if y > x then y else x
  }

  function Bounded(low: int, high: int): Option<Range> {
    if MIN <= low <= high <= MAX then Some(Range(low, high, false)) else None
  }

  function Literal(v: Value): Option<Range> {
    match v
    case B(b) => Some(Range(AsInt(v), AsInt(v), true))
    case I(n) => Bounded(n, n)
  }

  function UnaryBounds(g: UnaryFn, x: Range): Option<Range> {
    match g
    case Not => Some(Range(0, 1, true))
    case Invert => if x.boolean then Some(Range(0, 1, true)) else Bounded(-x.high - 1, -x.low - 1)
    case Pos => if x.boolean then None else Some(x)
    case Neg => if x.boolean then None else Bounded(-x.high, -x.low)
  }

  function BitBounds(f: Bit, a: Range, b: Range): Option<Range> {
    if a.boolean && b.boolean then Some(Range(0, 1, true))
    else if a.boolean || b.boolean then None
    else if a.low >= 0 && b.low >= 0 then
      if a.high < 0 || b.high < 0 then None
      else Bounded(0, if f == BitAnd then Min(a.high, b.high)
          else Power2(if BitLength(a.high) > BitLength(b.high) then BitLength(a.high) else BitLength(b.high)) - 1)
    else Some(Range(MIN, MAX, false))
  }

  /** The extreme values of four corners. */
  function Corners(p: int, q: int, r: int, s: int): Option<Range> {
    Bounded(Min(Min(p, q), Min(r, s)), Max(Max(p, q), Max(r, s)))
  }

  function BinaryBounds(f: BinaryFn, a: Range, b: Range): Option<Range> {
    match f
    case Eq | Ne | Lt | Le | Gt | Ge | And | Or => Some(Range(0, 1, true))
    case Bits(bit) => BitBounds(bit, a, b)
    case TrueDivide | Power => None
    case _ =>
      if a.boolean || b.boolean then None
      else match f
        case Add => Bounded(a.low + b.low, a.high + b.high)
        case Sub => Bounded(a.low - b.high, a.high - b.low)
        case Mul => Corners(a.low * b.low, a.low * b.high, a.high * b.low, a.high * b.high)
        case _ =>
          if b.low <= 0 then None
          else if f == Remainder then Bounded(0, b.high - 1)
          else Corners(Quotient(a.low, b.low), Quotient(a.low, b.high), Quotient(a.high, b.low),
              Quotient(a.high, b.high))
  }

  /** `_plan_bounds`. */
  function BoundsOf(p: Plan, ranges: map<string, Range>): Option<Range> {
    match p
    case PConstant(value) => Literal(value)
    case PSymbol(name) => if name in ranges then Some(ranges[name]) else None
    case PUnary(g, operand) =>
      (match BoundsOf(operand, ranges)
       case None => None
       case Some(x) => UnaryBounds(g, x))
    case PBinary(f, left, right) =>
      (match (BoundsOf(left, ranges), BoundsOf(right, ranges))
       case (Some(a), Some(b)) => BinaryBounds(f, a, b)
       case _ => None)
    case PEvaluate(_) => None
  }

  // ----- what a range promises -----

  predicate Within(v: Value, r: Range) {
    v.B? == r.boolean && r.low <= AsInt(v) <= r.high
  }

  predicate Narrow(r: Range) {
    MIN <= r.low <= r.high <= MAX && (r.boolean ==> 0 <= r.low && r.high <= 1)
  }

  /** Every subexpression evaluates to a truth value or a 64-bit integer. */
  predicate AllFit(p: Plan, symbols: map<string, Value>) {
    && Run(p, symbols, Exact).Some? && MIN <= AsInt(Run(p, symbols, Exact).value) <= MAX
    && match p
       case PUnary(_, operand) => AllFit(operand, symbols)
       case PBinary(_, left, right) => AllFit(left, symbols) && AllFit(right, symbols)
       case _ => true
  }

  ghost predicate Covered(ranges: map<string, Range>, symbols: map<string, Value>) {
    forall name :: name in ranges ==> name in symbols && Narrow(ranges[name]) && Within(symbols[name], ranges[name])
  }

  // ----- arithmetic -----

  lemma {:induction false} Wraps(n: int)
    requires MIN <= n <= MAX
    ensures Wrap(n) == n
  {
  }

  lemma {:induction false} Scaled(lo: int, x: int, hi: int, y: int)
    requires lo <= x <= hi
    ensures Min(lo * y, hi * y) <= x * y <= Max(lo * y, hi * y)
  {
    if y >= 0 {
      assert (x - lo) * y >= 0 && (hi - x) * y >= 0;
      assert (x - lo) * y == x * y - lo * y && (hi - x) * y == hi * y - x * y;
    } else {
      assert (x - lo) * y <= 0 && (hi - x) * y <= 0;
      assert (x - lo) * y == x * y - lo * y && (hi - x) * y == hi * y - x * y;
    }
  }

  lemma {:induction false} ProductCorners(a0: int, x: int, a1: int, b0: int, y: int, b1: int)
    requires a0 <= x <= a1 && b0 <= y <= b1
    ensures Min(Min(a0 * b0, a0 * b1), Min(a1 * b0, a1 * b1)) <= x * y <=
        Max(Max(a0 * b0, a0 * b1), Max(a1 * b0, a1 * b1))
  {
    Scaled(a0, x, a1, y);
    Scaled(b0, y, b1, a0);
    Scaled(b0, y, b1, a1);
    Commute(a0, y);
    Commute(a1, y);
    Commute(a0, b0);
    Commute(a0, b1);
    Commute(a1, b0);
    Commute(a1, b1);
  }

  lemma {:induction false} Commute(x: int, y: int)
    ensures x * y == y * x
  {
  }

  /** The floor quotient is the largest q with q * y <= x. */
  lemma {:induction false} FloorBound(x: int, y: int, q: int)
    requires y > 0
    ensures q <= x / y <==> q * y <= x
  {
    var p := x / y;
    assert p * y <= x < p * y + y;
    if q <= p {
      Scaled(q, q, p, y);
      assert q * y <= p * y;
    } else {
      Scaled(p + 1, p + 1, q, y);
      assert (p + 1) * y == p * y + y && (p + 1) * y <= q * y;
    }
  }

  lemma {:induction false} QuotientRises(x0: int, x1: int, y: int)
    requires y > 0 && x0 <= x1
    ensures x0 / y <= x1 / y
  {
    FloorBound(x0, y, x0 / y);
    FloorBound(x1, y, x0 / y);
  }

  /** A larger positive divisor moves the quotient towards zero. */
  lemma {:induction false} QuotientShrinks(x: int, y0: int, y1: int)
    requires 0 < y0 <= y1
    ensures x >= 0 ==> x / y1 <= x / y0
    ensures x < 0 ==> x / y0 <= x / y1
  {
    var q0, q1 := x / y0, x / y1;
    if x >= 0 {
      FloorBound(x, y1, 0);
      FloorBound(x, y1, q1);
      Scaled(y0, y0, y1, q1);
      Commute(q1, y0);
      Commute(q1, y1);
      FloorBound(x, y0, q1);
    } else {
      FloorBound(x, y0, 0);
      FloorBound(x, y0, q0);
      Scaled(y0, y0, y1, q0);
      Commute(q0, y0);
      Commute(q0, y1);
      FloorBound(x, y1, q0);
    }
  }

  lemma {:induction false} QuotientCorners(a0: int, x: int, a1: int, b0: int, y: int, b1: int)
    requires a0 <= x <= a1 && 0 < b0 <= y <= b1
    ensures Min(Min(a0 / b0, a0 / b1), Min(a1 / b0, a1 / b1)) <= x / y <=
        Max(Max(a0 / b0, a0 / b1), Max(a1 / b0, a1 / b1))
  {
    QuotientRises(a0, x, y);
    QuotientRises(x, a1, y);
    QuotientShrinks(a0, b0, y);
    QuotientShrinks(a0, y, b1);
    QuotientShrinks(a1, b0, y);
    QuotientShrinks(a1, y, b1);
  }

  lemma {:induction false} Power2Adds(a: nat, b: nat)
    ensures Power2(a + b) == Power2(a) * Power2(b)
  {
    if a > 0 {
      Power2Adds(a - 1, b);
      assert 2 * (Power2(a - 1) * Power2(b)) == (2 * Power2(a - 1)) * Power2(b);
    }
  }

  lemma {:induction false} Power63()
    ensures Power2(63) == -MIN
  {
    assert Power2(7) == 128;
    assert Power2(8) == 256;
    Power2Adds(8, 8);
    Power2Adds(16, 16);
    Power2Adds(16, 8);
    Power2Adds(24, 7);
    Power2Adds(32, 31);
  }

  lemma {:induction false} Power2Grows(a: nat, b: nat)
    requires a <= b
    ensures Power2(a) <= Power2(b)
  {
    if a < b {
      Power2Grows(a, b - 1);
    }
  }

  lemma {:induction false} BitLengthCovers(x: nat, h: nat)
    requires x <= h
    ensures x < Power2(BitLength(h))
  {
    if h > 0 {
      BitLengthCovers(x / 2, h / 2);
    }
  }

  /** Bit operations stay within the width of their operands. */
  lemma {:induction false} BitOpWidth(f: Bit, x: int, y: int, k: nat)
    requires -Power2(k) <= x < Power2(k) && -Power2(k) <= y < Power2(k)
    ensures -Power2(k) <= BitOp(f, x, y) < Power2(k)
    decreases k
  {
    if k > 0 && !(Magnitude(x) == 0 && Magnitude(y) == 0) {
      Halve(x);
      Halve(y);
      BitOpWidth(f, x / 2, y / 2, k - 1);
    } else {
      assert Power2(k) >= 1;
    }
  }

  lemma {:induction false} BitOpNatural(f: Bit, x: int, y: int)
    requires x >= 0 && y >= 0
    ensures BitOp(f, x, y) >= 0
    ensures f == BitAnd ==> BitOp(f, x, y) <= x && BitOp(f, x, y) <= y
    decreases x + y
  {
    if x + y > 0 {
      Halve(x);
      Halve(y);
      BitOpNatural(f, x / 2, y / 2);
    }
  }

  // ----- soundness -----

  lemma {:induction false} BitsSound(f: Bit, a: Range, b: Range, x: Value, y: Value)
    requires Narrow(a) && Narrow(b) && Within(x, a) && Within(y, b) && BitBounds(f, a, b).Some?
    ensures var r := BitBounds(f, a, b).value;
            && Narrow(r) && Apply2(Bits(f), x, y, Exact).Some? && Within(Apply2(Bits(f), x, y, Exact).value, r)
            && Apply2(Bits(f), x, y, Wrap) == Apply2(Bits(f), x, y, Exact)
  {
    if x.I? && y.I? {
      Power63();
      BitOpWidth(f, x.n, y.n, 63);
      Wraps(BitOp(f, x.n, y.n));
      if a.low >= 0 && b.low >= 0 {
        BitOpNatural(f, x.n, y.n);
        var wide := if BitLength(a.high) > BitLength(b.high) then BitLength(a.high) else BitLength(b.high);
        BitLengthCovers(x.n, a.high);
        BitLengthCovers(y.n, b.high);
        Power2Grows(BitLength(a.high), wide);
        Power2Grows(BitLength(b.high), wide);
        BitOpWidth(f, x.n, y.n, wide);
      }
    }
  }

  lemma {:induction false} DivisionSound(f: BinaryFn, a: Range, b: Range, x: Value, y: Value)
    requires f == FloorDivide || f == Remainder
    requires Narrow(a) && Narrow(b) && Within(x, a) && Within(y, b) && BinaryBounds(f, a, b).Some?
    ensures var r := BinaryBounds(f, a, b).value;
            && Narrow(r) && Apply2(f, x, y, Exact).Some? && Within(Apply2(f, x, y, Exact).value, r)
            && Apply2(f, x, y, Wrap) == Apply2(f, x, y, Exact)
  {
    hide Wrap;
    if f == FloorDivide {
      QuotientCorners(a.low, x.n, a.high, b.low, y.n, b.high);
      Wraps(x.n / y.n);
    } else {
      assert x.n - x.n / y.n * y.n == x.n % y.n;
      Wraps(x.n % y.n);
    }
  }

  lemma {:induction false} BinarySound(f: BinaryFn, a: Range, b: Range, x: Value, y: Value)
    requires Narrow(a) && Narrow(b) && Within(x, a) && Within(y, b) && BinaryBounds(f, a, b).Some?
    ensures var r := BinaryBounds(f, a, b).value;
            && Narrow(r) && Apply2(f, x, y, Exact).Some? && Within(Apply2(f, x, y, Exact).value, r)
            && Apply2(f, x, y, Wrap) == Apply2(f, x, y, Exact)
  {
    hide Wrap, Quotient, Compare, BitOp, BitLength, Max;
    match f
    case Bits(bit) => BitsSound(bit, a, b, x, y);
    case Add => Wraps(x.n + y.n);
    case Sub => Wraps(x.n - y.n);
    case Mul =>
      ProductCorners(a.low, x.n, a.high, b.low, y.n, b.high);
      Wraps(x.n * y.n);
    case FloorDivide => DivisionSound(f, a, b, x, y);
    case Remainder => DivisionSound(f, a, b, x, y);
    case _ =>
  }

  lemma {:induction false} UnarySound(g: UnaryFn, a: Range, x: Value)
    requires Narrow(a) && Within(x, a) && UnaryBounds(g, a).Some?
    ensures var r := UnaryBounds(g, a).value;
            && Narrow(r) && Apply1(g, x, Exact).Some? && Within(Apply1(g, x, Exact).value, r)
            && Apply1(g, x, Wrap) == Apply1(g, x, Exact)
  {
    if x.I? {
      if g == Invert {
        Wraps(-x.n - 1);
      } else if g == Neg {
        Wraps(-x.n);
      }
    }
  }

  /** Interval soundness: when the analysis bounds a plan and every symbol lies in its
      range, the plan evaluates, its value lies in the bounds, every subexpression fits
      in 64 bits, and 64-bit evaluation gives the exact value. */
  lemma {:induction false} BoundsAreSound(p: Plan, ranges: map<string, Range>, symbols: map<string, Value>)
    requires Covered(ranges, symbols) && BoundsOf(p, ranges).Some?
    ensures Narrow(BoundsOf(p, ranges).value)
    ensures Run(p, symbols, Exact).Some? && Within(Run(p, symbols, Exact).value, BoundsOf(p, ranges).value)
    ensures AllFit(p, symbols) && Run(p, symbols, Wrap) == Run(p, symbols, Exact)
  {
    match p
    case PConstant(_) =>
    case PSymbol(_) =>
    case PUnary(g, operand) =>
      BoundsAreSound(operand, ranges, symbols);
      UnarySound(g, BoundsOf(operand, ranges).value, Run(operand, symbols, Exact).value);
    case PBinary(f, left, right) =>
      BoundsAreSound(left, ranges, symbols);
      BoundsAreSound(right, ranges, symbols);
      BinarySound(f, BoundsOf(left, ranges).value, BoundsOf(right, ranges).value, Run(left, symbols, Exact).value,
          Run(right, symbols, Exact).value);
    case PEvaluate(_) =>
  }
}
