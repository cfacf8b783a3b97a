/** The matmul half of the linalg decomposition (`compiler/passes.py`): a whole-tile
    `linalg.matmul` followed by a store becomes scalar SSA that the interpreter
    replays once for each live lane of the output. */
module Linalg {
  import opened Wrappers
  import opened Ssa
  import opened Interpreter
  import opened Frontend

  // ----- fresh temporaries -----

  function TempName(n: nat): string {
    "%" + Digits(n)
  }

  predicate IsDigit(c: char) {
    '0' <= c <= '9'
  }

  lemma {:induction false} DigitsAreDigits(n: nat)
    ensures Digits(n) != [] && forall c :: c in Digits(n) ==> IsDigit(c)
    decreases n
  {
    if n >= 10 {
      DigitsAreDigits(n / 10);
    }
  }

  function DigitValue(c: char): int {
    c as int - '0' as int
  }

  lemma {:induction false} DigitsInjective(a: nat, b: nat)
    requires Digits(a) == Digits(b)
    ensures a == b
    decreases a
  {
    var x, y := Digits(a), Digits(b);
    assert DigitValue(x[|x| - 1]) == a % 10;
    assert DigitValue(y[|y| - 1]) == b % 10;
    DigitsAreDigits(a / 10);
    DigitsAreDigits(b / 10);
    if a >= 10 && b >= 10 {
      assert Digits(a / 10) == x[..|x| - 1] && Digits(b / 10) == y[..|y| - 1];
      DigitsInjective(a / 10, b / 10);
    }
  }

  ghost predicate TempFrom(name: string, n: nat) {
    exists m: nat :: m >= n && name == TempName(m)
  }

  ghost function Ahead(existing: set<string>, n: nat): set<string> {
    set name | name in existing && TempFrom(name, n)
  }

  lemma {:induction false} AheadShrinks(existing: set<string>, n: nat)
    requires TempName(n) in existing
    ensures Ahead(existing, n + 1) < Ahead(existing, n)
  {
    assert TempFrom(TempName(n), n);
    forall m: nat | m >= n + 1
      ensures TempName(m) != TempName(n)
    {
      if TempName(m) == TempName(n) {
        assert Digits(m) == TempName(m)[1..] && Digits(n) == TempName(n)[1..];
        DigitsInjective(m, n);
      }
    }
    assert TempName(n) !in Ahead(existing, n + 1);
  }

  /** `_fresh_value`: the first unused `%n` at or after the counter. */
  function FreshIndex(existing: set<string>, n: nat): (r: nat)
    ensures r >= n && TempName(r) !in existing
    ensures forall m: nat :: n <= m < r ==> TempName(m) in existing
    decreases Ahead(existing, n)
  {
    if TempName(n) !in existing then n
    else
      AheadShrinks(existing, n);
      FreshIndex(existing, n + 1)
  }

  /** `count` fresh names in order, none of them in `existing`. */
  function FreshNames(existing: set<string>, n: nat, count: nat): (r: (seq<string>, nat))
    ensures |r.0| == count
    ensures forall i :: 0 <= i < count ==> r.0[i] !in existing
    ensures forall i :: 0 <= i < count ==> exists m: nat :: r.0[i] == TempName(m)
    ensures forall i, j :: 0 <= i < j < count ==> r.0[i] != r.0[j]
    decreases count
  {
    if count == 0 then ([], n)
    else
      var index := FreshIndex(existing, n);
      var rest := FreshNames(existing + {TempName(index)}, index + 1, count - 1);
      ([TempName(index)] + rest.0, rest.1)
  }

  // ----- the decomposed store -----

  const KK := "%kk"
  const ACC_ITER := "%acc_iter"

  lemma {:induction false} HardCodedNamesAreNotTemps(m: nat)
    ensures TempName(m) != KK && TempName(m) != ACC_ITER
  {
    DigitsAreDigits(m);
    var name := TempName(m);
    assert name[1] == Digits(m)[0] && Digits(m)[0] in Digits(m);
    assert KK[1] == 'k' && ACC_ITER[1] == 'a';
  }

  /** Where the extent of K comes from: a visible shape symbol, or `shape.dim` of lhs. */
  datatype Extent = FromSymbol(name: string) | FromShape

  /** A last dimension of lhs that is no symbol is read at run time; otherwise the `k` of the
      product, if it names a symbol, comes before the dimensions of its operands. */
  function ExtentOf(k: Option<string>, lhs: Option<Type>, rhs: Option<Type>): Extent {
    if lhs.Some? && lhs.value.shape != [] then
      match lhs.value.shape[|lhs.value.shape| - 1]
      case Named(name) => FromSymbol(k.GetOr(name))
      case _ => FromShape
    else if k.Some? then FromSymbol(k.value)
    else if rhs.Some? && rhs.value.shape != [] && rhs.value.shape[0].Named? then FromSymbol(rhs.value.shape[0].name)
    else FromSymbol("k")
  }

  function ScalarType(t: Type): Type {
    Type(ScalarKind, [], Some(t.dtype.GetOr(Float(32))))
  }

  datatype LaneTypes = LaneTypes(scalar: Type, lhs: Type, rhs: Type)

  const INDEX64 := Type(IndexKind, [], Some(INT64))

  function LaneOperation(opcode: Opcode, operands: seq<string>, result: string, t: Type): Operation {
    Operation(opcode, operands, [Value(result, t)], NO_ATTRS.(decomposition := MatMulLane), [])
  }

  /** The body of the K loop: extract both factors, multiply, accumulate, yield. */
  function LaneBody(names: seq<string>, lhs: string, rhs: string, t: LaneTypes): seq<Operation>
    requires |names| == 11
  {
    [LaneOperation(Extract(false), [lhs, names[0], KK], names[5], t.lhs),
     LaneOperation(Extract(false), [rhs, KK, names[1]], names[6], t.rhs),
     LaneOperation(Binary(Mul), [names[5], names[6]], names[7], t.scalar),
     LaneOperation(Binary(Add), [ACC_ITER, names[7]], names[8], t.scalar),
     Operation(Yield, [names[8]], [], NO_ATTRS, [])]
  }

  function LaneLoop(names: seq<string>, lhs: string, rhs: string, bound: string, t: LaneTypes): Operation
    requires |names| == 11
  {
    Operation(For, [names[2], bound, names[3], names[4]], [Value(names[9], t.scalar)],
              Attrs([], KK, [IterArg("acc", names[4], ACC_ITER)], MatMulLane, [], None),
              [Block([Value(KK, INDEX), Value(ACC_ITER, t.scalar)], LaneBody(names, lhs, rhs, t))])
  }

  /** `_decompose_matmul_store`, with the names row, col, zero, one, acc_init,
      lhs_value, rhs_value, product, acc_next, acc_result, bound already chosen. */
  function LaneOperations(names: seq<string>, lhs: string, rhs: string, output: string, extent: Extent,
          store: Operation, t: LaneTypes): seq<Operation>
    requires |names| == 11
  {
    LanePrefix(names, lhs, output, extent, t)
    + [LaneLoop(names, lhs, rhs, BoundName(names, extent), t), LaneStore(names[9], lhs, rhs, output, store)]
  }

  function BoundName(names: seq<string>, extent: Extent): string
    requires |names| == 11
  {
    if extent.FromSymbol? then extent.name else names[10]
  }

  /** The output lane, the loop constants and, for a computed extent, `shape.dim`. */
  function LanePrefix(names: seq<string>, lhs: string, output: string, extent: Extent, t: LaneTypes): seq<Operation>
    requires |names| == 11
  {
    [LaneOperation(Offset(0, true), [output], names[0], INDEX),
        LaneOperation(Offset(1, true), [output], names[1], INDEX)]
    + ([LaneOperation(Constant(0), [], names[2], SCALAR_INT), LaneOperation(Constant(1), [], names[3], SCALAR_INT),
        LaneOperation(Constant(0), [], names[4], t.scalar)]
       + if extent.FromSymbol? then [] else [Operation(ShapeDim(-1), [lhs], [Value(names[10], INDEX64)], NO_ATTRS, [])])
  }

  function LaneStore(sum: string, lhs: string, rhs: string, output: string, store: Operation): Operation {
    Operation(Store, [sum, output], [], store.attrs.(decomposition := MatMulLane, matmulOperands := [lhs, rhs]), [])
  }

  predicate ClosesMatMul(matmul: Operation, store: Operation) {
    && matmul.opcode.MatMul? && |matmul.operands| == 2 && |matmul.results| == 1 && matmul.regions == []
    && store.opcode.Store? && |store.operands| >= 2 && store.operands[0] == matmul.results[0].name
  }

  function TypeOf(types: map<string, Type>, name: string): Option<Type> {
    if name in types then Some(types[name]) else None
  }

  function DecomposeMatMulStore(matmul: Operation, store: Operation, types: map<string, Type>, existing: set<string>,
          counter: nat): (seq<Operation>, set<string>, nat)
    requires ClosesMatMul(matmul, store)
  {
    var lhs, rhs, output := matmul.operands[0], matmul.operands[1], store.operands[1];
    var extent := ExtentOf(matmul.attrs.k, TypeOf(types, lhs), TypeOf(types, rhs));
    var outputType := TypeOf(types, output).GetOr(matmul.results[0].typ);
    var t := LaneTypes(ScalarType(outputType), ScalarType(TypeOf(types, lhs).GetOr(outputType)),
        ScalarType(TypeOf(types, rhs).GetOr(outputType)));
    var (names, next) := FreshNames(existing, counter, if extent.FromSymbol? then 10 else 11);
    var padded := if extent.FromSymbol? then names + [""] else names;
    (LaneOperations(padded, lhs, rhs, output, extent, store, t), existing + (set name | name in names), next)
  }
}
