/** What the verifier does with one operation of each simple kind, with a sequence, and with
    the yield of a loop that carries one value. */
module VerifierSteps {
  import opened Wrappers
  import opened Ssa

  // ----- verifying one scalar operation -----

  /** Operations whose only obligations are visible operands and a new result. */
  predicate Plain(opcode: Opcode) {
    opcode.Constant? || opcode.Binary? || opcode.Unary? || opcode.Select? || opcode.Extract? || opcode.ShapeDim?
        || opcode.Offset?
  }

  function Grown(s: Scope, name: string, t: Type): Scope {
    Scope(s.visible[name := t], s.definitions + {name})
  }

  ghost predicate NewIn(s: Scope, name: string) {
    name !in s.visible && name !in s.definitions
  }

  lemma {:induction false} DefinesOne(v: Value, s: Scope)
    requires NewIn(s, v.name)
    ensures DefineResults([v], s.visible, s.definitions) == Success(s.definitions + {v.name})
    ensures Bind(s.visible, [v]) == s.visible[v.name := v.typ]
  {
    var one := [v];
    assert one[1..] == [];
    assert DefineResults(one[1..], s.visible, s.definitions + {v.name}) == Success(s.definitions + {v.name});
    assert Bind(s.visible[v.name := v.typ], one[1..]) == s.visible[v.name := v.typ];
  }

  lemma {:induction false} PlainVerifies(op: Operation, last: bool, s: Scope, slots: Option<seq<seq<Type>>>)
    requires Plain(op.opcode) && op.regions == [] && |op.results| == 1 && NewIn(s, op.results[0].name)
    requires forall name :: name in op.operands ==> name in s.visible
    ensures VerifyOperation(op, last, s, slots) == Success(Grown(s, op.results[0].name, op.results[0].typ))
  {
    DefinesOne(op.results[0], s);
    assert op.results == [op.results[0]];
    assert References(op) == op.operands;
    var defined := s.definitions + {op.results[0].name};
    assert VerifyRegions(op.regions, Scope(s.visible, defined), Slots(op, s.visible)) == Success(defined);
  }

  lemma {:induction false} StoreVerifies(op: Operation, last: bool, s: Scope, slots: Option<seq<seq<Type>>>)
    requires op.opcode.Store? && op.regions == [] && op.results == [] && |op.operands| in {2, 3}
    requires forall name :: name in References(op) ==> name in s.visible
    requires op.operands[1] in s.visible && s.visible[op.operands[1]].kind in {PointerKind, TensorKind, ScalarKind}
    requires |op.operands| == 3 ==> op.operands[2] in s.visible && MaskHolds(s.visible[op.operands[2]])
    ensures VerifyOperation(op, last, s, slots) == Success(s)
  {
    assert DefineResults(op.results, s.visible, s.definitions) == Success(s.definitions);
    assert Bind(s.visible, op.results) == s.visible;
    assert VerifyRegions(op.regions, s, Slots(op, s.visible)) == Success(s.definitions);
  }

  // ----- sequences -----

  /** The last-operation flag matters to a yield only. */
  lemma {:induction false} FlagIrrelevant(op: Operation, s: Scope, slots: Option<seq<seq<Type>>>)
    requires !op.opcode.Yield?
    ensures VerifyOperation(op, true, s, slots) == VerifyOperation(op, false, s, slots)
  {
    hide VerifyRegions, DefineResults, RegionContractHolds, MemoryContractHolds, Slots, Bind, References;
  }

  ghost predicate NoYield(ops: seq<Operation>) {
    forall i :: 0 <= i < |ops| ==> !ops[i].opcode.Yield?
  }

  lemma {:induction false} VerifyThen(a: seq<Operation>, b: seq<Operation>, s: Scope, middle: Scope,
          slots: Option<seq<seq<Type>>>)
    requires NoYield(a) && VerifyOperations(a, s, slots) == Success(middle)
    ensures VerifyOperations(a + b, s, slots) == VerifyOperations(b, middle, slots)
    decreases |a|
  {
    hide VerifyOperation;
    if a == [] {
      assert a + b == b;
    } else {
      assert (a + b)[0] == a[0] && (a + b)[1..] == a[1..] + b;
      FlagIrrelevant(a[0], s, slots);
      var next := VerifyOperation(a[0], |a| == 1, s, slots).value;
      VerifyThen(a[1..], b, next, middle, slots);
    }
  }

  lemma {:induction false} VerifyOne(op: Operation, s: Scope, next: Scope, slots: Option<seq<seq<Type>>>)
    requires VerifyOperation(op, true, s, slots) == Success(next)
    ensures VerifyOperations([op], s, slots) == Success(next)
  {
    hide VerifyOperation;
    var ops := [op];
    assert ops[1..] == [] && VerifyOperations(ops[1..], next, slots) == Success(next);
  }

  lemma {:induction false} VerifyCons(op: Operation, rest: seq<Operation>, s: Scope, next: Scope,
          slots: Option<seq<seq<Type>>>, r: Verdict)
    requires !op.opcode.Yield? && VerifyOperation(op, false, s, slots) == Success(next)
    requires VerifyOperations(rest, next, slots) == r
    ensures VerifyOperations([op] + rest, s, slots) == r
  {
    FlagIrrelevant(op, s, slots);
    hide VerifyOperation;
    VerifyOne(op, s, next, slots);
    VerifyThen([op], rest, s, next, slots);
  }

  lemma {:induction false} FiveVerify(a: Operation, b: Operation, c: Operation, d: Operation, e: Operation, s0: Scope,
          s1: Scope, s2: Scope, s3: Scope, s4: Scope, s5: Scope, slots: Option<seq<seq<Type>>>)
    requires !a.opcode.Yield? && !b.opcode.Yield? && !c.opcode.Yield? && !d.opcode.Yield?
    requires VerifyOperation(a, false, s0, slots) == Success(s1) && VerifyOperation(b, false, s1, slots) == Success(s2)
    requires VerifyOperation(c, false, s2, slots) == Success(s3) && VerifyOperation(d, false, s3, slots) == Success(s4)
    requires VerifyOperation(e, true, s4, slots) == Success(s5)
    ensures VerifyOperations([a, b, c, d, e], s0, slots) == Success(s5)
  {
    hide VerifyOperation, VerifyOperations;
    var done := Success(s5);
    VerifyOne(e, s4, s5, slots);
    VerifyCons(d, [e], s3, s4, slots, done);
    VerifyCons(c, [d] + [e], s2, s3, slots, done);
    VerifyCons(b, [c] + ([d] + [e]), s1, s2, slots, done);
    VerifyCons(a, [b] + ([c] + ([d] + [e])), s0, s1, slots, done);
    assert [a] + ([b] + ([c] + ([d] + [e]))) == [a, b, c, d, e];
  }

  // ----- a loop that carries one value -----

  function LoopSlots(scalar: Type): seq<seq<Type>> {
    [[scalar, scalar, scalar]]
  }

  lemma {:induction false} SameTypesAgree(t: Type)
    ensures AllAgree([t] + LoopSlots(t)[0])
  {
    var types := [t] + LoopSlots(t)[0];
    assert forall x :: x in types ==> x == t;
    FirstKnownSame(types, t);
  }

  lemma {:induction false} FirstKnownSame(types: seq<Type>, t: Type)
    requires forall x :: x in types ==> x == t
    ensures FirstKnown(types, t) == t
    decreases |types|
  {
    if types != [] {
      assert types[0] in types && forall x :: x in types[1..] ==> x in types;
      FirstKnownSame(types[1..], t);
    }
  }

  lemma {:induction false} YieldVerifies(name: string, s: Scope, scalar: Type)
    requires name in s.visible && s.visible[name] == scalar
    ensures VerifyOperations([Operation(Yield, [name], [], NO_ATTRS, [])], s, Some(LoopSlots(scalar))) == Success(s)
  {
    var op := Operation(Yield, [name], [], NO_ATTRS, []);
    SameTypesAgree(scalar);
    assert DefineResults(op.results, s.visible, s.definitions) == Success(s.definitions);
    assert CheckYield(op, true, s.visible, Some(LoopSlots(scalar))) == Success(());
    assert VerifyRegions(op.regions, s, Slots(op, s.visible)) == Success(s.definitions);
    assert Bind(s.visible, op.results) == s.visible;
    assert VerifyOperation(op, true, s, Some(LoopSlots(scalar))) == Success(s);
    VerifyOne(op, s, s, Some(LoopSlots(scalar)));
  }

  /** A loop over `induction` that carries one value under the argument `carried`. */
  predicate IsCarryLoop(op: Operation, operands: seq<string>, result: string, induction: string, carried: string,
          t: Type, body: seq<Operation>) {
    && op.opcode.For? && |operands| == 4 && op.operands == operands && op.results == [Value(result, t)]
    && op.attrs.induction == induction && |op.attrs.iterArgs| == 1
    && op.attrs.iterArgs[0].initial == operands[3] && op.attrs.iterArgs[0].blockArg == carried
    && op.regions == [Block([Value(induction, INDEX), Value(carried, t)], body)]
    && body != [] && body[|body| - 1].opcode.Yield? && |body[|body| - 1].operands| == 1
  }

  /** What such a loop needs around it. */
  ghost predicate CarryReady(operands: seq<string>, result: string, induction: string, carried: string, t: Type,
          s: Scope) {
    && |operands| == 4 && (forall i :: 0 <= i < 4 ==> operands[i] in s.visible) && s.visible[operands[3]] == t
    && (forall i :: 0 <= i < 3 ==> IntegerBound(s.visible[operands[i]]))
    && NewIn(s, result) && NewIn(s, induction) && NewIn(s, carried)
    && result != induction && result != carried && induction != carried
  }

  /** The scope in which the body is verified. */
  function Inside(s: Scope, result: string, induction: string, carried: string, t: Type): Scope {
    Scope(s.visible[induction := INDEX][carried := t], s.definitions + {result} + {induction} + {carried})
  }

  lemma {:induction false} CarryParts(op: Operation, operands: seq<string>, result: string, induction: string,
          carried: string, t: Type, body: seq<Operation>, s: Scope)
    requires IsCarryLoop(op, operands, result, induction, carried, t, body)
    requires CarryReady(operands, result, induction, carried, t, s)
    ensures (forall name :: name in References(op) ==> name in s.visible)
    ensures (forall name :: name in op.operands ==> name in References(op))
    ensures RegionContractHolds(op, s.visible) && MemoryContractHolds(op, s.visible)
    ensures Slots(op, s.visible) == LoopSlots(t)
  {
  }

  lemma {:induction false} CarryArguments(result: string, induction: string, carried: string, t: Type, s: Scope)
    requires NewIn(s, induction) && NewIn(s, carried) && result != induction && result != carried
    requires induction != carried
    ensures BindArguments([Value(induction, INDEX), Value(carried, t)], Scope(s.visible, s.definitions + {result})) ==
        Success(Inside(s, result, induction, carried, t))
    ensures NameSet([Value(induction, INDEX), Value(carried, t)]) == {induction, carried}
  {
    var args, first := [Value(induction, INDEX), Value(carried, t)], Scope(s.visible, s.definitions + {result});
    assert args[1..] == [Value(carried, t)] && args[1..][1..] == [];
    var s1, inside := Scope(first.visible[induction := INDEX], first.definitions + {induction}),
        Inside(s, result, induction, carried, t);
    assert BindArguments(args[1..][1..], inside) == Success(inside);
    assert BindArguments(args[1..], s1) == Success(inside);
    assert args[0] == Value(induction, INDEX) && args[1] == Value(carried, t);
  }

  lemma {:induction false} CarryLoopVerifies(op: Operation, operands: seq<string>, result: string, induction: string,
          carried: string, t: Type, body: seq<Operation>, s: Scope, last: bool, slots: Option<seq<seq<Type>>>,
          finished: Scope)
    requires IsCarryLoop(op, operands, result, induction, carried, t, body)
    requires CarryReady(operands, result, induction, carried, t, s)
    requires VerifyOperations(body, Inside(s, result, induction, carried, t), Some(LoopSlots(t))) == Success(finished)
    ensures VerifyOperation(op, last, s, slots) ==
        Success(Scope(s.visible[result := t], finished.definitions - {induction, carried}))
  {
    CarryParts(op, operands, result, induction, carried, t, body, s);
    CarryArguments(result, induction, carried, t, s);
    DefinesOne(Value(result, t), s);
    hide VerifyOperation, VerifyOperations, RegionContractHolds, MemoryContractHolds, Slots, BindArguments,
        DefineResults, Bind, References, CarryReady;
    assert op.results == [Value(result, t)] && |op.regions| == 1;
    LoopCloses(op, Value(result, t), last, s, slots, Inside(s, result, induction, carried, t), finished,
        finished.definitions - {induction, carried});
  }

  lemma {:induction false} LoopCloses(op: Operation, result: Value, last: bool, s: Scope, slots: Option<seq<seq<Type>>>,
          inside: Scope, finished: Scope, after: set<string>)
    requires op.opcode.For? && op.results == [result] && |op.regions| == 1
    requires (forall name :: name in References(op) ==> name in s.visible)
    requires (forall name :: name in op.operands ==> name in References(op))
    requires RegionContractHolds(op, s.visible) && MemoryContractHolds(op, s.visible)
    requires Slots(op, s.visible) == LoopSlots(result.typ)
    requires DefineResults(op.results, s.visible, s.definitions) == Success(s.definitions + {result.name})
    requires Bind(s.visible, op.results) == s.visible[result.name := result.typ]
    requires BindArguments(op.regions[0].args, Scope(s.visible, s.definitions + {result.name})) == Success(inside)
    requires VerifyOperations(op.regions[0].operations, inside, Some(LoopSlots(result.typ))) == Success(finished)
    requires finished.definitions - NameSet(op.regions[0].args) == after
    ensures VerifyOperation(op, last, s, slots) == Success(Scope(s.visible[result.name := result.typ], after))
  {
    hide BindArguments, DefineResults, Bind, Slots, RegionContractHolds, MemoryContractHolds, VerifyOperations,
        References;
    var outer := Scope(s.visible, s.definitions + {result.name});
    assert VerifyBlock(op.regions[0], outer, Some(LoopSlots(result.typ))) == Success(Scope(finished.visible, after));
    assert op.regions[1..] == [];
    assert VerifyRegions(op.regions[1..], Scope(s.visible, after), LoopSlots(result.typ)) == Success(after);
    assert VerifyRegions(op.regions, outer, LoopSlots(result.typ)) == Success(after);
  }
}
