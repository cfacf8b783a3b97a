/** Decomposition keeps programs valid: the verifier accepts what the pass makes of an
    accepted program, provided that nothing else uses what it removes and its hard-coded
    loop names are free where it puts them. */
module DecompositionValid {
  import opened Wrappers
  import opened Ssa
  import opened VerifierSteps
  import opened Linalg
  import opened Decomposition

  // ----- the generated loop -----

  /** Some of the chosen names are new in a scope, and all differ. */
  ghost predicate NewNames(s: Scope, names: seq<string>, low: nat, high: nat)
    requires low <= high <= |names|
  {
    && (forall i :: low <= i < high ==> NewIn(s, names[i]))
    && (forall i, j :: low <= i < j < high ==> names[i] != names[j])
  }

  lemma {:induction false} GrownKeeps(s: Scope, names: seq<string>, low: nat, high: nat, t: Type)
    requires low < high <= |names| && NewNames(s, names, low, high)
    ensures NewNames(Grown(s, names[low], t), names, low + 1, high)
  {
  }

  /** The body of the generated loop: two extracts, a product, a sum and the yield. */
  lemma {:induction false} LaneBodyVerifies(names: seq<string>, lhs: string, rhs: string, t: LaneTypes, s: Scope)
    requires |names| == 11 && NewNames(s, names, 5, 9)
    requires forall name :: name in {lhs, rhs, names[0], names[1], KK, ACC_ITER} ==> name in s.visible
    ensures var r := VerifyOperations(LaneBody(names, lhs, rhs, t), s, Some(LoopSlots(t.scalar)));
            r.Success? && r.value.definitions == s.definitions + {names[5], names[6], names[7], names[8]}
  {
    hide VerifyOperation, VerifyOperations;
    var ops, slots := LaneBody(names, lhs, rhs, t), Some(LoopSlots(t.scalar));
    var s1 := Grown(s, names[5], t.lhs);
    var s2 := Grown(s1, names[6], t.rhs);
    var s3 := Grown(s2, names[7], t.scalar);
    var s4 := Grown(s3, names[8], t.scalar);
    GrownKeeps(s, names, 5, 9, t.lhs);
    GrownKeeps(s1, names, 6, 9, t.rhs);
    GrownKeeps(s2, names, 7, 9, t.scalar);
    PlainVerifies(ops[0], false, s, slots);
    PlainVerifies(ops[1], false, s1, slots);
    PlainVerifies(ops[2], false, s2, slots);
    PlainVerifies(ops[3], false, s3, slots);
    YieldVerifies(names[8], s4, t.scalar);
    FourThen(ops[0], ops[1], ops[2], ops[3], ops[4], s, s1, s2, s3, s4, slots);
    assert ops == [ops[0], ops[1], ops[2], ops[3], ops[4]];
  }

  lemma {:induction false} FourThen(a: Operation, b: Operation, c: Operation, d: Operation, e: Operation, s: Scope,
          s1: Scope, s2: Scope, s3: Scope, s4: Scope, slots: Option<seq<seq<Type>>>)
    requires !a.opcode.Yield? && !b.opcode.Yield? && !c.opcode.Yield? && !d.opcode.Yield?
    requires VerifyOperation(a, false, s, slots) == Success(s1) && VerifyOperation(b, false, s1, slots) == Success(s2)
    requires VerifyOperation(c, false, s2, slots) == Success(s3) && VerifyOperation(d, false, s3, slots) == Success(s4)
    requires VerifyOperations([e], s4, slots) == Success(s4)
    ensures VerifyOperations([a, b, c, d, e], s, slots) == Success(s4)
  {
    hide VerifyOperation, VerifyOperations;
    VerifyCons(d, [e], s3, s4, slots, Success(s4));
    assert [d] + [e] == [d, e];
    VerifyCons(c, [d, e], s2, s3, slots, Success(s4));
    assert [c] + [d, e] == [c, d, e];
    VerifyCons(b, [c, d, e], s1, s2, slots, Success(s4));
    assert [b] + [c, d, e] == [b, c, d, e];
    VerifyCons(a, [b, c, d, e], s, s1, slots, Success(s4));
    assert [a] + [b, c, d, e] == [a, b, c, d, e];
  }

  /** What the generated loop needs around it. */
  ghost predicate LoopReady(names: seq<string>, lhs: string, rhs: string, bound: string, t: LaneTypes, s: Scope) {
    && |names| == 11 && NewNames(s, names, 5, 10) && NewIn(s, KK) && NewIn(s, ACC_ITER)
    && (forall i :: 0 <= i < 11 ==> names[i] != KK && names[i] != ACC_ITER)
    && (forall name :: name in {lhs, rhs, bound, names[0], names[1], names[2], names[3], names[4]} ==>
        name in s.visible)
    && IntegerBound(s.visible[bound]) && IntegerBound(s.visible[names[2]]) && IntegerBound(s.visible[names[3]])
    && s.visible[names[4]] == t.scalar
  }

  lemma {:induction false} LaneLoopVerifies(names: seq<string>, lhs: string, rhs: string, bound: string, t: LaneTypes,
          s: Scope, last: bool, slots: Option<seq<seq<Type>>>)
    requires LoopReady(names, lhs, rhs, bound, t, s)
    ensures VerifyOperation(LaneLoop(names, lhs, rhs, bound, t), last, s, slots)
         == Success(Scope(s.visible[names[9] := t.scalar],
             s.definitions + {names[5], names[6], names[7], names[8], names[9]}))
  {
    hide VerifyOperation, VerifyOperations;
    var op, operands, body := LaneLoop(names, lhs, rhs, bound, t), [names[2], bound, names[3], names[4]],
        LaneBody(names, lhs, rhs, t);
    var inside := Inside(s, names[9], KK, ACC_ITER, t.scalar);
    assert KK != ACC_ITER;
    LaneBodyVerifies(names, lhs, rhs, t, inside);
    var finished := VerifyOperations(body, inside, Some(LoopSlots(t.scalar))).value;
    var after := s.definitions + {names[5], names[6], names[7], names[8], names[9]};
    assert finished.definitions - {KK, ACC_ITER} == after;
    assert op.operands == operands;
    CarryLoopVerifies(op, operands, names[9], KK, ACC_ITER, t.scalar, body, s, last, slots, finished);
  }

  // ----- a run of scalar operations -----

  ghost predicate Plains(ops: seq<Operation>, visible: set<string>) {
    forall i :: 0 <= i < |ops| ==>
        Plain(ops[i].opcode) && ops[i].regions == [] && |ops[i].results| == 1
        && forall name :: name in ops[i].operands ==> name in visible
  }

  function Result(op: Operation): Value
    requires |op.results| == 1
  {
    op.results[0]
  }

  ghost predicate NewResults(ops: seq<Operation>, s: Scope)
    requires forall i :: 0 <= i < |ops| ==> |ops[i].results| == 1
  {
    && (forall i :: 0 <= i < |ops| ==> NewIn(s, Result(ops[i]).name))
    && (forall i, j :: 0 <= i < j < |ops| ==> Result(ops[i]).name != Result(ops[j]).name)
  }

  /** The scope keeps what it had, and gains only some of these names. */
  ghost predicate Gains(s: Scope, u: Scope, names: set<string>) {
    && s.visible.Keys <= u.visible.Keys && (forall x :: x in s.visible ==> u.visible[x] == s.visible[x])
    && u.visible.Keys <= s.visible.Keys + names && u.definitions <= s.definitions + names
  }

  ghost function ResultSet(ops: seq<Operation>): set<string>
    requires forall i :: 0 <= i < |ops| ==> |ops[i].results| == 1
  {
    set i | 0 <= i < |ops| :: Result(ops[i]).name
  }

  lemma {:induction false} GainsThen(s: Scope, u: Scope, v: Scope, a: set<string>, b: set<string>, all: set<string>)
    requires Gains(s, u, a) && Gains(u, v, b) && a <= all && b <= all
    ensures Gains(s, v, all)
  {
  }

  ghost predicate ResultsVisible(ops: seq<Operation>, u: Scope)
    requires forall i :: 0 <= i < |ops| ==> |ops[i].results| == 1
  {
    forall i :: 0 <= i < |ops| ==>
        Result(ops[i]).name in u.visible && u.visible[Result(ops[i]).name] == Result(ops[i]).typ
  }

  lemma {:induction false} PlainStep(ops: seq<Operation>, rest: seq<Operation>, s: Scope, next: Scope)
    requires ops != [] && rest == ops[1..] && Plains(ops, s.visible.Keys) && NewResults(ops, s)
    requires next == Grown(s, Result(ops[0]).name, Result(ops[0]).typ)
    ensures Plains(rest, next.visible.Keys) && NewResults(rest, next) && Gains(s, next, {Result(ops[0]).name})
    ensures ResultSet(rest) <= ResultSet(ops) && Result(ops[0]).name in ResultSet(ops)
  {
    assert forall i :: 0 <= i < |rest| ==> rest[i] == ops[i + 1];
  }

  lemma {:induction false} ResultsJoin(ops: seq<Operation>, rest: seq<Operation>, next: Scope, u: Scope)
    requires ops != [] && rest == ops[1..] && (forall i :: 0 <= i < |ops| ==> |ops[i].results| == 1)
    requires ResultsVisible(rest, u)
    requires Result(ops[0]).name in next.visible && next.visible[Result(ops[0]).name] == Result(ops[0]).typ
    requires Gains(next, u, ResultSet(rest))
    ensures ResultsVisible(ops, u)
  {
    forall i | 0 <= i < |ops|
      ensures Result(ops[i]).name in u.visible && u.visible[Result(ops[i]).name] == Result(ops[i]).typ
    {
      if i > 0 {
        assert ops[i] == rest[i - 1];
      }
    }
  }

  /** Scalar operations on visible names verify, and add exactly their results. */
  lemma {:induction false} PlainsVerify(ops: seq<Operation>, s: Scope, slots: Option<seq<seq<Type>>>) returns (u: Scope)
    requires Plains(ops, s.visible.Keys) && NewResults(ops, s)
    ensures VerifyOperations(ops, s, slots) == Success(u) && Gains(s, u, ResultSet(ops)) && ResultsVisible(ops, u)
    decreases |ops|
  {
    if ops == [] {
      u := s;
    } else {
      var first, rest := ops[0], ops[1..];
      var next := Grown(s, Result(first).name, Result(first).typ);
      PlainVerifies(first, |ops| == 1, s, slots);
      PlainStep(ops, rest, s, next);
      hide VerifyOperation, Plains, NewResults, ResultsVisible, Gains, ResultSet;
      u := PlainsVerify(rest, next, slots);
      GainsThen(s, next, u, {Result(first).name}, ResultSet(rest), ResultSet(ops));
      ResultsJoin(ops, rest, next, u);
    }
  }

  // ----- a whole decomposed store -----

  /** Where a decomposed product is verified: its operands are visible, the names chosen for
      it are new and the hard-coded ones free. */
  ghost predicate StoreReady(names: seq<string>, lhs: string, rhs: string, output: string, extent: Extent,
          store: Operation, s: Scope) {
    && |names| == 11 && NewNames(s, names, 0, if extent.FromSymbol? then 10 else 11) && NewIn(s, KK)
    && NewIn(s, ACC_ITER)
    && (forall i :: 0 <= i < 11 ==> names[i] != KK && names[i] != ACC_ITER)
    && lhs in s.visible && rhs in s.visible && output in s.visible
    && s.visible[output].kind in {PointerKind, TensorKind, ScalarKind}
    && (forall name :: name in store.attrs.indices ==> name in s.visible)
    && (extent.FromSymbol? ==> extent.name in s.visible && IntegerBound(s.visible[extent.name]))
  }

  ghost function Chosen(names: seq<string>, count: nat): set<string>
    requires count <= |names|
  {
    set i | 0 <= i < count :: names[i]
  }

  function Count(extent: Extent): nat {
    if extent.FromSymbol? then 10 else 11
  }

  /** What the six (or five) operations before the loop read and define. */
  ghost predicate PrefixShape(ops: seq<Operation>, names: seq<string>, lhs: string, output: string, extent: Extent,
          t: LaneTypes)
    requires |names| == 11
  {
    && |ops| == (if extent.FromSymbol? then 5 else 6)
    && (forall i :: 0 <= i < |ops| ==> Plain(ops[i].opcode) && ops[i].regions == [] && |ops[i].results| == 1)
    && (forall i :: 0 <= i < |ops| ==> forall name :: name in ops[i].operands ==> name == lhs || name == output)
    && (forall i :: 0 <= i < |ops| ==> Result(ops[i]).name == names[if i == 5 then 10 else i])
    && Result(ops[0]).typ == INDEX && Result(ops[1]).typ == INDEX && Result(ops[2]).typ == SCALAR_INT
    && Result(ops[3]).typ == SCALAR_INT && Result(ops[4]).typ == t.scalar
    && (!extent.FromSymbol? ==> Result(ops[5]).typ == INDEX64)
  }

  lemma {:induction false} PrefixHasShape(names: seq<string>, lhs: string, output: string, extent: Extent, t: LaneTypes)
    requires |names| == 11
    ensures PrefixShape(LanePrefix(names, lhs, output, extent, t), names, lhs, output, extent, t)
  {
    hide PrefixShape, Listed, LanePrefix;
    PrefixListed(names, lhs, output, extent, t);
    ListedHasShape(LanePrefix(names, lhs, output, extent, t), names, lhs, output, extent, t);
  }

  ghost predicate Listed(ops: seq<Operation>, names: seq<string>, lhs: string, output: string, extent: Extent,
          t: LaneTypes)
    requires |names| == 11
  {
    && |ops| == (if extent.FromSymbol? then 5 else 6)
    && ops[0] == LaneOperation(Offset(0, true), [output], names[0], INDEX)
    && ops[1] == LaneOperation(Offset(1, true), [output], names[1], INDEX)
    && ops[2] == LaneOperation(Constant(0), [], names[2], SCALAR_INT)
    && ops[3] == LaneOperation(Constant(1), [], names[3], SCALAR_INT)
    && ops[4] == LaneOperation(Constant(0), [], names[4], t.scalar)
    && (extent.FromShape? ==> ops[5] == Operation(ShapeDim(-1), [lhs], [Value(names[10], INDEX64)], NO_ATTRS, []))
  }

  lemma {:induction false} PrefixListed(names: seq<string>, lhs: string, output: string, extent: Extent, t: LaneTypes)
    requires |names| == 11
    ensures Listed(LanePrefix(names, lhs, output, extent, t), names, lhs, output, extent, t)
  {
  }

  lemma {:induction false} ListedHasShape(ops: seq<Operation>, names: seq<string>, lhs: string, output: string,
          extent: Extent, t: LaneTypes)
    requires |names| == 11 && Listed(ops, names, lhs, output, extent, t)
    ensures PrefixShape(ops, names, lhs, output, extent, t)
  {
  }

  lemma {:induction false} PrefixPlain(names: seq<string>, lhs: string, rhs: string, output: string, extent: Extent,
          store: Operation, t: LaneTypes, s: Scope, ops: seq<Operation>)
    requires StoreReady(names, lhs, rhs, output, extent, store, s) && PrefixShape(ops, names, lhs, output, extent, t)
    ensures Plains(ops, s.visible.Keys) && NewResults(ops, s) && ResultSet(ops) <= Chosen(names, Count(extent))
    ensures NoYield(ops)
  {
    hide Result, NewIn;
    forall i | 0 <= i < |ops|
      ensures Result(ops[i]).name in Chosen(names, Count(extent)) && NewIn(s, Result(ops[i]).name)
    {
      var k := if i == 5 then 10 else i;
      assert names[k] in Chosen(names, Count(extent));
    }
  }

  lemma {:induction false} PrefixNames(names: seq<string>, lhs: string, output: string, t: LaneTypes, extent: Extent,
          ops: seq<Operation>, i: nat)
    requires |names| == 11 && 5 <= i < 10 && (forall j, k :: 0 <= j < k < Count(extent) ==> names[j] != names[k])
    requires PrefixShape(ops, names, lhs, output, extent, t)
    ensures names[i] !in ResultSet(ops)
  {
  }

  lemma {:induction false} PrefixVerifies(names: seq<string>, lhs: string, rhs: string, output: string, extent: Extent,
          store: Operation, t: LaneTypes, s: Scope, slots: Option<seq<seq<Type>>>)
    returns (u: Scope)
    requires StoreReady(names, lhs, rhs, output, extent, store, s)
    ensures VerifyOperations(LanePrefix(names, lhs, output, extent, t), s, slots) == Success(u)
    ensures NoYield(LanePrefix(names, lhs, output, extent, t))
    ensures Gains(s, u, Chosen(names, Count(extent))) && LoopReady(names, lhs, rhs, BoundName(names, extent), t, u)
  {
    hide NoYield, Gains, Chosen, LoopReady, Result;
    var ops := LanePrefix(names, lhs, output, extent, t);
    PrefixHasShape(names, lhs, output, extent, t);
    hide LanePrefix, VerifyOperations;
    PrefixPlain(names, lhs, rhs, output, extent, store, t, s, ops);
    u := PlainsVerify(ops, s, slots);
    var chosen := Chosen(names, Count(extent));
    GainsThen(s, s, u, {}, ResultSet(ops), chosen);
    forall i | 5 <= i < 10
      ensures names[i] !in ResultSet(ops)
    {
      PrefixNames(names, lhs, output, t, extent, ops, i);
    }
    LoopIsReady(names, lhs, rhs, output, extent, store, t, s, u, ops);
  }

  lemma {:induction false} LoopIsReady(names: seq<string>, lhs: string, rhs: string, output: string, extent: Extent,
          store: Operation, t: LaneTypes, s: Scope, u: Scope, ops: seq<Operation>)
    requires StoreReady(names, lhs, rhs, output, extent, store, s)
    requires (forall i :: 0 <= i < |ops| ==> |ops[i].results| == 1) && Gains(s, u, ResultSet(ops))
    requires ResultsVisible(ops, u)
    requires ResultSet(ops) <= Chosen(names, Count(extent)) && forall i :: 5 <= i < 10 ==> names[i] !in ResultSet(ops)
    requires PrefixShape(ops, names, lhs, output, extent, t)
    ensures LoopReady(names, lhs, rhs, BoundName(names, extent), t, u)
  {
    hide ResultSet, Result, Plain;
    assert KK !in Chosen(names, Count(extent)) && ACC_ITER !in Chosen(names, Count(extent));
    forall i | 5 <= i < 10
      ensures NewIn(u, names[i])
    {
    }
  }

  lemma {:induction false} LaneOperationsVerify(names: seq<string>, lhs: string, rhs: string, output: string,
          extent: Extent, store: Operation, t: LaneTypes, s: Scope, slots: Option<seq<seq<Type>>>)
    returns (u: Scope)
    requires |names| == 11 && StoreReady(names, lhs, rhs, output, extent, store, s)
    ensures VerifyOperations(LaneOperations(names, lhs, rhs, output, extent, store, t), s, slots) == Success(u)
    ensures Gains(s, u, Chosen(names, Count(extent)))
    ensures NoYield(LaneOperations(names, lhs, rhs, output, extent, store, t))
  {
    hide VerifyOperation, VerifyOperations, LanePrefix, StoreReady, LoopReady, Gains, Chosen;
    var prefix, loop, last := LanePrefix(names, lhs, output, extent, t),
        LaneLoop(names, lhs, rhs, BoundName(names, extent), t), LaneStore(names[9], lhs, rhs, output, store);
    var s1 := PrefixVerifies(names, lhs, rhs, output, extent, store, t, s, slots);
    LaneLoopVerifies(names, lhs, rhs, BoundName(names, extent), t, s1, false, slots);
    u := Scope(s1.visible[names[9] := t.scalar], s1.definitions + {names[5], names[6], names[7], names[8], names[9]});
    StoreOfLane(names, lhs, rhs, output, extent, store, s, s1, u, t);
    StoreVerifies(last, true, u, slots);
    hide LaneLoop, LaneStore;
    VerifyOne(last, u, u, slots);
    VerifyCons(loop, [last], s1, u, slots, Success(u));
    assert [loop] + [last] == [loop, last];
    VerifyThen(prefix, [loop, last], s, s1, slots);
    var chosen := Chosen(names, Count(extent));
    GainsThen(s, s1, u, chosen, chosen, chosen);
  }

  lemma {:induction false} StoreOfLane(names: seq<string>, lhs: string, rhs: string, output: string, extent: Extent,
          store: Operation, s: Scope, s1: Scope, u: Scope, t: LaneTypes)
    requires StoreReady(names, lhs, rhs, output, extent, store, s) && Gains(s, s1, Chosen(names, Count(extent)))
    requires LoopReady(names, lhs, rhs, BoundName(names, extent), t, s1)
    requires u == Scope(s1.visible[names[9] := t.scalar],
        s1.definitions + {names[5], names[6], names[7], names[8], names[9]})
    ensures var last := LaneStore(names[9], lhs, rhs, output, store);
            && (forall name :: name in References(last) ==> name in u.visible)
            && u.visible[output].kind in {PointerKind, TensorKind, ScalarKind}
    ensures Gains(s1, u, Chosen(names, Count(extent)))
    ensures !LaneLoop(names, lhs, rhs, BoundName(names, extent), t).opcode.Yield?
  {
    hide BoundName;
    var chosen := Chosen(names, Count(extent));
    assert names[5] in chosen && names[6] in chosen && names[7] in chosen && names[8] in chosen && names[9] in chosen;
    assert names[9] !in s1.visible;
  }
}
