/** Programs whose block arguments all have different names. The slicer's dictionary then has, for
    every block argument, the entry of its own loop. */
module DistinctArguments {
  import opened Wrappers
  import opened Ssa
  import opened Scoping
  import opened Slicing
  import opened SlicingCorrect
  import opened SliceTheorem

  // ----- block arguments -----

  /** The block arguments of operations in order, nested ones included. */
  ghost function ArgumentList(ops: seq<Operation>): seq<string>
    decreases ops, 0
  {
    if ops == [] then [] else RegionArgumentList(ops[0].regions) + ArgumentList(ops[1..])
  }

  ghost function RegionArgumentList(regions: seq<Block>): seq<string>
    decreases regions, 0
  {
    if regions == [] then []
    else Names(regions[0].args) + ArgumentList(regions[0].operations) + RegionArgumentList(regions[1..])
  }

  lemma {:induction false} ListedArguments(ops: seq<Operation>)
    ensures Elements(ArgumentList(ops)) == ArgNames(ops)
    decreases ops, 0
  {
    if ops != [] {
      ListedInRegions(ops[0].regions);
      ListedArguments(ops[1..]);
      ElementsConcat(RegionArgumentList(ops[0].regions), ArgumentList(ops[1..]));
    }
  }

  lemma {:induction false} ListedInRegions(regions: seq<Block>)
    ensures Elements(RegionArgumentList(regions)) == RegionArgNames(regions)
    decreases regions, 0
  {
    if regions != [] {
      NamesOf(regions[0].args);
      ListedArguments(regions[0].operations);
      ListedInRegions(regions[1..]);
      ElementsConcat(Names(regions[0].args) + ArgumentList(regions[0].operations), RegionArgumentList(regions[1..]));
      ElementsConcat(Names(regions[0].args), ArgumentList(regions[0].operations));
    }
  }

  lemma {:induction false} DistinctParts(a: seq<string>, b: seq<string>)
    requires Distinct(a + b)
    ensures Distinct(a) && Distinct(b) && Elements(a) !! Elements(b)
  {
    var ab := a + b;
    forall i, j | 0 <= i < |a| && 0 <= j < |b|
      ensures a[i] != b[j]
    {
      assert ab[i] != ab[|a| + j];
    }
    forall i, j | 0 <= i < j < |b|
      ensures b[i] != b[j]
    {
      assert ab[|a| + i] != ab[|a| + j];
    }
    forall i, j | 0 <= i < j < |a|
      ensures a[i] != a[j]
    {
      assert ab[i] != ab[j];
    }
  }

  // ----- own entries -----

  /** Every block argument has the entry of the operation that declares it. */
  ghost predicate Owns(args: map<string, Argument>, ops: seq<Operation>, path: Location, index: nat, depth: nat)
    decreases ops, 0
  {
    ops == [] ||
    (OwnsRegions(args, ops[0], ops[0].regions, 0, path + [index], InnerDepth(ops[0], depth))
        && Owns(args, ops[1..], path, index + 1, depth))
  }

  ghost predicate OwnsRegions(args: map<string, Argument>, op: Operation, regions: seq<Block>, r: nat, at: Location,
          depth: nat)
    decreases regions, 0
  {
    regions == [] ||
    (&& OwnsValues(args, op, regions[0].args, at, depth) && Owns(args, regions[0].operations, at + [r], 0, depth)
     && OwnsRegions(args, op, regions[1..], r + 1, at, depth))
  }

  ghost predicate OwnsValues(args: map<string, Argument>, op: Operation, values: seq<Value>, at: Location, depth: nat) {
    forall x :: x in NameSet(values) ==> x in args && args[x] == Argument(at, op, PositionOf(values, x), depth)
  }

  ghost predicate AgreeOn(names: set<string>, m: map<string, Argument>, n: map<string, Argument>) {
    forall x :: x in names && x in m ==> x in n && n[x] == m[x]
  }

  lemma {:induction false} OwnsStill(m: map<string, Argument>, n: map<string, Argument>, ops: seq<Operation>,
          path: Location, index: nat, depth: nat)
    requires Owns(m, ops, path, index, depth) && AgreeOn(ArgNames(ops), m, n)
    ensures Owns(n, ops, path, index, depth)
    decreases ops, 0
  {
    if ops != [] {
      OwnsRegionsStill(m, n, ops[0], ops[0].regions, 0, path + [index], InnerDepth(ops[0], depth));
      OwnsStill(m, n, ops[1..], path, index + 1, depth);
    }
  }

  lemma {:induction false} OwnsRegionsStill(m: map<string, Argument>, n: map<string, Argument>, op: Operation,
          regions: seq<Block>, r: nat, at: Location, depth: nat)
    requires OwnsRegions(m, op, regions, r, at, depth) && AgreeOn(RegionArgNames(regions), m, n)
    ensures OwnsRegions(n, op, regions, r, at, depth)
    decreases regions, 0
  {
    if regions != [] {
      OwnsStill(m, n, regions[0].operations, at + [r], 0, depth);
      OwnsRegionsStill(m, n, op, regions[1..], r + 1, at, depth);
    }
  }

  lemma {:induction false} DistinctOwn(ops: seq<Operation>, path: Location, index: nat, depth: nat)
    requires Distinct(ArgumentList(ops))
    ensures Owns(ArgumentsOf(ops, path, index, depth), ops, path, index, depth)
    decreases ops, 0
  {
    if ops != [] {
      var op, at, inner := ops[0], path + [index], InnerDepth(ops[0], depth);
      var first, rest := RegionArguments(op, op.regions, 0, at, inner), ArgumentsOf(ops[1..], path, index + 1, depth);
      DistinctParts(RegionArgumentList(op.regions), ArgumentList(ops[1..]));
      ListedInRegions(op.regions);
      ListedArguments(ops[1..]);
      DistinctOwnRegions(op, op.regions, 0, at, inner);
      DistinctOwn(ops[1..], path, index + 1, depth);
      ArgumentKeys(ops[1..], path, index + 1, depth);
      OwnsRegionsStill(first, first + rest, op, op.regions, 0, at, inner);
      OwnsStill(rest, first + rest, ops[1..], path, index + 1, depth);
    }
  }

  lemma {:induction false} DistinctOwnRegions(op: Operation, regions: seq<Block>, r: nat, at: Location, depth: nat)
    requires Distinct(RegionArgumentList(regions))
    ensures OwnsRegions(RegionArguments(op, regions, r, at, depth), op, regions, r, at, depth)
    decreases regions, 0
  {
    if regions != [] {
      var values, body := regions[0].args, regions[0].operations;
      var own, inner, rest := Declared(op, values, at, depth), ArgumentsOf(body, at + [r], 0, depth),
          RegionArguments(op, regions[1..], r + 1, at, depth);
      DistinctParts(Names(values) + ArgumentList(body), RegionArgumentList(regions[1..]));
      DistinctParts(Names(values), ArgumentList(body));
      NamesOf(values);
      ElementsConcat(Names(values), ArgumentList(body));
      ListedArguments(body);
      ListedInRegions(regions[1..]);
      DistinctOwn(body, at + [r], 0, depth);
      DistinctOwnRegions(op, regions[1..], r + 1, at, depth);
      ArgumentKeys(body, at + [r], 0, depth);
      RegionKeys(op, regions[1..], r + 1, at, depth);
      var all := own + inner + rest;
      OwnsStill(inner, all, body, at + [r], 0, depth);
      OwnsRegionsStill(rest, all, op, regions[1..], r + 1, at, depth);
    }
  }

  // ----- own entries fit -----

  /** Every enclosing loop has its own entries. */
  ghost predicate OwnAround(args: map<string, Argument>, enclosing: seq<Parent>)
    decreases |enclosing|
  {
    enclosing != [] ==>
      var q := enclosing[|enclosing| - 1];
      && (forall x :: Declares(q, x) ==> x in args && FitsAt(x, args[x], q))
      && OwnAround(args, enclosing[..|enclosing| - 1])
  }

  lemma {:induction false} OwnFits(x: string, args: map<string, Argument>, enclosing: seq<Parent>)
    requires OwnAround(args, enclosing)
    ensures Fits(x, args, enclosing)
    decreases |enclosing|
  {
    if enclosing != [] {
      OwnFits(x, args, enclosing[..|enclosing| - 1]);
    }
  }

  lemma {:induction false} OwnAroundSnoc(args: map<string, Argument>, enclosing: seq<Parent>, q: Parent)
    requires OwnAround(args, enclosing) && forall x :: Declares(q, x) ==> x in args && FitsAt(x, args[x], q)
    ensures OwnAround(args, enclosing + [q])
  {
    assert (enclosing + [q])[..|enclosing|] == enclosing;
  }

  lemma {:induction false} OwnedFit(args: map<string, Argument>, ops: seq<Operation>, path: Location, index: nat,
          enclosing: seq<Parent>, depth: nat, visible: set<string>)
    requires ScopedOperations(ops, visible) && Owns(args, ops, path, index, depth) && OwnAround(args, enclosing)
    ensures UsesFit(args, ops, path, index, enclosing, depth)
    decreases ops, 0
  {
    if ops != [] {
      var op, at := ops[0], path + [index];
      forall x | x in References(op)
        ensures Fits(x, args, enclosing)
      {
        OwnFits(x, args, enclosing);
      }
      OwnedRegionsFit(args, op, at, enclosing, depth, visible);
      hide ScopedOperation, OperationFits, OwnsRegions;
      OwnedFit(args, ops[1..], path, index + 1, enclosing, depth, visible + NameSet(op.results));
    }
  }

  lemma {:induction false} OwnedRegionsFit(args: map<string, Argument>, op: Operation, at: Location,
          enclosing: seq<Parent>, depth: nat, visible: set<string>)
    requires ScopedOperation(op, visible) && OwnAround(args, enclosing)
    requires OwnsRegions(args, op, op.regions, 0, at, InnerDepth(op, depth))
    ensures forall r :: 0 <= r < |op.regions| ==>
        UsesFit(args, op.regions[r].operations, at + [r], 0, enclosing + [Parent(at, op, InnerDepth(op, depth))],
            InnerDepth(op, depth))
    decreases op, 0
  {
    var inner := InnerDepth(op, depth);
    var q := Parent(at, op, inner);
    hide OwnsRegions, UsesFit, OwnAround, ScopedOperations;
    if op.opcode.For? {
      RegionOwned(args, op, op.regions, 0, at, inner, 0);
      LoopFits(args, op, at, inner, visible);
    }
    OwnAroundSnoc(args, enclosing, q);
    forall r | 0 <= r < |op.regions|
      ensures UsesFit(args, op.regions[r].operations, at + [r], 0, enclosing + [q], inner)
    {
      RegionOwned(args, op, op.regions, 0, at, inner, r);
      assert op.regions[r] in op.regions;
      assert ScopedBlock(op.regions[r], visible);
      OwnedFit(args, op.regions[r].operations, at + [r], 0, enclosing + [q], inner,
          visible + NameSet(op.regions[r].args));
    }
  }

  lemma {:induction false} LoopFits(args: map<string, Argument>, op: Operation, at: Location, depth: nat,
          visible: set<string>)
    requires op.opcode.For? && ScopedOperation(op, visible) && OwnsValues(args, op, op.regions[0].args, at, depth)
    ensures forall x :: Declares(Parent(at, op, depth), x) ==>
        x in args && FitsAt(x, args[x], Parent(at, op, depth))
  {
  }

  lemma {:induction false} RegionOwned(args: map<string, Argument>, op: Operation, regions: seq<Block>, r: nat,
          at: Location, depth: nat, k: nat)
    requires OwnsRegions(args, op, regions, r, at, depth) && k < |regions|
    ensures Owns(args, regions[k].operations, at + [r + k], 0, depth)
    ensures OwnsValues(args, op, regions[k].args, at, depth)
    decreases k
  {
    hide Owns, OwnsValues;
    if k > 0 {
      RegionOwned(args, op, regions[1..], r + 1, at, depth, k - 1);
      assert regions[1..][k - 1] == regions[k];
    }
  }

  /** If no two block arguments of a program share a name, every use has its own loop's entry. */
  lemma {:induction false} DistinctArgumentsFit(program: seq<Operation>, visible: set<string>)
    requires ScopedOperations(program, visible) && Distinct(ArgumentList(program))
    ensures UsesFit(Dictionary(program), program, [], 0, [], 0)
  {
    DistinctOwn(program, [], 0, 0);
    OwnedFit(Dictionary(program), program, [], 0, [], 0, visible);
  }
}
