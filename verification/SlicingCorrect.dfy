/** The slicer's tables follow the provenance of the names in scope. */
module SlicingCorrect {
  import opened Wrappers
  import opened Ssa
  import opened Scoping
  import opened Slicing

  // ----- the program's block arguments -----

  function InnerDepth(op: Operation, depth: nat): nat {
    depth + if op.opcode.For? then 1 else 0
  }

  predicate Declares(q: Parent, x: string) {
    q.op.opcode.For? && q.op.regions != [] && x in NameSet(q.op.regions[0].args)
  }

  /** The dictionary's entry for `x` serves the loop that declares it: it is that loop's own,
      or, for an induction value, one of a loop as deep with the same bounds. */
  predicate FitsAt(x: string, a: Argument, q: Parent)
    requires Declares(q, x)
  {
    && a.op.opcode.For? && a.depth == q.depth && |a.op.operands| >= a.position + 3 && |q.op.operands| >= 3
    && if PositionOf(q.op.regions[0].args, x) == 0 then a.position == 0 && a.op.operands[..3] == q.op.operands[..3]
       else a == Argument(q.location, q.op, PositionOf(q.op.regions[0].args, x), q.depth)
  }

  /** An enclosing loop binds the name. */
  predicate DeclaredIn(x: string, enclosing: seq<Parent>)
    decreases |enclosing|
  {
    enclosing != [] &&
    (Declares(enclosing[|enclosing| - 1], x) || DeclaredIn(x, enclosing[..|enclosing| - 1]))
  }

  /** A name that no enclosing loop binds, or whose innermost such loop its entry serves. */
  predicate Fits(x: string, args: map<string, Argument>, enclosing: seq<Parent>)
    decreases |enclosing|
  {
    enclosing != [] ==>
      var q := enclosing[|enclosing| - 1];
      if Declares(q, x) then x in args && FitsAt(x, args[x], q) else Fits(x, args, enclosing[..|enclosing| - 1])
  }

  lemma {:induction false} FitsSnoc(x: string, args: map<string, Argument>, enclosing: seq<Parent>, q: Parent)
    ensures Fits(x, args, enclosing + [q]) <==>
        if Declares(q, x) then x in args && FitsAt(x, args[x], q) else Fits(x, args, enclosing)
    ensures DeclaredIn(x, enclosing + [q]) <==> Declares(q, x) || DeclaredIn(x, enclosing)
  {
    assert (enclosing + [q])[..|enclosing|] == enclosing;
  }

  /** Every name that these operations use, nested ones included, fits. */
  predicate UsesFit(args: map<string, Argument>, ops: seq<Operation>, path: Location, index: nat,
          enclosing: seq<Parent>, depth: nat)
    decreases ops, 0
  {
    ops == [] || (OperationFits(args, ops[0], path + [index], enclosing, depth)
        && UsesFit(args, ops[1..], path, index + 1, enclosing, depth))
  }

  predicate OperationFits(args: map<string, Argument>, op: Operation, at: Location, enclosing: seq<Parent>, depth: nat)
    decreases op, 0
  {
    && (forall name :: name in References(op) ==> Fits(name, args, enclosing))
    && forall r :: 0 <= r < |op.regions| ==>
         UsesFit(args, op.regions[r].operations, at + [r], 0, enclosing + [Parent(at, op, InnerDepth(op, depth))],
             InnerDepth(op, depth))
  }

  /** The block arguments of operations, nested ones included. */
  function ArgNames(ops: seq<Operation>): set<string>
    decreases ops, 0
  {
    if ops == [] then {} else RegionArgNames(ops[0].regions) + ArgNames(ops[1..])
  }

  function RegionArgNames(regions: seq<Block>): set<string>
    decreases regions, 0
  {
    if regions == [] then {}
        else NameSet(regions[0].args) + ArgNames(regions[0].operations) + RegionArgNames(regions[1..])
  }

  /** The results of operations, nested ones included. */
  ghost function Defines(ops: seq<Operation>): set<string> {
    Elements(ResultNames(ops))
  }

  ghost function RegionDefines(regions: seq<Block>): set<string> {
    Elements(RegionResultNames(regions))
  }

  /** No operation, nested ones included, defines the name of a block argument bound after it. */
  ghost predicate ArgsFirst(ops: seq<Operation>)
    decreases ops, 0
  {
    ops == [] ||
    (&& OperationArgsFirst(ops[0]) && ArgsFirst(ops[1..])
     && NameSet(ops[0].results) + RegionDefines(ops[0].regions) !! ArgNames(ops[1..]))
  }

  ghost predicate OperationArgsFirst(op: Operation)
    decreases op, 0
  {
    forall r :: 0 <= r < |op.regions| ==> ArgsFirst(op.regions[r].operations)
  }

  lemma {:induction false} DefinesCons(ops: seq<Operation>)
    requires ops != []
    ensures Defines(ops) == NameSet(ops[0].results) + RegionDefines(ops[0].regions) + Defines(ops[1..])
  {
    NamesOf(ops[0].results);
    hide ResultNames, RegionResultNames;
    assert ResultNames(ops) == Names(ops[0].results) + RegionResultNames(ops[0].regions) + ResultNames(ops[1..]) by {
      ResultNamesCons(ops);
    }
  }

  lemma {:induction false} ResultNamesCons(ops: seq<Operation>)
    requires ops != []
    ensures ResultNames(ops) == Names(ops[0].results) + RegionResultNames(ops[0].regions) + ResultNames(ops[1..])
  {
  }

  lemma {:induction false} RegionDefinesAt(regions: seq<Block>, r: nat)
    requires r < |regions|
    ensures Defines(regions[r].operations) <= RegionDefines(regions)
    decreases r
  {
    if r > 0 {
      RegionDefinesAt(regions[1..], r - 1);
    }
  }

  /** What operations define is not visible where they stand. */
  lemma {:induction false} DefinesOutside(ops: seq<Operation>, names: set<string>, outer: set<string>)
    requires ScopedOperations(ops, names) && outer <= names
    ensures Defines(ops) !! outer
    decreases ops, 0
  {
    if ops != [] {
      RegionsOutside(ops[0].regions, names, outer);
      DefinesOutside(ops[1..], names + NameSet(ops[0].results), outer);
      DefinesCons(ops);
    }
  }

  lemma {:induction false} RegionsOutside(regions: seq<Block>, names: set<string>, outer: set<string>)
    requires (forall region :: region in regions ==> ScopedBlock(region, names)) && outer <= names
    ensures RegionDefines(regions) !! outer
    decreases regions, 0
  {
    if regions != [] {
      assert ScopedBlock(regions[0], names);
      DefinesOutside(regions[0].operations, names + NameSet(regions[0].args), outer);
      RegionsOutside(regions[1..], names, outer);
      assert RegionDefines(regions) == Defines(regions[0].operations) + RegionDefines(regions[1..]);
    }
  }

  // ----- the invariant -----

  /** The iteration stacks belong to different rounds of some loop. */
  ghost predicate Diverge(a: seq<int>, b: seq<int>) {
    exists i :: 0 <= i < |a| && i < |b| && a[i] != b[i]
  }

  lemma {:induction false} DivergeExtends(a: seq<int>, b: seq<int>, c: seq<int>)
    requires Diverge(a, b) && Prefix(b, c)
    ensures Diverge(a, c) && !Prefix(a, c)
  {
    var i :| 0 <= i < |a| && i < |b| && a[i] != b[i];
    assert c[i] == c[..|b|][i] == b[i];
    assert |a| <= |c| ==> c[..|a|][i] == c[i];
  }

  /** Whatever was filed under the name belongs to other rounds. */
  ghost predicate Undefined(t: Tables, key: nat, x: string, iteration: seq<int>) {
    (key, x) in t.defs ==> Diverge(t.defs[(key, x)].iteration, iteration)
  }

  ghost predicate Ahead(t: Tables, names: set<string>, key: nat, iteration: seq<int>) {
    forall x :: x in names ==> Undefined(t, key, x, iteration)
  }

  lemma {:induction false} StillAhead(t: Tables, names: set<string>, key: nat, iteration: seq<int>, more: set<string>,
          longer: seq<int>)
    requires Ahead(t, more, key, iteration) && names <= more && Prefix(iteration, longer)
    ensures Ahead(t, names, key, longer)
  {
    forall x | x in names
      ensures Undefined(t, key, x, longer)
    {
      assert Undefined(t, key, x, iteration);
      if (key, x) in t.defs {
        DivergeExtends(t.defs[(key, x)].iteration, iteration, longer);
      }
    }
  }

  /** An operand that the slicer follows next from an argument at some depth. */
  ghost predicate Lower(o: string, depth: nat, p: Prov, b: Instance, args: map<string, Argument>) {
    o in p && Fits(o, args, b.enclosing) && (DeclaredIn(o, b.enclosing) ==> o in args && args[o].depth < depth)
  }

  /** What the tables say about a block argument in scope. */
  ghost predicate ArgumentRight(x: string, p: Prov, t: Tables, b: Instance, args: map<string, Argument>)
    requires x in p
  {
    && x in args && Undefined(t, b.key, x, b.iteration)
    && var a := args[x];
    && a.op.opcode.For? && 1 <= a.depth <= |b.iteration| && |a.op.operands| >= a.position + 3
    && if a.position == 0 then
         (forall j :: 0 <= j < 3 ==> Lower(a.op.operands[j], a.depth, p, b, args))
             && p[x] == ProvAll(p, a.op.operands[..3])
       else
         && |a.location| < |b.path| && Lower(a.op.operands[a.position + 2], a.depth, p, b, args)
         && var k := (b.key, a.location, b.iteration[..a.depth - 1]);
            p[x] == if k in t.lastYields then {t.lastYields[k]} else p[a.op.operands[a.position + 2]]
  }

  ghost predicate NameRight(x: string, p: Prov, t: Tables, b: Instance, args: map<string, Argument>)
    requires x in p
  {
    if DeclaredIn(x, b.enclosing) then Fits(x, args, b.enclosing) ==> ArgumentRight(x, p, t, b, args)
    else if (b.key, x) in t.defs then p[x] == {t.defs[(b.key, x)].index}
        && Prefix(t.defs[(b.key, x)].iteration, b.iteration)
    else p[x] == {} && x !in args
  }

  /** Every name that an enclosing loop binds is in scope. */
  ghost predicate Binds(p: Prov, enclosing: seq<Parent>) {
    forall x :: DeclaredIn(x, enclosing) ==> x in p
  }

  /** Every name in scope that fits resolves to where its value came from. */
  ghost predicate Follows(p: Prov, t: Tables, b: Instance, args: map<string, Argument>) {
    Binds(p, b.enclosing) && forall x :: x in p ==> NameRight(x, p, t, b, args)
  }

  // ----- resolving under the invariant -----

  ghost predicate Outside(seen: set<string>, x: string, args: map<string, Argument>, enclosing: seq<Parent>) {
    x !in seen && forall s :: s in seen ==>
        DeclaredIn(s, enclosing) && s in args
        && (DeclaredIn(x, enclosing) ==> x in args && args[x].depth < args[s].depth)
  }

  ghost function DepthOf(x: string, args: map<string, Argument>, enclosing: seq<Parent>): nat {
    if DeclaredIn(x, enclosing) && x in args then args[x].depth + 1 else 0
  }

  /** The slicer resolves a name in scope to exactly the events its value came from. */
  lemma {:induction false} ResolveRight(x: string, seen: set<string>, p: Prov, t: Tables, b: Instance,
          args: map<string, Argument>)
    requires Follows(p, t, b, args) && x in p && Fits(x, args, b.enclosing) && Outside(seen, x, args, b.enclosing)
    ensures Resolve(x, seen, args, t, b.key, b.iteration) == p[x]
    decreases DepthOf(x, args, b.enclosing), 0, 0
  {
    hide Fits, DeclaredIn, Binds;
    assert NameRight(x, p, t, b, args);
    if DeclaredIn(x, b.enclosing) {
      var a := args[x];
      if a.position == 0 {
        assert forall j :: 0 <= j < 3 ==> a.op.operands[..3][j] == a.op.operands[j];
        ResolveAllRight(a.op.operands[..3], seen + {x}, a.depth, p, t, b, args);
      } else if (b.key, a.location, b.iteration[..a.depth - 1]) !in t.lastYields {
        ResolveRight(a.op.operands[a.position + 2], seen + {x}, p, t, b, args);
      }
    }
  }

  lemma {:induction false} ResolveAllRight(names: seq<string>, seen: set<string>, depth: nat, p: Prov, t: Tables,
          b: Instance, args: map<string, Argument>)
    requires Follows(p, t, b, args)
    requires forall s :: s in seen ==> DeclaredIn(s, b.enclosing) && s in args && args[s].depth >= depth
    requires forall i :: 0 <= i < |names| ==> Lower(names[i], depth, p, b, args)
    ensures ResolveAll(names, seen, args, t, b.key, b.iteration) == ProvAll(p, names)
    decreases depth, 1, |names|
  {
    hide Fits, DeclaredIn, Follows;
    if names != [] {
      assert Lower(names[0], depth, p, b, args);
      assert Outside(seen, names[0], args, b.enclosing);
      ResolveRight(names[0], seen, p, t, b, args);
      ResolveAllRight(names[1..], seen, depth, p, t, b, args);
    }
  }

  ghost predicate InScope(name: string, p: Prov, args: map<string, Argument>, enclosing: seq<Parent>) {
    name in p && Fits(name, args, enclosing)
  }

  lemma {:induction false} ResolveNames(names: seq<string>, p: Prov, t: Tables, b: Instance,
          args: map<string, Argument>)
    requires Follows(p, t, b, args) && forall i :: 0 <= i < |names| ==> InScope(names[i], p, args, b.enclosing)
    ensures ResolveAll(names, {}, args, t, b.key, b.iteration) == ProvAll(p, names)
  {
    hide Follows;
    if names != [] {
      assert InScope(names[0], p, args, b.enclosing);
      ResolveRight(names[0], {}, p, t, b, args);
      ResolveNames(names[1..], p, t, b, args);
    }
  }

  // ----- which table entries an execution may change -----

  /** The location is at or after operation `index` of the block at `path`. */
  predicate Below(l: Location, path: Location, index: nat) {
    |l| > |path| && l[..|path|] == path && l[|path|] >= index
  }

  predicate OwnYield(k: (nat, Location, seq<int>), b: Instance, index: nat) {
    k.0 == b.key && Below(k.1, b.path, index) && Prefix(b.iteration, k.2)
  }

  /** Nothing from here on has been filed for this instance of the block. */
  ghost predicate FreshYields(t: Tables, b: Instance, index: nat) {
    forall k :: k in t.lastYields ==> !OwnYield(k, b, index)
  }

  predicate ParentYield(k: (nat, Location, seq<int>), b: Instance) {
    b.enclosing != [] && k == YieldKey(b.key, b.enclosing[|b.enclosing| - 1], b.iteration)
  }

  ghost predicate SameDef(t: Tables, u: Tables, k: (nat, string)) {
    (k in t.defs <==> k in u.defs) && (k in t.defs ==> u.defs[k] == t.defs[k])
  }

  /** Only the given results have been filed, under this instance's iteration or a longer one. */
  ghost predicate DefsWithin(t: Tables, u: Tables, b: Instance, results: set<string>) {
    forall k: (nat, string) :: SameDef(t, u, k) ||
      (k.0 == b.key && k.1 in results && k in u.defs && Prefix(b.iteration, u.defs[k].iteration))
  }

  ghost predicate SameYields(t: Tables, u: Tables, b: Instance, index: nat, yielded: bool) {
    forall k :: !OwnYield(k, b, index) && !(yielded && ParentYield(k, b)) ==>
        (k in t.lastYields <==> k in u.lastYields) && (k in t.lastYields ==> u.lastYields[k] == t.lastYields[k])
  }

  /** The last yield of the region that operation `index` owns. */
  function RegionKey(b: Instance, index: nat): (nat, Location, seq<int>) {
    (b.key, b.path + [index], b.iteration)
  }

  lemma {:induction false} DefsThen(t: Tables, u: Tables, v: Tables, b: Instance, first: set<string>, more: set<string>)
    requires DefsWithin(t, u, b, first) && DefsWithin(u, v, b, more)
    ensures DefsWithin(t, v, b, first + more)
  {
    forall k: (nat, string)
      ensures SameDef(t, v, k) ||
          (k.0 == b.key && k.1 in first + more && k in v.defs && Prefix(b.iteration, v.defs[k].iteration))
    {
      assert SameDef(t, u, k) || k.1 in first;
      assert SameDef(u, v, k) || k.1 in more;
    }
  }

  lemma {:induction false} DefsWiden(t: Tables, u: Tables, b: Instance, results: set<string>, more: set<string>)
    requires DefsWithin(t, u, b, results) && results <= more
    ensures DefsWithin(t, u, b, more)
  {
    forall k: (nat, string)
      ensures SameDef(t, u, k) ||
          (k.0 == b.key && k.1 in more && k in u.defs && Prefix(b.iteration, u.defs[k].iteration))
    {
      assert SameDef(t, u, k) || k.1 in results;
    }
  }

  /** Names that are not among the results keep their standing. */
  lemma {:induction false} AheadKept(t: Tables, u: Tables, b: Instance, results: set<string>, names: set<string>,
          iteration: seq<int>)
    requires DefsWithin(t, u, b, results) && results !! names && Ahead(t, names, b.key, iteration)
    ensures Ahead(u, names, b.key, iteration)
  {
    forall x | x in names
      ensures Undefined(u, b.key, x, iteration)
    {
      assert Undefined(t, b.key, x, iteration);
      assert SameDef(t, u, (b.key, x));
    }
  }

  /** Names in scope resolve as before when only deeper entries have changed. */
  lemma {:induction false} StillFollows(p: Prov, t: Tables, u: Tables, b: Instance, index: nat,
          args: map<string, Argument>, results: set<string>)
    requires Follows(p, t, b, args) && DefsWithin(t, u, b, results) && results !! p.Keys
    requires SameYields(t, u, b, index, false)
    ensures Follows(p, u, b, args)
  {
    hide Fits, DeclaredIn, Binds;
    forall x | x in p
      ensures NameRight(x, p, u, b, args)
    {
      assert NameRight(x, p, t, b, args);
      assert SameDef(t, u, (b.key, x));
      if DeclaredIn(x, b.enclosing) && Fits(x, args, b.enclosing) && args[x].position > 0 {
        var a := args[x];
        var k := (b.key, a.location, b.iteration[..a.depth - 1]);
        assert !OwnYield(k, b, index);
      }
    }
  }

  // ----- where an event is -----

  ghost predicate Located(program: seq<Operation>, all: seq<Operation>, b: Instance) {
    forall rest: seq<nat> :: rest != [] ==>
        Parents(program, b.path + rest) == ParentsAt(all, b.path, rest, |b.iteration|, b.enclosing)
  }

  lemma {:induction false} ParentsHere(program: seq<Operation>, all: seq<Operation>, b: Instance, index: nat)
    requires Located(program, all, b)
    ensures Parents(program, b.path + [index]) == b.enclosing
  {
    var rest: seq<nat> := [index];
    assert ParentsAt(all, b.path, rest, |b.iteration|, b.enclosing) == b.enclosing;
  }

  lemma {:induction false} LocatedInside(program: seq<Operation>, all: seq<Operation>, b: Instance, index: nat,
          region: nat, inner: Instance)
    requires Located(program, all, b) && index < |all| && region < |all[index].regions|
    requires inner.path == b.path + [index, region] && |inner.iteration| == InnerDepth(all[index], |b.iteration|)
    requires inner.enclosing == b.enclosing + [Parent(b.path + [index], all[index], |inner.iteration|)]
    ensures Located(program, all[index].regions[region].operations, inner)
  {
    var ops := all[index].regions[region].operations;
    forall rest: seq<nat> | rest != []
      ensures Parents(program, inner.path + rest) ==
          ParentsAt(ops, inner.path, rest, |inner.iteration|, inner.enclosing)
    {
      var whole: seq<nat> := [index, region] + rest;
      assert b.path + whole == inner.path + rest;
      assert whole[2..] == rest;
      assert ParentsAt(all, b.path, whole, |b.iteration|, b.enclosing) ==
          ParentsAt(ops, b.path + [whole[0], whole[1]], rest, |inner.iteration|, inner.enclosing);
    }
  }

  ghost predicate ControlInScope(enclosing: seq<Parent>, p: Prov, args: map<string, Argument>) {
    forall i :: 0 <= i < |ControlNames(enclosing)| ==> InScope(ControlNames(enclosing)[i], p, args, enclosing)
  }

  /** Entering a region leaves the names of the enclosing scope bound and fitting as they were. */
  ghost predicate SameFits(p: Prov, args: map<string, Argument>, outer: seq<Parent>, inner: seq<Parent>) {
    forall x :: x in p ==>
        (Fits(x, args, outer) <==> Fits(x, args, inner)) && (DeclaredIn(x, outer) <==> DeclaredIn(x, inner))
  }

  lemma {:induction false} FitsInside(p: Prov, args: map<string, Argument>, enclosing: seq<Parent>, q: Parent)
    requires forall x :: x in p ==> !Declares(q, x)
    ensures SameFits(p, args, enclosing, enclosing + [q])
  {
    forall x | x in p
      ensures Fits(x, args, enclosing) <==> Fits(x, args, enclosing + [q])
      ensures DeclaredIn(x, enclosing) <==> DeclaredIn(x, enclosing + [q])
    {
      FitsSnoc(x, args, enclosing, q);
    }
  }

  /** Inside a region every bound name is in scope, if the region's own arguments are. */
  lemma {:induction false} BindsInside(p: Prov, q: Prov, args: map<string, Argument>, enclosing: seq<Parent>,
          own: Parent)
    requires Binds(p, enclosing) && p.Keys <= q.Keys && forall x :: Declares(own, x) ==> x in q
    ensures Binds(q, enclosing + [own])
  {
    forall x | DeclaredIn(x, enclosing + [own])
      ensures x in q
    {
      FitsSnoc(x, args, enclosing, own);
    }
  }

  lemma {:induction false} ControlSnoc(enclosing: seq<Parent>, q: Parent)
    ensures ControlNames(enclosing + [q]) == ControlNames(enclosing)
        + (if q.op.opcode.For? then Take(q.op.operands, 3) else Take(q.op.operands, 1))
  {
    if enclosing == [] {
      assert enclosing + [q] == [q] && [q][1..] == [];
      assert ControlNames([q][1..]) == [];
    } else {
      assert (enclosing + [q])[0] == enclosing[0] && (enclosing + [q])[1..] == enclosing[1..] + [q];
      ControlSnoc(enclosing[1..], q);
    }
  }

  lemma {:induction false} ControlInside(enclosing: seq<Parent>, q: Parent, p: Prov, inner: Prov,
          args: map<string, Argument>)
    requires ControlInScope(enclosing, p, args) && p.Keys <= inner.Keys && SameFits(p, args, enclosing, enclosing + [q])
    requires forall name :: name in q.op.operands ==> InScope(name, p, args, enclosing)
    ensures ControlInScope(enclosing + [q], inner, args)
  {
    hide Fits;
    ControlSnoc(enclosing, q);
    var tail := if q.op.opcode.For? then Take(q.op.operands, 3) else Take(q.op.operands, 1);
    var all := ControlNames(enclosing + [q]);
    forall i | 0 <= i < |all|
      ensures InScope(all[i], inner, args, enclosing + [q])
    {
      if i < |ControlNames(enclosing)| {
        assert InScope(ControlNames(enclosing)[i], p, args, enclosing);
      } else {
        assert all[i] == tail[i - |ControlNames(enclosing)|] && all[i] in q.op.operands;
        assert InScope(all[i], p, args, enclosing);
      }
    }
  }

  // ----- entering a round of a loop -----

  lemma {:induction false} ProvSame(p: Prov, q: Prov, names: seq<string>)
    requires forall i :: 0 <= i < |names| ==> names[i] in p && names[i] in q && q[names[i]] == p[names[i]]
    ensures ProvAll(q, names) == ProvAll(p, names)
  {
    if names != [] {
      ProvSame(p, q, names[1..]);
    }
  }

  /** The yields filed for the region of operation `index` are those of the rounds before. */
  ghost predicate LastIs(t: Tables, b: Instance, index: nat, last: Option<nat>) {
    if last.Some? then RegionKey(b, index) in t.lastYields && t.lastYields[RegionKey(b, index)] == last.value
        else RegionKey(b, index) !in t.lastYields
  }

  lemma {:induction false} PositionUnique(args: seq<Value>, i: nat)
    requires i < |args| && DistinctNames(args)
    ensures args[i].name in NameSet(args) && PositionOf(args, args[i].name) == i
  {
    assert args[i] in args;
    assert i > 0 ==> args[0].name != args[i].name;
    if i > 0 {
      PositionUnique(args[1..], i - 1);
    }
  }

  /** Inside a round the names of the enclosing block keep their origins. */
  lemma {:induction false} OuterName(x: string, p: Prov, q: Prov, t: Tables, b: Instance, inner: Instance,
          args: map<string, Argument>)
    requires Follows(p, t, b, args) && x in p && p.Keys <= q.Keys && (forall y :: y in p ==> q[y] == p[y])
    requires SameFits(p, args, b.enclosing, inner.enclosing)
    requires inner.key == b.key && |b.path| <= |inner.path| && Prefix(b.iteration, inner.iteration)
    ensures NameRight(x, q, t, inner, args)
  {
    hide Fits, DeclaredIn, Binds;
    assert NameRight(x, p, t, b, args);
    if DeclaredIn(x, b.enclosing) {
      if Fits(x, args, b.enclosing) {
        OuterArgument(x, p, q, t, b, inner, args);
      }
    } else if (b.key, x) in t.defs {
      PrefixTrans(t.defs[(b.key, x)].iteration, b.iteration, inner.iteration);
    }
  }

  lemma {:induction false} OuterArgument(x: string, p: Prov, q: Prov, t: Tables, b: Instance, inner: Instance,
          args: map<string, Argument>)
    requires x in p && ArgumentRight(x, p, t, b, args) && p.Keys <= q.Keys
    requires (forall y :: y in p ==> q[y] == p[y])
    requires SameFits(p, args, b.enclosing, inner.enclosing) && inner.key == b.key && |b.path| <= |inner.path|
    requires Prefix(b.iteration, inner.iteration)
    ensures ArgumentRight(x, q, t, inner, args)
  {
    hide Fits, DeclaredIn;
    var a := args[x];
    if (b.key, x) in t.defs {
      DivergeExtends(t.defs[(b.key, x)].iteration, b.iteration, inner.iteration);
    }
    hide Diverge;
    assert inner.iteration[..a.depth - 1] == b.iteration[..a.depth - 1];
    if a.position == 0 {
      var names := a.op.operands[..3];
      forall j | 0 <= j < 3
        ensures names[j] in p && Lower(a.op.operands[j], a.depth, q, inner, args)
      {
        assert Lower(a.op.operands[j], a.depth, p, b, args);
      }
      ProvSame(p, q, names);
    } else {
      assert Lower(a.op.operands[a.position + 2], a.depth, p, b, args);
    }
  }

  lemma {:induction false} PrefixTrans(a: seq<int>, b: seq<int>, c: seq<int>)
    requires Prefix(a, b) && Prefix(b, c)
    ensures Prefix(a, c)
  {
    assert c[..|a|] == c[..|b|][..|a|];
  }

  /** A loop operation with its region, as accepted programs have it. */
  ghost predicate LoopShape(op: Operation, visible: set<string>) {
    op.opcode.For? && ScopedOperation(op, visible) && op.regions != []
  }

  /** Entering a round leaves the loop's operands as they were. */
  lemma {:induction false} OperandsKept(op: Operation, p: Prov, t: Tables, b: Instance, last: Option<nat>,
          args: map<string, Argument>)
    requires LoopShape(op, p.Keys) && Follows(p, t, b, args)
    requires forall name :: name in References(op) ==> Fits(name, args, b.enclosing)
    ensures |op.operands| == |op.regions[0].args| + 2 && |op.regions[0].args| > 0 && DistinctNames(op.regions[0].args)
    ensures NameSet(op.regions[0].args) !! p.Keys
    ensures ScopedOperations(op.regions[0].operations, p.Keys + NameSet(op.regions[0].args))
    ensures forall o :: o in op.operands ==>
        o in p && o in RoundProv(p, op, last) && RoundProv(p, op, last)[o] == p[o]
        && (DeclaredIn(o, b.enclosing) ==> o in args && args[o].depth < |b.iteration| + 1)
    ensures RoundProv(p, op, last).Keys == p.Keys + NameSet(op.regions[0].args)
    ensures forall y :: y in p ==> RoundProv(p, op, last)[y] == p[y]
    ensures ProvAll(RoundProv(p, op, last), op.operands[..3]) == ProvAll(p, op.operands[..3])
    ensures Take(op.operands, 3) == op.operands[..3]
  {
    hide Fits, DeclaredIn, Binds;
    var q, region := RoundProv(p, op, last), op.regions[0];
    assert region in op.regions && ScopedBlock(region, p.Keys);
    assert q.Keys == p.Keys + NameSet(region.args);
    forall o | o in op.operands
      ensures o in p && o in q && q[o] == p[o]
      ensures DeclaredIn(o, b.enclosing) ==> o in args && args[o].depth < |b.iteration| + 1
    {
      assert o in References(op);
      assert o !in NameSet(region.args);
      assert NameRight(o, p, t, b, args);
    }
    var names := op.operands[..3];
    assert forall j :: 0 <= j < 3 ==> names[j] in op.operands;
    ProvSame(p, q, names);
  }

  /** The arguments of a round come from the bounds, the initial operands or the last yield. */
  lemma {:induction false} ArgumentName(i: nat, op: Operation, p: Prov, t: Tables, b: Instance, index: nat, value: int,
          last: Option<nat>, args: map<string, Argument>)
    requires LoopShape(op, p.Keys) && i < |op.regions[0].args| && Follows(p, t, b, args) && LastIs(t, b, index, last)
    requires Undefined(t, b.key, op.regions[0].args[i].name, b.iteration + [value])
    requires forall name :: name in References(op) ==> Fits(name, args, b.enclosing)
    requires op.regions[0].args[i].name in args
    ensures op.regions[0].args[i].name in RoundProv(p, op, last)
    ensures NameRight(op.regions[0].args[i].name, RoundProv(p, op, last), t, InLoop(b, index, op, value), args)
  {
    var x, q, inner := op.regions[0].args[i].name, RoundProv(p, op, last), InLoop(b, index, op, value);
    OperandsKept(op, p, t, b, last, args);
    PositionUnique(op.regions[0].args, i);
    var own := Parent(b.path + [index], op, |b.iteration| + 1);
    assert inner.enclosing == b.enclosing + [own] && Declares(own, x);
    FitsSnoc(x, args, b.enclosing, own);
    OperandsFit(op, p, args, b.enclosing, own);
    hide Follows, LastIs, Undefined, RoundProv, NameRight, ScopedOperation, ScopedOperations, Take, ProvAll,
        DistinctNames, Fits, DeclaredIn;
    RoundProvAt(op, p, last, i);
    assert inner.iteration[..|b.iteration|] == b.iteration;
    ArgumentOfLoop(i, op, p, q, t, b, inner, index, last, args);
  }

  lemma {:induction false} OperandsFit(op: Operation, p: Prov, args: map<string, Argument>, enclosing: seq<Parent>,
          own: Parent)
    requires own.op == op && op.regions != [] && NameSet(op.regions[0].args) !! p.Keys
    requires forall o :: o in op.operands ==> o in p
    requires forall name :: name in References(op) ==> Fits(name, args, enclosing)
    ensures SameFits(p, args, enclosing, enclosing + [own])
    ensures forall o :: o in op.operands ==>
        Fits(o, args, enclosing + [own]) && (DeclaredIn(o, enclosing + [own]) <==> DeclaredIn(o, enclosing))
  {
    FitsInside(p, args, enclosing, own);
    assert forall o :: o in op.operands ==> o in References(op);
  }

  lemma {:induction false} RoundProvAt(op: Operation, p: Prov, last: Option<nat>, i: nat)
    requires op.regions != [] && i < |op.regions[0].args| && DistinctNames(op.regions[0].args) && i + 2 < |op.operands|
    ensures var x := op.regions[0].args[i].name;
            x in RoundProv(p, op, last) && RoundProv(p, op, last)[x] == if i == 0 then ProvAll(p, Take(op.operands, 3))
                else if last.Some? then {last.value} else ProvOf(p, op.operands[i + 2])
  {
    PositionUnique(op.regions[0].args, i);
    hide ProvAll, Take, ProvOf;
  }

  lemma {:induction false} ArgumentOfLoop(i: nat, op: Operation, p: Prov, q: Prov, t: Tables, b: Instance,
          inner: Instance, index: nat, last: Option<nat>, args: map<string, Argument>)
    requires op.opcode.For? && op.regions != [] && i < |op.regions[0].args| && |op.operands| == |op.regions[0].args| + 2
    requires LastIs(t, b, index, last) && Undefined(t, b.key, op.regions[0].args[i].name, inner.iteration)
    requires inner.key == b.key && |inner.path| == |b.path| + 2 && |inner.iteration| == |b.iteration| + 1
    requires inner.iteration[..|b.iteration|] == b.iteration
    requires forall o :: o in op.operands ==>
        o in p && o in q && q[o] == p[o] && Fits(o, args, inner.enclosing)
        && (DeclaredIn(o, inner.enclosing) ==> o in args && args[o].depth < |b.iteration| + 1)
    requires ProvAll(q, op.operands[..3]) == ProvAll(p, op.operands[..3]) && Take(op.operands, 3) == op.operands[..3]
    requires var x := op.regions[0].args[i].name;
             && x in q
             && q[x] == (if i == 0 then ProvAll(p, Take(op.operands, 3)) else if last.Some? then {last.value}
                 else ProvOf(p, op.operands[i + 2]))
             && x in args && x in NameSet(op.regions[0].args) && PositionOf(op.regions[0].args, x) == i
             && DeclaredIn(x, inner.enclosing)
             && (Fits(x, args, inner.enclosing) ==> FitsAt(x, args[x], Parent(b.path + [index], op, |b.iteration| + 1)))
    ensures NameRight(op.regions[0].args[i].name, q, t, inner, args)
  {
    hide Take, ProvAll, Fits, DeclaredIn, Undefined;
    var x := op.regions[0].args[i].name;
    if Fits(x, args, inner.enclosing) {
      var a := args[x];
      if i > 0 {
        assert op.operands[i + 2] in op.operands;
      } else {
        forall j | 0 <= j < 3
          ensures Lower(a.op.operands[j], a.depth, q, inner, args)
        {
          assert a.op.operands[..3][j] == op.operands[..3][j];
          assert op.operands[j] in op.operands;
        }
      }
    }
  }

  /** The dictionary has an entry for each argument of the loop. */
  predicate ArgumentsEntered(args: map<string, Argument>, op: Operation) {
    op.regions != [] ==> forall v :: v in op.regions[0].args ==> v.name in args
  }

  lemma {:induction false} RoundKeeps(op: Operation, p: Prov, last: Option<nat>)
    requires op.regions != [] && NameSet(op.regions[0].args) !! p.Keys
    ensures forall y :: y in p ==> RoundProv(p, op, last)[y] == p[y]
  {
  }

  lemma {:induction false} RoundFollows(op: Operation, p: Prov, t: Tables, b: Instance, index: nat, value: int,
          last: Option<nat>, args: map<string, Argument>)
    requires LoopShape(op, p.Keys) && Follows(p, t, b, args) && LastIs(t, b, index, last)
    requires Ahead(t, NameSet(op.regions[0].args), b.key, b.iteration + [value])
    requires ArgumentsEntered(args, op) && forall name :: name in References(op) ==> Fits(name, args, b.enclosing)
    ensures Follows(RoundProv(p, op, last), t, InLoop(b, index, op, value), args)
    ensures SameFits(p, args, b.enclosing, InLoop(b, index, op, value).enclosing)
    ensures RoundProv(p, op, last).Keys == p.Keys + NameSet(op.regions[0].args)
    ensures ScopedOperations(op.regions[0].operations, RoundProv(p, op, last).Keys)
  {
    hide NameSet, Shaped;
    var q, inner, region := RoundProv(p, op, last), InLoop(b, index, op, value), op.regions[0];
    assert ScopedBlock(region, p.Keys);
    assert q.Keys == p.Keys + NameSet(region.args);
    var own := Parent(b.path + [index], op, |b.iteration| + 1);
    FitsInside(p, args, b.enclosing, own);
    BindsInside(p, q, args, b.enclosing, own);
    RoundKeeps(op, p, last);
    hide Fits, SameFits, RoundProv, NameRight, LastIs, ScopedOperation, ScopedOperations, Binds, Undefined;
    forall x | x in q
      ensures NameRight(x, q, t, inner, args)
    {
      if x in p {
        OuterName(x, p, q, t, b, inner, args);
      } else {
        var v :| v in region.args && v.name == x;
        var i :| 0 <= i < |region.args| && region.args[i] == v;
        assert Undefined(t, b.key, x, b.iteration + [value]);
        ArgumentName(i, op, p, t, b, index, value, last, args);
      }
    }
  }

  lemma {:induction false} ArmFollows(p: Prov, t: Tables, b: Instance, inner: Instance, args: map<string, Argument>)
    requires Follows(p, t, b, args) && inner.key == b.key && |b.path| <= |inner.path| && inner.iteration == b.iteration
    requires SameFits(p, args, b.enclosing, inner.enclosing) && Binds(p, inner.enclosing)
    ensures Follows(p, t, inner, args)
  {
    hide Binds;
    forall x | x in p
      ensures NameRight(x, p, t, inner, args)
    {
      OuterName(x, p, p, t, b, inner, args);
    }
  }

  // ----- following an execution -----

  /** The static facts about the operations still to run in a block instance. */
  ghost predicate Static(program: seq<Operation>, args: map<string, Argument>, all: seq<Operation>, ops: seq<Operation>,
          b: Instance, index: nat, names: set<string>) {
    && index <= |all| && all[index..] == ops && Located(program, all, b)
    && ScopedOperations(ops, names) && ArgsFirst(ops)
    && UsesFit(args, ops, b.path, index, b.enclosing, |b.iteration|) && ArgNames(ops) <= args.Keys
  }

  /** The tables agree with the names in scope, and nothing has been filed ahead. */
  ghost predicate Dynamic(args: map<string, Argument>, b: Instance, index: nat, p: Prov, t: Tables,
          ahead: set<string>) {
    Follows(p, t, b, args) && FreshYields(t, b, index) && Ahead(t, ahead, b.key, b.iteration)
        && ControlInScope(b.enclosing, p, args)
  }

  /** What an execution does to the tables, seen by the rest of its block and its parent. */
  ghost predicate Effect(b: Instance, index: nat, results: set<string>, t: Tables, u: Tables, yielded: bool) {
    DefsWithin(t, u, b, results) && SameYields(t, u, b, index, yielded)
  }

  lemma {:induction false} EffectThen(b: Instance, index: nat, results: set<string>, more: set<string>, t: Tables,
          u: Tables, v: Tables, yielded: bool)
    requires Effect(b, index, results, t, u, false) && Effect(b, index + 1, more, u, v, yielded)
    ensures Effect(b, index, results + more, t, v, yielded)
  {
    DefsThen(t, u, v, b, results, more);
    hide DefsWithin;
    forall k | !OwnYield(k, b, index) && !(yielded && ParentYield(k, b))
      ensures (k in t.lastYields <==> k in v.lastYields) && (k in t.lastYields ==> v.lastYields[k] == t.lastYields[k])
    {
      assert !OwnYield(k, b, index + 1);
    }
  }

  /** The operation's own event: it has the right links, and its results become its. */
  lemma {:induction false} OwnLinks(node: Node, args: map<string, Argument>, b: Instance, index: nat, n: nat, p: Prov,
          t: Tables)
    requires Follows(p, t, b, args) && ControlInScope(b.enclosing, p, args)
    requires forall name :: name in References(node.op) ==> InScope(name, p, args, b.enclosing)
    requires
      if YieldedJustBefore(node) then n > 0 && node.op.regions != [] && LastIs(t, b, index, Some(n - 1))
        else LastIs(t, b, index, None)
    ensures LinksOf(Event(b.key, b.path + [index], node.op, b.iteration), b.enclosing, args, t) ==
        ExpectedLinks(node, b, n, p)
  {
    var names := References(node.op) + ControlNames(b.enclosing);
    forall i | 0 <= i < |names|
      ensures InScope(names[i], p, args, b.enclosing)
    {
      if i < |References(node.op)| {
        assert names[i] in References(node.op);
      } else {
        assert names[i] == ControlNames(b.enclosing)[i - |References(node.op)|];
      }
    }
    ResolveNames(names, p, t, b, args);
  }

  lemma {:induction false} RecordOwn(op: Operation, args: map<string, Argument>, b: Instance, index: nat, n: nat,
          p: Prov, t: Tables, ahead: set<string>)
    requires Follows(p, t, b, args) && FreshYields(t, b, index + 1) && Ahead(t, ahead, b.key, b.iteration)
    requires ControlInScope(b.enclosing, p, args)
    requires NameSet(op.results) !! ahead && NameSet(op.results) !! p.Keys && !op.opcode.Yield?
    ensures var u := Record(t, Event(b.key, b.path + [index], op, b.iteration), b.enclosing, n);
            && Dynamic(args, b, index + 1, Defined(p, op.results, n), u, ahead)
            && DefsWithin(t, u, b, NameSet(op.results)) && u.lastYields == t.lastYields
  {
    var u, q := Record(t, Event(b.key, b.path + [index], op, b.iteration), b.enclosing, n), Defined(p, op.results, n);
    OwnDefs(op, b, index, n, t);
    AheadKept(t, u, b, NameSet(op.results), ahead, b.iteration);
    hide DefsWithin, Ahead, DeclaredIn, Fits;
    DefinedKeys(p, op.results, n);
    forall x | x in q
      ensures NameRight(x, q, u, b, args)
    {
      if x in NameSet(op.results) {
        ResultRight(op, x, args, b, index, n, p, t);
      } else {
        OtherRight(op, x, args, b, index, n, p, t);
      }
    }
    hide NameRight, Keys, Record, Defined;
    assert Binds(q, b.enclosing);
  }

  lemma {:induction false} OtherRight(op: Operation, x: string, args: map<string, Argument>, b: Instance, index: nat,
          n: nat, p: Prov, t: Tables)
    requires Follows(p, t, b, args) && x in p && NameSet(op.results) !! p.Keys && !op.opcode.Yield?
    ensures x in Defined(p, op.results, n)
    ensures NameRight(x, Defined(p, op.results, n),
        Record(t, Event(b.key, b.path + [index], op, b.iteration), b.enclosing, n), b, args)
  {
    var u, q := Record(t, Event(b.key, b.path + [index], op, b.iteration), b.enclosing, n), Defined(p, op.results, n);
    hide DeclaredIn, Fits, Binds;
    assert Prefix(b.iteration, b.iteration) && SameFits(p, args, b.enclosing, b.enclosing);
    assert forall y :: y in p ==> q[y] == p[y];
    assert (b.key, x) !in Keys(b.key, op.results);
    hide NameRight, Keys, Defined;
    OuterName(x, p, q, t, b, b, args);
    OwnRecorded(x, q, t, u, b, args);
  }

  /** A result resolves to its own event. */
  lemma {:induction false} ResultRight(op: Operation, x: string, args: map<string, Argument>, b: Instance, index: nat,
          n: nat, p: Prov, t: Tables)
    requires Binds(p, b.enclosing) && x in NameSet(op.results) && x !in p
    ensures x in Defined(p, op.results, n)
    ensures NameRight(x, Defined(p, op.results, n),
        Record(t, Event(b.key, b.path + [index], op, b.iteration), b.enclosing, n), b, args)
  {
    hide Fits;
    var v :| v in op.results && v.name == x;
    assert (b.key, x) in Keys(b.key, op.results);
    assert b.iteration[..|b.iteration|] == b.iteration;
    assert !DeclaredIn(x, b.enclosing);
  }

  lemma {:induction false} OwnDefs(op: Operation, b: Instance, index: nat, n: nat, t: Tables)
    ensures DefsWithin(t, Record(t, Event(b.key, b.path + [index], op, b.iteration), b.enclosing, n), b,
        NameSet(op.results))
  {
    var u := Record(t, Event(b.key, b.path + [index], op, b.iteration), b.enclosing, n);
    forall k: (nat, string)
      ensures SameDef(t, u, k) ||
          (k.0 == b.key && k.1 in NameSet(op.results) && k in u.defs && Prefix(b.iteration, u.defs[k].iteration))
    {
      if k in Keys(b.key, op.results) {
        assert b.iteration[..|b.iteration|] == b.iteration;
      }
    }
  }

  lemma {:induction false} OwnRecorded(x: string, q: Prov, t: Tables, u: Tables, b: Instance,
          args: map<string, Argument>)
    requires x in q && NameRight(x, q, t, b, args) && u.lastYields == t.lastYields
    requires (b.key, x) in u.defs <==> (b.key, x) in t.defs
    requires (b.key, x) in t.defs ==> u.defs[(b.key, x)] == t.defs[(b.key, x)]
    ensures NameRight(x, q, u, b, args)
  {
  }

  lemma {:induction false} RecordYield(op: Operation, b: Instance, index: nat, n: nat, t: Tables)
    requires op.opcode.Yield? && op.results == []
    ensures var u := Record(t, Event(b.key, b.path + [index], op, b.iteration), b.enclosing, n);
            && Effect(b, index, {}, t, u, true)
            && (b.enclosing != [] ==>
                var k := YieldKey(b.key, b.enclosing[|b.enclosing| - 1], b.iteration);
                k in u.lastYields && u.lastYields[k] == n)
  {
    OwnDefs(op, b, index, n, t);
  }

  /** The entry belongs to the regions of operation `index` itself. */
  predicate OwnAt(k: (nat, Location, seq<int>), b: Instance, index: nat) {
    k.0 == b.key && Below(k.1, b.path, index) && !Below(k.1, b.path, index + 1) && Prefix(b.iteration, k.2)
  }

  ghost predicate InnerEffect(b: Instance, index: nat, results: set<string>, t: Tables, u: Tables) {
    && DefsWithin(t, u, b, results)
    && forall k :: !OwnAt(k, b, index) ==>
        (k in t.lastYields <==> k in u.lastYields) && (k in t.lastYields ==> u.lastYields[k] == t.lastYields[k])
  }

  /** Regions change only the entries of their own operation. */
  lemma {:induction false} InnerIsEffect(args: map<string, Argument>, b: Instance, index: nat, p: Prov, t: Tables,
          u: Tables, results: set<string>, ahead: set<string>)
    requires Dynamic(args, b, index, p, t, ahead) && InnerEffect(b, index, results, t, u)
    requires results !! p.Keys
    ensures Effect(b, index, results, t, u, false) && Follows(p, u, b, args) && FreshYields(u, b, index + 1)
  {
    hide Follows, DefsWithin, Ahead, ControlInScope;
    StillFollows(p, t, u, b, index, args, results);
    forall k | k in u.lastYields
      ensures !OwnYield(k, b, index + 1)
    {
      assert OwnYield(k, b, index + 1) ==> OwnYield(k, b, index);
    }
  }

  lemma {:induction false} InsideIsAt(b: Instance, inner: Instance, index: nat, region: nat, k: (nat, Location,
          seq<int>))
    requires inner.key == b.key && inner.path == b.path + [index, region] && Prefix(b.iteration, inner.iteration)
    requires inner.enclosing != []
    requires YieldKey(inner.key, inner.enclosing[|inner.enclosing| - 1], inner.iteration) == RegionKey(b, index)
    ensures OwnYield(k, inner, 0) || ParentYield(k, inner) ==> OwnAt(k, b, index)
    ensures !OwnYield(RegionKey(b, index), inner, 0) && ParentYield(RegionKey(b, index), inner)
    ensures OwnAt(RegionKey(b, index), b, index)
  {
    assert (b.path + [index])[..|b.path|] == b.path && b.iteration[..|b.iteration|] == b.iteration;
    if OwnYield(k, inner, 0) {
      assert k.1[..|inner.path|] == inner.path;
      assert k.1[..|b.path|] == inner.path[..|b.path|] == b.path && k.1[|b.path|] == inner.path[|b.path|] == index;
      PrefixTrans(b.iteration, inner.iteration, k.2);
    }
  }

  lemma {:induction false} InsideEffect(b: Instance, inner: Instance, index: nat, region: nat, results: set<string>,
          t: Tables, u: Tables, yielded: bool)
    requires inner.key == b.key && inner.path == b.path + [index, region] && Prefix(b.iteration, inner.iteration)
    requires inner.enclosing != []
    requires YieldKey(inner.key, inner.enclosing[|inner.enclosing| - 1], inner.iteration) == RegionKey(b, index)
    requires Effect(inner, 0, results, t, u, yielded)
    ensures InnerEffect(b, index, results, t, u)
    ensures !yielded ==> (RegionKey(b, index) in t.lastYields <==> RegionKey(b, index) in u.lastYields)
  {
    DefsInside(t, u, b, inner, results);
    hide DefsWithin;
    forall k | !OwnAt(k, b, index)
      ensures (k in t.lastYields <==> k in u.lastYields) && (k in t.lastYields ==> u.lastYields[k] == t.lastYields[k])
    {
      InsideIsAt(b, inner, index, region, k);
    }
    InsideIsAt(b, inner, index, region, RegionKey(b, index));
  }

  lemma {:induction false} DefsInside(t: Tables, u: Tables, b: Instance, inner: Instance, results: set<string>)
    requires DefsWithin(t, u, inner, results) && inner.key == b.key && Prefix(b.iteration, inner.iteration)
    ensures DefsWithin(t, u, b, results)
  {
    forall k: (nat, string)
      ensures SameDef(t, u, k) ||
          (k.0 == b.key && k.1 in results && k in u.defs && Prefix(b.iteration, u.defs[k].iteration))
    {
      if !SameDef(t, u, k) {
        PrefixTrans(b.iteration, inner.iteration, u.defs[k].iteration);
      }
    }
  }

  lemma {:induction false} InnerThen(b: Instance, index: nat, results: set<string>, t: Tables, u: Tables, v: Tables)
    requires InnerEffect(b, index, results, t, u) && InnerEffect(b, index, results, u, v)
    ensures InnerEffect(b, index, results, t, v)
  {
    DefsThen(t, u, v, b, results, results);
    assert results + results == results;
    hide DefsWithin;
  }

  lemma {:induction false} NoInner(b: Instance, index: nat, results: set<string>, t: Tables)
    ensures InnerEffect(b, index, results, t, t)
  {
  }

  lemma {:induction false} NothingFiled(t: Tables, b: Instance, index: nat)
    requires FreshYields(t, b, index)
    ensures LastIs(t, b, index, None)
  {
    assert (b.path + [index])[..|b.path|] == b.path && b.iteration[..|b.iteration|] == b.iteration;
    assert OwnYield(RegionKey(b, index), b, index);
  }

  /** A region that ends in a yield has run to its yield. */
  lemma {:induction false} BodyYields(nodes: seq<Node>, ops: seq<Operation>, names: set<string>)
    requires NodesFit(nodes, ops) && ScopedOperations(ops, names) && ops != [] && ops[|ops| - 1].opcode.Yield?
    ensures EndsYielded(nodes)
    decreases |ops|
  {
    if |ops| > 1 {
      BodyYields(nodes[1..], ops[1..], names + NameSet(ops[0].results));
    }
  }

  /** What following the nodes of a block establishes. */
  ghost predicate Followed(program: seq<Operation>, args: map<string, Argument>, nodes: seq<Node>, b: Instance,
          index: nat, n: nat, p: Prov, t: Tables, results: set<string>) {
    var events := EventsOf(nodes, b, index);
    var u := Run(t, program, events, n);
    && EdgesOf(program, args, t, events, n) == Expected(nodes, b, index, n, p)
    && Effect(b, index, results, t, u, EndsYielded(nodes))
    && (EndsYielded(nodes) ==> events != [] && (b.enclosing != [] ==>
          var k := YieldKey(b.key, b.enclosing[|b.enclosing| - 1], b.iteration);
          k in u.lastYields && u.lastYields[k] == n + |events| - 1))
  }

  ghost predicate InnerFollowed(program: seq<Operation>, args: map<string, Argument>, node: Node, b: Instance,
          index: nat, n: nat, p: Prov, t: Tables, results: set<string>) {
    var events := InnerEvents(node, b, index);
    var u := Run(t, program, events, n);
    && EdgesOf(program, args, t, events, n) == InnerExpected(node, b, index, n, p)
    && InnerEffect(b, index, results, t, u)
    && if YieldedJustBefore(node) then events != [] && node.op.regions != []
        && LastIs(u, b, index, Some(n + |events| - 1)) else LastIs(u, b, index, None)
  }

  lemma {:induction false} EventsStep(nodes: seq<Node>, b: Instance, index: nat)
    requires nodes != []
    ensures EventsOf(nodes, b, index) == InnerEvents(nodes[0], b, index)
        + [Event(b.key, b.path + [index], nodes[0].op, b.iteration)] + EventsOf(nodes[1..], b, index + 1)
  {
    hide InnerEvents;
  }

  lemma {:induction false} EventsAround(program: seq<Operation>, args: map<string, Argument>, t: Tables,
          inner: seq<Event>, e: Event, rest: seq<Event>, n: nat, m: nat, parents: seq<Parent>, t1: Tables, t2: Tables)
    requires Parents(program, e.location) == parents && m == n + |inner| && t1 == Run(t, program, inner, n)
    requires t2 == Record(t1, e, parents, m)
    ensures EdgesOf(program, args, t, inner + [e] + rest, n) == EdgesOf(program, args, t, inner, n)
        + [LinksOf(e, parents, args, t1)] + EdgesOf(program, args, t2, rest, m + 1)
    ensures Run(t, program, inner + [e] + rest, n) == Run(t2, program, rest, m + 1)
  {
    hide LinksOf, Record, Parents, EdgesOf, Run;
    var tail := [e] + rest;
    assert tail[0] == e && tail[1..] == rest;
    RunStep(program, t1, tail, m, rest);
    EdgesStep(program, args, t1, tail, m, rest);
    assert inner + [e] + rest == inner + tail;
    Concatenated(program, args, t, inner, tail, n, m, EdgesOf(program, args, t, inner, n),
        EdgesOf(program, args, t1, tail, m));
  }

  lemma {:induction false} RunStep(program: seq<Operation>, t: Tables, events: seq<Event>, n: nat, rest: seq<Event>)
    requires events != [] && events[1..] == rest
    ensures Run(t, program, events, n) ==
        Run(Record(t, events[0], Parents(program, events[0].location), n), program, rest, n + 1)
  {
  }

  lemma {:induction false} ExpectedStep(nodes: seq<Node>, b: Instance, index: nat, n: nat, p: Prov)
    requires nodes != []
    ensures var m := n + |InnerEvents(nodes[0], b, index)|;
            Expected(nodes, b, index, n, p) ==
                (InnerExpected(nodes[0], b, index, n, p) + [ExpectedLinks(nodes[0], b, m, p)]
                + Expected(nodes[1..], b, index + 1, m + 1, Defined(p, nodes[0].op.results, m)))
  {
    hide ExpectedLinks, InnerExpected, InnerEvents, Defined;
  }

  lemma {:induction false} EndsLater(nodes: seq<Node>)
    requires nodes != [] && !nodes[0].op.opcode.Yield?
    ensures EndsYielded(nodes) == EndsYielded(nodes[1..])
  {
  }

  /** A yield ends the block: its event is the last, and is filed with the parent. */
  lemma {:induction false} YieldFollowed(program: seq<Operation>, args: map<string, Argument>, nodes: seq<Node>,
          b: Instance, index: nat, n: nat, p: Prov, t: Tables, ahead: set<string>, results: set<string>)
    requires |nodes| == 1 && nodes[0].Simple? && nodes[0].op.opcode.Yield? && nodes[0].op.results == []
    requires Dynamic(args, b, index, p, t, ahead) && Parents(program, b.path + [index]) == b.enclosing
    requires forall name :: name in References(nodes[0].op) ==> InScope(name, p, args, b.enclosing)
    ensures Followed(program, args, nodes, b, index, n, p, t, results)
  {
    hide Follows, DefsWithin, Ahead, ControlInScope;
    var node, op := nodes[0], nodes[0].op;
    var e := Event(b.key, b.path + [index], op, b.iteration);
    assert nodes[1..] == [] && EventsOf(nodes, b, index) == [] + [e] + [];
    var events := [e];
    assert EventsOf(nodes, b, index) == events;
    assert events[1..] == [];
    var u := Record(t, e, b.enclosing, n);
    assert Run(t, program, events, n) == Run(u, program, events[1..], n + 1) == u;
    NothingFiled(t, b, index);
    OwnLinks(node, args, b, index, n, p, t);
    RecordYield(op, b, index, n, t);
    DefsWiden(t, u, b, {}, results);
    EdgesStep(program, args, t, events, n, []);
    assert EdgesOf(program, args, u, [], n + 1) == [];
    assert Expected(nodes, b, index, n, p) == [] + [ExpectedLinks(node, b, n, p)] + [];
  }

  lemma {:induction false} StillEffect(b: Instance, index: nat, results: set<string>, more: set<string>, t: Tables,
          u: Tables, v: Tables)
    requires Effect(b, index, results, t, u, false) && DefsWithin(u, v, b, more) && v.lastYields == u.lastYields
    ensures Effect(b, index, results + more, t, v, false)
  {
    DefsThen(t, u, v, b, results, more);
    hide DefsWithin;
  }

  /** The first node and the rest make up the block. */
  lemma {:induction false} NodesJoin(program: seq<Operation>, args: map<string, Argument>, nodes: seq<Node>,
          b: Instance, index: nat, n: nat, p: Prov, t: Tables, inner: seq<Event>, e: Event, m: nat, t1: Tables,
          t2: Tables, q: Prov, inside: set<string>, own: set<string>, later: set<string>)
    requires nodes != [] && Parents(program, b.path + [index]) == b.enclosing && !nodes[0].op.opcode.Yield?
    requires inner == InnerEvents(nodes[0], b, index) && m == n + |inner| && t1 == Run(t, program, inner, n)
    requires e == Event(b.key, b.path + [index], nodes[0].op, b.iteration)
    requires t2 == Record(t1, e, b.enclosing, m) && q == Defined(p, nodes[0].op.results, m)
    requires InnerFollowed(program, args, nodes[0], b, index, n, p, t, inside)
    requires LinksOf(e, b.enclosing, args, t1) == ExpectedLinks(nodes[0], b, m, p)
    requires Effect(b, index, inside, t, t1, false) && DefsWithin(t1, t2, b, own) && t2.lastYields == t1.lastYields
    requires Followed(program, args, nodes[1..], b, index + 1, m + 1, q, t2, later)
    ensures Followed(program, args, nodes, b, index, n, p, t, inside + own + later)
  {
    hide EndsYielded, LinksOf, ExpectedLinks, Record, Expected, InnerExpected, EdgesOf, Run, EventsOf, InnerEvents,
        Effect, DefsWithin, SameYields, InnerEffect, Defined, Parents, LastIs, YieldedJustBefore, YieldKey;
    var rest := EventsOf(nodes[1..], b, index + 1);
    var u := Run(t2, program, rest, m + 1);
    EventsStep(nodes, b, index);
    EventsAround(program, args, t, inner, e, rest, n, m, b.enclosing, t1, t2);
    ExpectedStep(nodes, b, index, n, p);
    EndsLater(nodes);
    StillEffect(b, index, inside, own, t, t1, t2);
    EffectThen(b, index, inside + own, later, t, t2, u, EndsYielded(nodes));
    assert |inner + [e] + rest| == |inner| + 1 + |rest|;
  }

  /** Links are right for every event of an execution, through any nesting of loops and
      branches. */
  lemma {:induction false} FollowNodes(program: seq<Operation>, args: map<string, Argument>, nodes: seq<Node>,
          all: seq<Operation>, ops: seq<Operation>, b: Instance, index: nat, n: nat, p: Prov, t: Tables)
    requires NodesFit(nodes, ops) && Static(program, args, all, ops, b, index, p.Keys)
    requires Dynamic(args, b, index, p, t, ArgNames(ops))
    ensures Followed(program, args, nodes, b, index, n, p, t, Defines(ops))
    decreases nodes, 2, 0
  {
    hide Followed, InnerFollowed, Follows, FreshYields, Ahead, ControlInScope, Record, LinksOf, Expected, Run,
        EventsOf, EdgesOf, InnerEvents, Located, ScopedOperation, OperationFits, OperationArgsFirst, NodesFit,
        NodeFits, ArgNames, Defines, Dynamic, DefsWithin;
    FitStep(nodes, ops);
    if ops == [] {
      NothingFollowed(program, args, b, index, n, p, t, Defines(ops));
    } else {
      var node, op := nodes[0], ops[0];
      ParentsHere(program, all, b, index);
      StaticStep(program, args, all, ops, b, index, p.Keys);
      if op.opcode.Yield? {
        YieldFollowed(program, args, nodes, b, index, n, p, t, ArgNames(ops), Defines(ops));
      } else {
        FollowInner(program, args, node, all, ops, b, index, n, p, t);
        var inner := InnerEvents(node, b, index);
        var t1, m := Run(t, program, inner, n), n + |inner|;
        hide LinksOf, ExpectedLinks, Expected, InnerExpected, EdgesOf, Run, EventsOf, InnerEvents, NodesFit, NodeFits,
            Static, SameYields, Record, Effect, Defined, Parents, ScopedOperation, OperationFits, References,
            RegionDefines;
        AfterInner(program, args, node, b, index, n, p, t, ops);
        RecordOwn(op, args, b, index, m, p, t1, ArgNames(ops[1..]));
        var e := Event(b.key, b.path + [index], op, b.iteration);
        DefinedKeys(p, op.results, m);
        var t2, q := Record(t1, e, b.enclosing, m), Defined(p, op.results, m);
        FollowNodes(program, args, nodes[1..], all, ops[1..], b, index + 1, m + 1, q, t2);
        NodesJoin(program, args, nodes, b, index, n, p, t, inner, e, m, t1, t2, q, RegionDefines(op.regions),
            NameSet(op.results), Defines(ops[1..]));
        DefinesCons(ops);
        assert RegionDefines(op.regions) + NameSet(op.results) + Defines(ops[1..]) == Defines(ops);
      }
    }
  }

  lemma {:induction false} FitStep(nodes: seq<Node>, ops: seq<Operation>)
    requires NodesFit(nodes, ops)
    ensures ops == [] ==> nodes == []
    ensures ops != [] ==> nodes != [] && NodeFits(nodes[0], ops[0]) && nodes[0].op == ops[0]
    ensures ops != [] && ops[0].opcode.Yield? ==> |nodes| == 1 && nodes[0].Simple?
    ensures ops != [] && !ops[0].opcode.Yield? ==> NodesFit(nodes[1..], ops[1..])
  {
  }

  lemma {:induction false} DynamicParts(args: map<string, Argument>, b: Instance, index: nat, p: Prov, t: Tables,
          ahead: set<string>)
    requires Dynamic(args, b, index, p, t, ahead)
    ensures Follows(p, t, b, args) && FreshYields(t, b, index) && Ahead(t, ahead, b.key, b.iteration)
    ensures ControlInScope(b.enclosing, p, args)
  {
  }

  lemma {:induction false} DefinedKeys(p: Prov, values: seq<Value>, n: nat)
    ensures Defined(p, values, n).Keys == p.Keys + NameSet(values)
  {
  }

  lemma {:induction false} NothingFollowed(program: seq<Operation>, args: map<string, Argument>, b: Instance,
          index: nat, n: nat, p: Prov, t: Tables, results: set<string>)
    ensures Followed(program, args, [], b, index, n, p, t, results)
  {
  }

  /** After its regions, an operation's own links are right and nothing is filed ahead. */
  lemma {:induction false} AfterInner(program: seq<Operation>, args: map<string, Argument>, node: Node, b: Instance,
          index: nat, n: nat, p: Prov, t: Tables, ops: seq<Operation>)
    requires ops != [] && Dynamic(args, b, index, p, t, ArgNames(ops))
    requires InnerFollowed(program, args, node, b, index, n, p, t, RegionDefines(ops[0].regions))
    requires forall name :: name in References(node.op) ==> InScope(name, p, args, b.enclosing)
    requires RegionDefines(ops[0].regions) !! p.Keys && RegionDefines(ops[0].regions) !! ArgNames(ops[1..])
    ensures var inner := InnerEvents(node, b, index);
            var t1, m := Run(t, program, inner, n), n + |inner|;
            && Effect(b, index, RegionDefines(ops[0].regions), t, t1, false)
            && Follows(p, t1, b, args) && FreshYields(t1, b, index + 1)
            && Ahead(t1, ArgNames(ops[1..]), b.key, b.iteration) && ControlInScope(b.enclosing, p, args)
            && LinksOf(Event(b.key, b.path + [index], node.op, b.iteration), b.enclosing, args, t1) ==
                ExpectedLinks(node, b, m, p)
  {
    hide References;
    var inner := InnerEvents(node, b, index);
    var t1, m := Run(t, program, inner, n), n + |inner|;
    assert ArgNames(ops[1..]) <= ArgNames(ops) && Prefix(b.iteration, b.iteration);
    DynamicParts(args, b, index, p, t, ArgNames(ops));
    hide ArgNames, RegionDefines, Follows, ControlInScope, Ahead, EdgesOf, Expected, Run, InnerEvents, LinksOf,
        ExpectedLinks, DefsWithin, Dynamic;
    StillAhead(t, ArgNames(ops[1..]), b.key, b.iteration, ArgNames(ops), b.iteration);
    InnerIsEffect(args, b, index, p, t, t1, RegionDefines(ops[0].regions), ArgNames(ops));
    AheadKept(t, t1, b, RegionDefines(ops[0].regions), ArgNames(ops[1..]), b.iteration);
    OwnLinks(node, args, b, index, m, p, t1);
  }

  /** The static facts of the operations after the first. */
  lemma {:induction false} StaticStep(program: seq<Operation>, args: map<string, Argument>, all: seq<Operation>,
          ops: seq<Operation>, b: Instance, index: nat, names: set<string>)
    requires Static(program, args, all, ops, b, index, names) && ops != []
    ensures index < |all| && all[index] == ops[0] && ScopedOperation(ops[0], names)
    ensures OperationFits(args, ops[0], b.path + [index], b.enclosing, |b.iteration|)
    ensures OperationArgsFirst(ops[0])
    ensures RegionArgNames(ops[0].regions) <= args.Keys && RegionArgNames(ops[0].regions) <= ArgNames(ops)
    ensures NameSet(ops[0].results) !! names && RegionDefines(ops[0].regions) !! names
    ensures NameSet(ops[0].results) + RegionDefines(ops[0].regions) !! ArgNames(ops[1..])
    ensures (forall name :: name in References(ops[0]) ==> name in names && Fits(name, args, b.enclosing))
    ensures ops[0].opcode.Yield? ==> ops[0].results == [] && |ops| == 1
    ensures Static(program, args, all, ops[1..], b, index + 1, names + NameSet(ops[0].results))
  {
    assert all[index + 1..] == ops[1..];
    assert ScopedOperation(ops[0], names);
    RegionsOutside(ops[0].regions, names, names);
  }

  // ----- the regions of one operation -----

  /** Every entry filed for the rounds of a loop is under an induction value of its own. */
  ghost predicate FreshRounds(t: Tables, b: Instance, index: nat, rounds: seq<Round>) {
    forall k :: k in t.lastYields && k.0 == b.key && Below(k.1, b.path + [index, 0], 0) && Prefix(b.iteration, k.2) ==>
      |k.2| > |b.iteration| && forall i :: 0 <= i < |rounds| ==> rounds[i].value != k.2[|b.iteration|]
  }

  lemma {:induction false} FollowInner(program: seq<Operation>, args: map<string, Argument>, node: Node,
          all: seq<Operation>, ops: seq<Operation>, b: Instance, index: nat, n: nat, p: Prov, t: Tables)
    requires ops != [] && NodeFits(node, ops[0]) && Static(program, args, all, ops, b, index, p.Keys)
    requires Dynamic(args, b, index, p, t, ArgNames(ops))
    ensures InnerFollowed(program, args, node, b, index, n, p, t, RegionDefines(ops[0].regions))
    decreases node, 2, 0
  {
    StaticStep(program, args, all, ops, b, index, p.Keys);
    DynamicParts(args, b, index, p, t, ArgNames(ops));
    hide InnerFollowed, RoundsFollowed, Dynamic, ScopedOperation, OperationFits, OperationArgsFirst, Follows, ArgNames,
        RegionArgNames, RegionDefines, Ahead, Static;
    match node
    case Simple(_) => NoRegion(program, args, node, b, index, n, p, t, ArgNames(ops), RegionDefines(ops[0].regions));
    case Looped(op, rounds) =>
      FreshLoop(t, b, index, rounds);
      NothingFiled(t, b, index);
      AheadLoop(t, ops[0], b, rounds, ArgNames(ops));
      FollowRounds(program, args, node, rounds, all, b, index, n, p, t, None);
      LoopFollowed(program, args, node, b, index, n, p, t, ops[0]);
    case Branched(op, arm) =>
      if arm.None? {
        NoRegion(program, args, node, b, index, n, p, t, ArgNames(ops), RegionDefines(ops[0].regions));
      } else {
        FollowArm(program, args, node, all, b, index, n, p, t, ArgNames(ops));
      }
  }

  /** What a loop's region binds, nested regions included. */
  function LoopArgs(op: Operation): set<string> {
    if op.regions == [] then {} else NameSet(op.regions[0].args) + ArgNames(op.regions[0].operations)
  }

  ghost predicate AheadRounds(t: Tables, op: Operation, b: Instance, rounds: seq<Round>) {
    forall i :: 0 <= i < |rounds| ==> Ahead(t, LoopArgs(op), b.key, b.iteration + [rounds[i].value])
  }

  lemma {:induction false} AheadLoop(t: Tables, op: Operation, b: Instance, rounds: seq<Round>, ahead: set<string>)
    requires Ahead(t, ahead, b.key, b.iteration) && RegionArgNames(op.regions) <= ahead
    ensures AheadRounds(t, op, b, rounds)
  {
    if op.regions != [] {
      RegionNames(op.regions, 0);
    }
    hide Ahead, ArgNames, RegionArgNames;
    assert LoopArgs(op) <= ahead;
    forall i | 0 <= i < |rounds|
      ensures Ahead(t, LoopArgs(op), b.key, b.iteration + [rounds[i].value])
    {
      assert (b.iteration + [rounds[i].value])[..|b.iteration|] == b.iteration;
      StillAhead(t, LoopArgs(op), b.key, b.iteration, ahead, b.iteration + [rounds[i].value]);
    }
  }

  lemma {:induction false} EnteredHere(args: map<string, Argument>, op: Operation, region: nat)
    requires RegionArgNames(op.regions) <= args.Keys && region < |op.regions|
    ensures NameSet(op.regions[region].args) <= args.Keys && ArgNames(op.regions[region].operations) <= args.Keys
    ensures ArgumentsEntered(args, op)
  {
    RegionNames(op.regions, region);
    forall v | v in op.regions[0].args
      ensures v.name in args
    {
      assert v.name in NameSet(op.regions[0].args);
    }
  }

  lemma {:induction false} RegionNames(regions: seq<Block>, r: nat)
    requires r < |regions|
    ensures NameSet(regions[r].args) + ArgNames(regions[r].operations) <= RegionArgNames(regions)
    decreases r
  {
    if r > 0 {
      RegionNames(regions[1..], r - 1);
    }
  }

  lemma {:induction false} LoopFollowed(program: seq<Operation>, args: map<string, Argument>, node: Node, b: Instance,
          index: nat, n: nat, p: Prov, t: Tables, op: Operation)
    requires node.Looped? && NodeFits(node, op) && LoopShape(op, p.Keys)
    requires RoundsFollowed(program, args, node, node.rounds, b, index, n, p, t, None)
    requires forall name :: name in References(op) ==> name in p
    ensures InnerFollowed(program, args, node, b, index, n, p, t, RegionDefines(op.regions))
  {
    hide InnerEffect, LastIs, RoundEvents, RoundExpected, EdgesOf, Run;
    LastRoundYields(node, op, p);
  }

  lemma {:induction false} LastRoundYields(node: Node, op: Operation, p: Prov)
    requires node.Looped? && NodeFits(node, op) && LoopShape(op, p.Keys)
    ensures node.rounds != [] <==> YieldedJustBefore(node)
  {
    if node.rounds != [] {
      var region := op.regions[0];
      assert region in op.regions && ScopedBlock(region, p.Keys);
      var i := |node.rounds| - 1;
      RoundFits(node, node.rounds, region.operations, i);
      BodyYields(node.rounds[i].body, region.operations, p.Keys + NameSet(region.args));
    }
  }

  lemma {:induction false} RoundFits(parent: Node, rounds: seq<Round>, ops: seq<Operation>, i: nat)
    requires i < |rounds| && (forall j :: 0 <= j < |rounds| ==> rounds[j] < parent) && RoundsFit(parent, rounds, ops)
    ensures NodesFit(rounds[i].body, ops)
    decreases i
  {
    if i > 0 {
      RoundFits(parent, rounds[1..], ops, i - 1);
    }
  }

  lemma {:induction false} NoRegion(program: seq<Operation>, args: map<string, Argument>, node: Node, b: Instance,
          index: nat, n: nat, p: Prov, t: Tables, ahead: set<string>, results: set<string>)
    requires (node.Simple? || (node.Branched? && node.arm.None?)) && Dynamic(args, b, index, p, t, ahead)
    ensures InnerFollowed(program, args, node, b, index, n, p, t, results)
  {
    hide Follows, Ahead;
    NothingFiled(t, b, index);
    NoInner(b, index, results, t);
  }

  lemma {:induction false} FreshLoop(t: Tables, b: Instance, index: nat, rounds: seq<Round>)
    requires FreshYields(t, b, index)
    ensures FreshRounds(t, b, index, rounds)
  {
    forall k | k in t.lastYields && k.0 == b.key && Below(k.1, b.path + [index, 0], 0)
      ensures !Prefix(b.iteration, k.2)
    {
      var deep := b.path + [index, 0];
      assert k.1[..|b.path|] == deep[..|b.path|] == b.path && k.1[|b.path|] == deep[|b.path|] == index;
      assert !OwnYield(k, b, index);
    }
  }

  /** The static facts inside a region. */
  lemma {:induction false} StaticInside(program: seq<Operation>, args: map<string, Argument>, all: seq<Operation>,
          b: Instance, index: nat, region: nat, inner: Instance, names: set<string>)
    requires Located(program, all, b) && index < |all| && region < |all[index].regions|
    requires OperationFits(args, all[index], b.path + [index], b.enclosing, |b.iteration|)
    requires OperationArgsFirst(all[index])
    requires inner.path == b.path + [index, region] && |inner.iteration| == InnerDepth(all[index], |b.iteration|)
    requires inner.enclosing == b.enclosing + [Parent(b.path + [index], all[index], |inner.iteration|)]
    requires ScopedOperations(all[index].regions[region].operations, names)
    requires RegionArgNames(all[index].regions) <= args.Keys
    ensures var ops := all[index].regions[region].operations; Static(program, args, ops, ops, inner, 0, names)
  {
    var ops := all[index].regions[region].operations;
    LocatedInside(program, all, b, index, region, inner);
    EnteredHere(args, all[index], region);
    assert b.path + [index] + [region] == inner.path;
    assert ops[0..] == ops;
  }

  lemma {:induction false} ArmReady(op: Operation, args: map<string, Argument>, b: Instance, index: nat, region: nat,
          p: Prov, t: Tables, ahead: set<string>)
    requires op.opcode.If? && region < |op.regions| && ScopedOperation(op, p.Keys)
    requires Dynamic(args, b, index, p, t, ahead) && RegionArgNames(op.regions) <= ahead
    requires forall name :: name in References(op) ==> Fits(name, args, b.enclosing)
    ensures var inner := InArm(b, index, op, region);
            && Dynamic(args, inner, 0, p, t, ArgNames(op.regions[region].operations))
            && ScopedOperations(op.regions[region].operations, p.Keys)
            && YieldKey(inner.key, inner.enclosing[|inner.enclosing| - 1], inner.iteration) == RegionKey(b, index)
  {
    var inner := InArm(b, index, op, region);
    assert op.regions[region] in op.regions && ScopedBlock(op.regions[region], p.Keys);
    assert NameSet(op.regions[region].args) == {} && p.Keys + {} == p.Keys;
    RegionNames(op.regions, region);
    var own := Parent(b.path + [index], op, |b.iteration|);
    FitsInside(p, args, b.enclosing, own);
    BindsInside(p, p, args, b.enclosing, own);
    hide ArgNames, RegionArgNames, Binds, Ahead;
    assert Prefix(b.iteration, b.iteration);
    StillAhead(t, ArgNames(op.regions[region].operations), b.key, b.iteration, ahead, b.iteration);
    ArmFollows(p, t, b, inner, args);
    forall name | name in op.operands
      ensures InScope(name, p, args, b.enclosing)
    {
      assert name in References(op);
    }
    ControlInside(b.enclosing, own, p, p, args);
    forall k | k in t.lastYields
      ensures !OwnYield(k, inner, 0)
    {
      assert b.iteration[..|b.iteration|] == b.iteration;
      InsideIsAt(b, inner, index, region, k);
      assert OwnAt(k, b, index) ==> OwnYield(k, b, index);
    }
  }

  lemma {:induction false} FollowArm(program: seq<Operation>, args: map<string, Argument>, node: Node,
          all: seq<Operation>, b: Instance, index: nat, n: nat, p: Prov, t: Tables, ahead: set<string>)
    requires node.Branched? && node.arm.Some? && index < |all| && NodeFits(node, all[index]) && Located(program, all, b)
    requires ScopedOperation(all[index], p.Keys)
    requires OperationFits(args, all[index], b.path + [index], b.enclosing, |b.iteration|)
    requires OperationArgsFirst(all[index])
    requires Dynamic(args, b, index, p, t, ahead)
    requires RegionArgNames(all[index].regions) <= args.Keys && RegionArgNames(all[index].regions) <= ahead
    ensures InnerFollowed(program, args, node, b, index, n, p, t, RegionDefines(all[index].regions))
    decreases node, 1, 0
  {
    var op, arm := all[index], node.arm.value;
    var inner, ops := InArm(b, index, op, arm.region), op.regions[arm.region].operations;
    ArmReady(op, args, b, index, arm.region, p, t, ahead);
    StaticInside(program, args, all, b, index, arm.region, inner, p.Keys);
    DynamicParts(args, b, index, p, t, ahead);
    RegionDefinesAt(op.regions, arm.region);
    hide Followed, InnerFollowed, Dynamic, Defines, RegionDefines, ArgNames, RegionArgNames;
    FollowNodes(program, args, arm.body, ops, ops, inner, 0, n, p, t);
    ArmFollowed(program, args, node, b, index, n, p, t, inner, Defines(ops), RegionDefines(op.regions));
  }

  lemma {:induction false} ArmFollowed(program: seq<Operation>, args: map<string, Argument>, node: Node, b: Instance,
          index: nat, n: nat, p: Prov, t: Tables, inner: Instance, inside: set<string>, results: set<string>)
    requires node.Branched? && node.arm.Some? && node.op.regions != [] && inside <= results
    requires inner == InArm(b, index, node.op, node.arm.value.region) && FreshYields(t, b, index)
    requires YieldKey(inner.key, inner.enclosing[|inner.enclosing| - 1], inner.iteration) == RegionKey(b, index)
    requires Followed(program, args, node.arm.value.body, inner, 0, n, p, t, inside)
    ensures InnerFollowed(program, args, node, b, index, n, p, t, results)
  {
    var arm := node.arm.value;
    NothingFiled(t, b, index);
    assert b.iteration[..|b.iteration|] == b.iteration;
    var u := Run(t, program, EventsOf(arm.body, inner, 0), n);
    assert InnerEvents(node, b, index) == EventsOf(arm.body, inner, 0)
        && InnerExpected(node, b, index, n, p) == Expected(arm.body, inner, 0, n, p);
    hide EdgesOf, Run, EventsOf, Expected, InnerEvents, InnerExpected, FreshYields, DefsWithin;
    DefsWiden(t, u, inner, inside, results);
    hide Effect, InnerEffect;
    EffectWidens(inner, 0, inside, results, t, u, EndsYielded(arm.body));
    InsideEffect(b, inner, index, arm.region, results, t, u, EndsYielded(arm.body));
  }

  lemma {:induction false} EffectWidens(b: Instance, index: nat, results: set<string>, more: set<string>, t: Tables,
          u: Tables, yielded: bool)
    requires Effect(b, index, results, t, u, yielded) && results <= more
    ensures Effect(b, index, more, t, u, yielded)
  {
    DefsWiden(t, u, b, results, more);
  }

  lemma {:induction false} RoundReady(op: Operation, args: map<string, Argument>, b: Instance, index: nat,
          rounds: seq<Round>, p: Prov, t: Tables, last: Option<nat>)
    requires LoopShape(op, p.Keys) && rounds != [] && FreshRounds(t, b, index, rounds) && LastIs(t, b, index, last)
    requires Follows(p, t, b, args) && AheadRounds(t, op, b, rounds) && ControlInScope(b.enclosing, p, args)
    requires ArgumentsEntered(args, op) && forall name :: name in References(op) ==> Fits(name, args, b.enclosing)
    ensures var inner, q := InLoop(b, index, op, rounds[0].value), RoundProv(p, op, last);
            && Dynamic(args, inner, 0, q, t, ArgNames(op.regions[0].operations))
            && ScopedOperations(op.regions[0].operations, q.Keys) && p.Keys <= q.Keys
            && YieldKey(inner.key, inner.enclosing[|inner.enclosing| - 1], inner.iteration) == RegionKey(b, index)
            && Prefix(b.iteration, inner.iteration)
  {
    var inner, q := InLoop(b, index, op, rounds[0].value), RoundProv(p, op, last);
    RoundAhead(t, op, b, rounds);
    hide AheadRounds, ArgNames, Ahead;
    RoundFollows(op, p, t, b, index, rounds[0].value, last, args);
    forall name | name in op.operands
      ensures InScope(name, p, args, b.enclosing)
    {
      assert name in References(op);
    }
    ControlInside(b.enclosing, Parent(b.path + [index], op, |b.iteration| + 1), p, q, args);
    RoundYieldsFresh(t, b, index, op, rounds);
    assert inner.iteration[..|b.iteration|] == b.iteration;
  }

  /** A round starts with no yield of its own operations filed. */
  lemma {:induction false} RoundYieldsFresh(t: Tables, b: Instance, index: nat, op: Operation, rounds: seq<Round>)
    requires rounds != [] && FreshRounds(t, b, index, rounds)
    ensures FreshYields(t, InLoop(b, index, op, rounds[0].value), 0)
  {
    var inner := InLoop(b, index, op, rounds[0].value);
    forall k | k in t.lastYields
      ensures !OwnYield(k, inner, 0)
    {
      if Prefix(inner.iteration, k.2) {
        PrefixTrans(b.iteration, inner.iteration, k.2);
        assert k.2[|b.iteration|] == inner.iteration[|b.iteration|] == rounds[0].value;
      }
    }
  }

  lemma {:induction false} RoundAhead(t: Tables, op: Operation, b: Instance, rounds: seq<Round>)
    requires op.regions != [] && rounds != [] && AheadRounds(t, op, b, rounds)
    ensures Ahead(t, NameSet(op.regions[0].args), b.key, b.iteration + [rounds[0].value])
    ensures Ahead(t, ArgNames(op.regions[0].operations), b.key, b.iteration + [rounds[0].value])
  {
  }

  /** What one round files does not count in the later ones. */
  lemma {:induction false} AheadAfterRound(t: Tables, u: Tables, op: Operation, b: Instance, index: nat,
          rounds: seq<Round>, inner: Instance, results: set<string>)
    requires rounds != [] && DistinctRounds(rounds) && AheadRounds(t, op, b, rounds)
    requires inner == InLoop(b, index, op, rounds[0].value) && DefsWithin(t, u, inner, results)
    ensures AheadRounds(u, op, b, rounds[1..])
  {
    var rest := rounds[1..];
    forall i | 0 <= i < |rest|
      ensures Ahead(u, LoopArgs(op), b.key, b.iteration + [rest[i].value])
    {
      var iteration := b.iteration + [rest[i].value];
      assert rest[i] == rounds[i + 1] && rounds[0].value != rounds[i + 1].value;
      assert Ahead(t, LoopArgs(op), b.key, b.iteration + [rounds[i + 1].value]);
      forall x | x in LoopArgs(op)
        ensures Undefined(u, b.key, x, iteration)
      {
        assert Undefined(t, b.key, x, iteration);
        OtherRound(t, u, inner, results, b.iteration, rounds[0].value, rest[i].value, x);
      }
    }
  }

  lemma {:induction false} OtherRound(t: Tables, u: Tables, inner: Instance, results: set<string>, outer: seq<int>,
          value: int, other: int, x: string)
    requires DefsWithin(t, u, inner, results) && inner.iteration == outer + [value] && value != other
    requires Undefined(t, inner.key, x, outer + [other])
    ensures Undefined(u, inner.key, x, outer + [other])
  {
    var k := (inner.key, x);
    if !SameDef(t, u, k) && k in u.defs {
      var filed := u.defs[k].iteration;
      assert filed[|outer|] == inner.iteration[|outer|] == value && (outer + [other])[|outer|] == other;
    }
  }

  /** The entries of one round leave the later rounds fresh. */
  lemma {:induction false} FreshAfterRound(b: Instance, inner: Instance, index: nat, op: Operation, rounds: seq<Round>,
          results: set<string>, t: Tables, u: Tables)
    requires rounds != [] && DistinctRounds(rounds) && FreshRounds(t, b, index, rounds)
    requires inner == InLoop(b, index, op, rounds[0].value)
    requires Effect(inner, 0, results, t, u, true)
    requires YieldKey(inner.key, inner.enclosing[|inner.enclosing| - 1], inner.iteration) == RegionKey(b, index)
    ensures FreshRounds(u, b, index, rounds[1..])
  {
    forall k | k in u.lastYields && k.0 == b.key && Below(k.1, b.path + [index, 0], 0) && Prefix(b.iteration, k.2)
      ensures |k.2| > |b.iteration| && forall i :: 0 <= i < |rounds[1..]| ==> rounds[1..][i].value != k.2[|b.iteration|]
    {
      assert !ParentYield(k, inner);
      if OwnYield(k, inner, 0) {
        assert k.2[|b.iteration|] == inner.iteration[|b.iteration|] == rounds[0].value;
        assert forall i :: 0 <= i < |rounds[1..]| ==>
            rounds[0].value != rounds[i + 1].value && rounds[1..][i] == rounds[i + 1];
      } else {
        assert k in t.lastYields;
        assert forall i :: 0 <= i < |rounds[1..]| ==> rounds[1..][i] == rounds[i + 1];
      }
    }
  }

  ghost predicate RoundsFollowed(program: seq<Operation>, args: map<string, Argument>, parent: Node, rounds: seq<Round>,
          b: Instance, index: nat, n: nat, p: Prov, t: Tables, last: Option<nat>)
    requires parent.Looped? && parent.op.regions != [] && forall i :: 0 <= i < |rounds| ==> rounds[i] < parent
  {
    var events := RoundEvents(parent, rounds, b, index);
    var u := Run(t, program, events, n);
    && EdgesOf(program, args, t, events, n) == RoundExpected(parent, rounds, b, index, n, p, last)
    && InnerEffect(b, index, RegionDefines(parent.op.regions), t, u)
    && (rounds != [] ==> events != [])
    && LastIs(u, b, index, if rounds == [] then last else Some(n + |events| - 1))
  }

  ghost predicate LoopStatic(program: seq<Operation>, args: map<string, Argument>, all: seq<Operation>, b: Instance,
          index: nat, op: Operation, names: set<string>) {
    && index < |all| && op == all[index] && LoopShape(op, names) && Located(program, all, b)
    && OperationFits(args, op, b.path + [index], b.enclosing, |b.iteration|) && OperationArgsFirst(op)
    && RegionArgNames(op.regions) <= args.Keys && RegionDefines(op.regions) !! names
  }

  ghost predicate LoopDynamic(args: map<string, Argument>, op: Operation, b: Instance, index: nat, rounds: seq<Round>,
          p: Prov, t: Tables, last: Option<nat>) {
    Follows(p, t, b, args) && AheadRounds(t, op, b, rounds) && ControlInScope(b.enclosing, p, args)
        && FreshRounds(t, b, index, rounds) && LastIs(t, b, index, last)
  }

  /** Everything the body of the first round needs. */
  lemma {:induction false} BodyReady(program: seq<Operation>, args: map<string, Argument>, all: seq<Operation>,
          b: Instance, index: nat, op: Operation, rounds: seq<Round>, p: Prov, t: Tables, last: Option<nat>,
          inner: Instance, q: Prov)
    requires LoopStatic(program, args, all, b, index, op, p.Keys) && LoopDynamic(args, op, b, index, rounds, p, t, last)
    requires rounds != []
    requires inner == InLoop(b, index, op, rounds[0].value) && q == RoundProv(p, op, last)
    ensures
      var ops := op.regions[0].operations;
      Static(program, args, ops, ops, inner, 0, q.Keys) && Dynamic(args, inner, 0, q, t, ArgNames(ops))
    ensures p.Keys <= q.Keys && ScopedOperations(op.regions[0].operations, q.Keys)
    ensures Prefix(b.iteration, inner.iteration)
    ensures inner.enclosing != []
    ensures YieldKey(inner.key, inner.enclosing[|inner.enclosing| - 1], inner.iteration) == RegionKey(b, index)
  {
    EnteredHere(args, op, 0);
    hide Located, OperationFits, OperationArgsFirst, Static, Dynamic, RoundProv, ScopedOperations, FreshRounds,
        LastIs, Follows, AheadRounds, ControlInScope, ArgNames, RegionArgNames, RegionDefines;
    RoundReady(op, args, b, index, rounds, p, t, last);
    StaticInside(program, args, all, b, index, 0, inner, q.Keys);
  }

  /** The state between the first round and the rest. */
  ghost predicate Between(program: seq<Operation>, args: map<string, Argument>, parent: Node, rounds: seq<Round>,
          b: Instance, index: nat, n: nat, p: Prov, t: Tables, last: Option<nat>, inner: Instance, q: Prov,
          events: seq<Event>, u: Tables, m: nat, done: Option<nat>) {
    && parent.Looped? && parent.op.regions != [] && rounds != []
    && inner == InLoop(b, index, parent.op, rounds[0].value) && q == RoundProv(p, parent.op, last)
    && events == EventsOf(rounds[0].body, inner, 0) && u == Run(t, program, events, n) && events != []
    && m == n + |events| && done == Some(m - 1)
    && EdgesOf(program, args, t, events, n) == Expected(rounds[0].body, inner, 0, n, q)
    && InnerEffect(b, index, RegionDefines(parent.op.regions), t, u) && LastIs(u, b, index, done)
  }

  lemma {:induction false} FirstRound(program: seq<Operation>, args: map<string, Argument>, parent: Node,
          rounds: seq<Round>, all: seq<Operation>, b: Instance, index: nat, n: nat, p: Prov, t: Tables,
          last: Option<nat>)
    returns (inner: Instance, q: Prov, events: seq<Event>, u: Tables, m: nat, done: Option<nat>)
    requires parent.Looped? && parent.op.regions != [] && rounds != [] && rounds[0] < parent
    requires LoopStatic(program, args, all, b, index, parent.op, p.Keys)
    requires LoopDynamic(args, parent.op, b, index, rounds, p, t, last)
    requires NodesFit(rounds[0].body, parent.op.regions[0].operations) && DistinctRounds(rounds)
    ensures Between(program, args, parent, rounds, b, index, n, p, t, last, inner, q, events, u, m, done)
    ensures LoopDynamic(args, parent.op, b, index, rounds[1..], p, u, done) && DistinctRounds(rounds[1..])
    decreases parent, 0, 0
  {
    hide Between, Followed, LastIs, InnerEffect, LoopStatic, LoopDynamic, Static, Dynamic, ScopedOperations, NodesFit,
        RoundProv, InLoop, YieldKey, EndsYielded, EventsOf, Run, EdgesOf, Expected, Prefix, UsesFit, Effect;
    var op, ops, body := parent.op, parent.op.regions[0].operations, rounds[0].body;
    inner, q := InLoop(b, index, op, rounds[0].value), RoundProv(p, op, last);
    BodyReady(program, args, all, b, index, op, rounds, p, t, last, inner, q);
    FollowNodes(program, args, body, ops, ops, inner, 0, n, q, t);
    events := EventsOf(body, inner, 0);
    u, m := Run(t, program, events, n), n + |events|;
    RoundDone(program, args, parent, rounds, all, b, index, n, p, t, last, inner, q, events, u);
    var before: nat := m - 1;
    done := Some(before);
    FollowedEdges(program, args, body, inner, n, q, t, Defines(ops));
    hide LoopStatic, Followed, EdgesOf, Expected;
    BetweenRounds(program, args, parent, rounds, b, index, n, p, t, last, inner, q, events, u, m, done);
  }

  lemma {:induction false} BetweenRounds(program: seq<Operation>, args: map<string, Argument>, parent: Node,
          rounds: seq<Round>, b: Instance, index: nat, n: nat, p: Prov, t: Tables, last: Option<nat>, inner: Instance,
          q: Prov, events: seq<Event>, u: Tables, m: nat, done: Option<nat>)
    requires parent.Looped? && parent.op.regions != [] && rounds != []
    requires inner == InLoop(b, index, parent.op, rounds[0].value) && q == RoundProv(p, parent.op, last)
    requires events == EventsOf(rounds[0].body, inner, 0) && u == Run(t, program, events, n) && events != []
    requires m == n + |events| && done == Some(m - 1)
    requires EdgesOf(program, args, t, events, n) == Expected(rounds[0].body, inner, 0, n, q)
    requires InnerEffect(b, index, RegionDefines(parent.op.regions), t, u) && LastIs(u, b, index, done)
    ensures Between(program, args, parent, rounds, b, index, n, p, t, last, inner, q, events, u, m, done)
  {
    hide InLoop, RoundProv, EventsOf, Run, EdgesOf, Expected, InnerEffect, LastIs;
  }

  lemma {:induction false} FollowedEdges(program: seq<Operation>, args: map<string, Argument>, nodes: seq<Node>,
          b: Instance, n: nat, p: Prov, t: Tables, results: set<string>)
    requires Followed(program, args, nodes, b, 0, n, p, t, results)
    ensures EdgesOf(program, args, t, EventsOf(nodes, b, 0), n) == Expected(nodes, b, 0, n, p)
  {
  }

  lemma {:induction false} FollowRounds(program: seq<Operation>, args: map<string, Argument>, parent: Node,
          rounds: seq<Round>, all: seq<Operation>, b: Instance, index: nat, n: nat, p: Prov, t: Tables,
          last: Option<nat>)
    requires parent.Looped? && parent.op.regions != [] && forall i :: 0 <= i < |rounds| ==> rounds[i] < parent
    requires LoopStatic(program, args, all, b, index, parent.op, p.Keys)
    requires LoopDynamic(args, parent.op, b, index, rounds, p, t, last)
    requires RoundsFit(parent, rounds, parent.op.regions[0].operations) && DistinctRounds(rounds)
    ensures RoundsFollowed(program, args, parent, rounds, b, index, n, p, t, last)
    decreases parent, 1, |rounds|
  {
    if rounds == [] {
      NoInner(b, index, RegionDefines(parent.op.regions), t);
    } else {
      assert NodesFit(rounds[0].body, parent.op.regions[0].operations)
          && RoundsFit(parent, rounds[1..], parent.op.regions[0].operations);
      hide RoundsFollowed, LoopStatic, LoopDynamic, NodesFit, RoundsFit, Between, DistinctRounds;
      var inner, q, events, u, m, done := FirstRound(program, args, parent, rounds, all, b, index, n, p, t, last);
      FollowRounds(program, args, parent, rounds[1..], all, b, index, m, p, u, done);
      RoundsJoin(program, args, parent, rounds, b, index, n, p, t, last, inner, q, events, u, m, done);
    }
  }

  lemma {:induction false} LoopBodyYields(op: Operation, body: seq<Node>, names: set<string>, more: set<string>)
    requires LoopShape(op, names) && NodesFit(body, op.regions[0].operations)
    requires ScopedOperations(op.regions[0].operations, more)
    ensures EndsYielded(body)
  {
    BodyYields(body, op.regions[0].operations, more);
  }

  /** After a round: the outer names stay right and the next rounds are fresh. */
  lemma {:induction false} RoundDone(program: seq<Operation>, args: map<string, Argument>, parent: Node,
          rounds: seq<Round>, all: seq<Operation>, b: Instance, index: nat, n: nat, p: Prov, t: Tables,
          last: Option<nat>, inner: Instance, q: Prov, events: seq<Event>, u: Tables)
    requires parent.Looped? && rounds != [] && DistinctRounds(rounds)
    requires LoopStatic(program, args, all, b, index, parent.op, p.Keys)
    requires LoopDynamic(args, parent.op, b, index, rounds, p, t, last)
    requires inner == InLoop(b, index, parent.op, rounds[0].value) && p.Keys <= q.Keys
    requires Prefix(b.iteration, inner.iteration)
    requires inner.enclosing != []
    requires YieldKey(inner.key, inner.enclosing[|inner.enclosing| - 1], inner.iteration) == RegionKey(b, index)
    requires parent.op.regions != [] && NodesFit(rounds[0].body, parent.op.regions[0].operations)
    requires ScopedOperations(parent.op.regions[0].operations, q.Keys)
    requires events == EventsOf(rounds[0].body, inner, 0) && u == Run(t, program, events, n)
    requires Followed(program, args, rounds[0].body, inner, 0, n, q, t, Defines(parent.op.regions[0].operations))
    ensures events != [] && InnerEffect(b, index, RegionDefines(parent.op.regions), t, u)
    ensures LastIs(u, b, index, Some(n + |events| - 1))
    ensures LoopDynamic(args, parent.op, b, index, rounds[1..], p, u, Some(n + |events| - 1))
    ensures DistinctRounds(rounds[1..])
  {
    LoopBodyYields(parent.op, rounds[0].body, p.Keys, q.Keys);
    RegionDefinesAt(parent.op.regions, 0);
    hide EdgesOf, Expected, EventsOf, Run, FreshRounds, NodesFit, ScopedOperations, Defines, RegionDefines, AheadRounds,
        DefsWithin, Follows, ControlInScope, SameYields;
    var results := RegionDefines(parent.op.regions);
    EffectWidens(inner, 0, Defines(parent.op.regions[0].operations), results, t, u, true);
    InsideEffect(b, inner, index, 0, results, t, u, true);
    FreshAfterRound(b, inner, index, parent.op, rounds, results, t, u);
    AheadAfterRound(t, u, parent.op, b, index, rounds, inner, results);
    InnerYields(b, index, results, t, u);
    StillFollows(p, t, u, b, index, args, results);
  }

  lemma {:induction false} InnerYields(b: Instance, index: nat, results: set<string>, t: Tables, u: Tables)
    requires InnerEffect(b, index, results, t, u)
    ensures SameYields(t, u, b, index, false) && DefsWithin(t, u, b, results)
  {
  }

  lemma {:induction false} RoundsStep(parent: Node, rounds: seq<Round>, b: Instance, index: nat, n: nat, p: Prov,
          last: Option<nat>, inner: Instance, events: seq<Event>, m: nat, done: Option<nat>)
    requires parent.Looped? && parent.op.regions != [] && rounds != []
    requires forall i :: 0 <= i < |rounds| ==> rounds[i] < parent
    requires inner == InLoop(b, index, parent.op, rounds[0].value) && events == EventsOf(rounds[0].body, inner, 0)
    requires events != []
    requires m == n + |events| && done == Some(m - 1)
    ensures RoundEvents(parent, rounds, b, index) == events + RoundEvents(parent, rounds[1..], b, index)
    ensures RoundExpected(parent, rounds, b, index, n, p, last) ==
        Expected(rounds[0].body, inner, 0, n, RoundProv(p, parent.op, last))
        + RoundExpected(parent, rounds[1..], b, index, m, p, done)
  {
    hide EventsOf, Expected, RoundProv;
  }

  /** One round and the later ones make up the loop. */
  lemma {:induction false} RoundsJoin(program: seq<Operation>, args: map<string, Argument>, parent: Node,
          rounds: seq<Round>, b: Instance, index: nat, n: nat, p: Prov, t: Tables, last: Option<nat>, inner: Instance,
          q: Prov, events: seq<Event>, u: Tables, m: nat, done: Option<nat>)
    requires forall i :: 0 <= i < |rounds| ==> rounds[i] < parent
    requires Between(program, args, parent, rounds, b, index, n, p, t, last, inner, q, events, u, m, done)
    requires RoundsFollowed(program, args, parent, rounds[1..], b, index, m, p, u, done)
    ensures RoundsFollowed(program, args, parent, rounds, b, index, n, p, t, last)
  {
    var rest := RoundEvents(parent, rounds[1..], b, index);
    hide RoundEvents, RoundExpected, Expected, EventsOf, InnerEffect, LastIs, Effect, RoundProv, InLoop, EdgesOf, Run,
        YieldKey, EndsYielded;
    RoundsStep(parent, rounds, b, index, n, p, last, inner, events, m, done);
    var first, later := Expected(rounds[0].body, inner, 0, n, q),
        RoundExpected(parent, rounds[1..], b, index, m, p, done);
    Concatenated(program, args, t, events, rest, n, m, first, later);
    InnerThen(b, index, RegionDefines(parent.op.regions), t, u, Run(u, program, rest, m));
    if rounds[1..] == [] {
      NoRounds(parent, rounds[1..], b, index);
      assert events + rest == events;
    }
  }

  lemma {:induction false} NoRounds(parent: Node, rounds: seq<Round>, b: Instance, index: nat)
    requires parent.Looped? && rounds == []
    ensures RoundEvents(parent, rounds, b, index) == []
  {
  }

  /** Right edges of two runs of events are right edges of both. */
  lemma {:induction false} Concatenated(program: seq<Operation>, args: map<string, Argument>, t: Tables, a: seq<Event>,
          c: seq<Event>, n: nat, m: nat, first: seq<set<nat>>, later: seq<set<nat>>)
    requires m == n + |a| && EdgesOf(program, args, t, a, n) == first
    requires EdgesOf(program, args, Run(t, program, a, n), c, m) == later
    ensures EdgesOf(program, args, t, a + c, n) == first + later
    ensures Run(t, program, a + c, n) == Run(Run(t, program, a, n), program, c, m)
  {
    hide EdgesOf, Run;
    EdgesConcat(program, args, t, a, c, n);
    RunConcat(t, program, a, c, n);
  }
}
