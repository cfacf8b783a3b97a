/** Backward slices over execution traces: an operand is linked to the event that produced
    the value the environment held. */
module Slicing {
  import opened Wrappers
  import opened Ssa
  import opened Interpreter
  import opened Scoping
  import Arithmetic

  // ----- executions and their traces -----

  /** A position in the program: operation index, region index, operation index, ... */
  type Location = seq<nat>

  /** One executed operation. `key` stands for the program and the lane. */
  datatype Event = Event(key: nat, location: Location, op: Operation, iteration: seq<int>)

  /** What ran: the operations of a block in order, with the rounds of every loop and the
      region that a branch took. */
  datatype Node =
    | Simple(op: Operation)
    | Looped(op: Operation, rounds: seq<Round>)
    | Branched(op: Operation, arm: Option<Arm>)

  datatype Round = Round(value: int, body: seq<Node>)
  datatype Arm = Arm(region: nat, body: seq<Node>)

  /** An operation that encloses a region, with the loop depth inside it. */
  datatype Parent = Parent(location: Location, op: Operation, depth: nat)

  /** A block being executed once. */
  datatype Instance = Instance(key: nat, path: Location, iteration: seq<int>, enclosing: seq<Parent>)

  function InLoop(b: Instance, index: nat, op: Operation, value: int): Instance {
    Instance(b.key, b.path + [index, 0], b.iteration + [value],
        b.enclosing + [Parent(b.path + [index], op, |b.iteration| + 1)])
  }

  function InArm(b: Instance, index: nat, op: Operation, region: nat): Instance {
    Instance(b.key, b.path + [index, region], b.iteration, b.enclosing + [Parent(b.path + [index], op, |b.iteration|)])
  }

  function EventsOf(nodes: seq<Node>, b: Instance, index: nat): seq<Event>
    decreases nodes, 1, 0
  {
    if nodes == [] then []
    else
      InnerEvents(nodes[0], b, index) + [Event(b.key, b.path + [index], nodes[0].op, b.iteration)]
      + EventsOf(nodes[1..], b, index + 1)
  }

  /** A region's events precede the event of the operation that owns it. */
  function InnerEvents(node: Node, b: Instance, index: nat): seq<Event>
    decreases node, 1, 0
  {
    match node
    case Simple(_) => []
    case Looped(op, rounds) => RoundEvents(node, rounds, b, index)
    case Branched(op, arm) => if arm.None? then []
        else EventsOf(arm.value.body, InArm(b, index, op, arm.value.region), 0)
  }

  function RoundEvents(parent: Node, rounds: seq<Round>, b: Instance, index: nat): seq<Event>
    requires parent.Looped? && forall i :: 0 <= i < |rounds| ==> rounds[i] < parent
    decreases parent, 0, |rounds|
  {
    if rounds == [] then []
    else
      EventsOf(rounds[0].body, InLoop(b, index, parent.op, rounds[0].value), 0)
      + RoundEvents(parent, rounds[1..], b, index)
  }

  /** The nodes execute the operations: a block stops at its yield. */
  predicate NodesFit(nodes: seq<Node>, ops: seq<Operation>)
    decreases nodes, 1, 0
  {
    if ops == [] then nodes == []
    else
      && nodes != [] && NodeFits(nodes[0], ops[0])
      && if ops[0].opcode.Yield? then |nodes| == 1 else NodesFit(nodes[1..], ops[1..])
  }

  predicate NodeFits(node: Node, op: Operation)
    decreases node, 1, 0
  {
    && node.op == op
    && match node
       case Simple(_) => !op.opcode.For? && !op.opcode.If?
       case Looped(_, rounds) =>
           op.opcode.For? && |op.regions| > 0 && RoundsFit(node, rounds, op.regions[0].operations)
           && DistinctRounds(rounds)
       case Branched(_, arm) =>
           op.opcode.If? && (arm.Some? ==>
           arm.value.region < |op.regions| && NodesFit(arm.value.body, op.regions[arm.value.region].operations))
  }

  predicate RoundsFit(parent: Node, rounds: seq<Round>, ops: seq<Operation>)
    requires forall i :: 0 <= i < |rounds| ==> rounds[i] < parent
    decreases parent, 0, |rounds|
  {
    rounds == [] || (NodesFit(rounds[0].body, ops) && RoundsFit(parent, rounds[1..], ops))
  }

  /** The induction values of a loop differ. */
  predicate DistinctRounds(rounds: seq<Round>) {
    forall i, j :: 0 <= i < j < |rounds| ==> rounds[i].value != rounds[j].value
  }

  // ----- the slicer's tables -----

  /** Where a block argument is declared. */
  datatype Argument = Argument(location: Location, op: Operation, position: nat, depth: nat)

  datatype Origin = Origin(index: nat, iteration: seq<int>)

  datatype Tables = Tables(defs: map<(nat, string), Origin>, lastYields: map<(nat, Location, seq<int>), nat>)

  predicate Prefix<T(==)>(a: seq<T>, b: seq<T>) {
    |a| <= |b| && b[..|a|] == a
  }

  /** `resolve`: the events that a name refers to, seen from an event. */
  function Resolve(name: string, seen: set<string>, args: map<string, Argument>, t: Tables, key: nat,
          iteration: seq<int>): set<nat>
    decreases |args.Keys - seen|, 1, 0
  {
    if name in seen then {}
    else if (key, name) in t.defs && Prefix(t.defs[(key, name)].iteration, iteration) then {t.defs[(key, name)].index}
    else if name in args then
      var a := args[name];
      if a.op.opcode.For? && 1 <= a.depth <= |iteration| && |a.op.operands| >= a.position + 3 then
        assert args.Keys - (seen + {name}) < args.Keys - seen;
        Smaller(args.Keys - (seen + {name}), args.Keys - seen);
        if a.position == 0 then ResolveAll(a.op.operands[..3], seen + {name}, args, t, key, iteration)
        else if (key, a.location, iteration[..a.depth - 1]) in
            t.lastYields then {t.lastYields[(key, a.location, iteration[..a.depth - 1])]}
        else Resolve(a.op.operands[a.position + 2], seen + {name}, args, t, key, iteration)
      else {}
    else {}
  }

  function ResolveAll(names: seq<string>, seen: set<string>, args: map<string, Argument>, t: Tables, key: nat,
          iteration: seq<int>): set<nat>
    decreases |args.Keys - seen|, 2, |names|
  {
    if names == [] then {}
    else
      Resolve(names[0], seen, args, t, key, iteration)
      + ResolveAll(names[1..], seen, args, t, key, iteration)
  }

  lemma {:induction false} Smaller<T>(a: set<T>, b: set<T>)
    requires a < b
    ensures |a| < |b|
    decreases |a|
  {
    var x :| x in b && x !in a;
    Arithmetic.SubsetSize(a, b - {x});
  }

  /** The operands of the enclosing operations that decided that this event ran. */
  function ControlNames(enclosing: seq<Parent>): seq<string> {
    if enclosing == [] then []
    else
      var p := enclosing[0];
      (if p.op.opcode.For? then Take(p.op.operands, 3) else Take(p.op.operands, 1)) + ControlNames(enclosing[1..])
  }

  function Take(names: seq<string>, n: nat): seq<string> {
    if |names| <= n then names else names[..n]
  }

  /** All links of an event: its operands and store indices, what controlled it, and the
      yield of its own region. */
  function LinksOf(e: Event, parents: seq<Parent>, args: map<string, Argument>, t: Tables): set<nat> {
    ResolveAll(References(e.op) + ControlNames(parents), {}, args, t, e.key, e.iteration)
    + if e.op.regions != []
        && (e.key, e.location, e.iteration) in t.lastYields then {t.lastYields[(e.key, e.location, e.iteration)]}
        else {}
  }

  function Keys(key: nat, values: seq<Value>): set<(nat, string)> {
    set v | v in values :: (key, v.name)
  }

  function Record(t: Tables, e: Event, parents: seq<Parent>, n: nat): Tables {
    var defs := t.defs + map k | k in Keys(e.key, e.op.results) :: Origin(n, e.iteration);
    if e.op.opcode.Yield? && parents != [] then
      Tables(defs, t.lastYields[YieldKey(e.key, parents[|parents| - 1], e.iteration) := n])
    else Tables(defs, t.lastYields)
  }

  /** A loop's yield is filed without the round's own induction value. */
  function YieldKey(key: nat, parent: Parent, iteration: seq<int>): (nat, Location, seq<int>) {
    (key, parent.location, if parent.op.opcode.For?
        && 1 <= parent.depth <= |iteration| then iteration[..parent.depth - 1] else iteration)
  }

  /** `parents[location]`: the operations around a location of the program. */
  function ParentsAt(ops: seq<Operation>, at: Location, rest: seq<nat>, depth: nat, enclosing: seq<Parent>): seq<Parent>
    decreases |rest|
  {
    if |rest| < 3 || rest[0] >= |ops| || rest[1] >= |ops[rest[0]].regions| then enclosing
    else
      var op := ops[rest[0]];
      var inner := depth + if op.opcode.For? then 1 else 0;
      ParentsAt(op.regions[rest[1]].operations, at + [rest[0], rest[1]], rest[2..], inner,
          enclosing + [Parent(at + [rest[0]], op, inner)])
  }

  function Parents(program: seq<Operation>, location: Location): seq<Parent> {
    ParentsAt(program, [], location, 0, [])
  }

  /** The tables after some events, of which the first has index `n`. */
  function Run(t: Tables, program: seq<Operation>, events: seq<Event>, n: nat): Tables
    decreases |events|
  {
    if events == [] then t else Run(Record(t, events[0], Parents(program, events[0].location), n), program, events[1..],
        n + 1)
  }

  /** The links of every event, in order. */
  function EdgesOf(program: seq<Operation>, args: map<string, Argument>, t: Tables, events: seq<Event>,
          n: nat): seq<set<nat>>
    decreases |events|
  {
    if events == [] then []
    else
      var parents := Parents(program, events[0].location);
      [LinksOf(events[0], parents, args, t)]
          + EdgesOf(program, args, Record(t, events[0], parents, n), events[1..], n + 1)
  }

  lemma {:induction false} RunConcat(t: Tables, program: seq<Operation>, a: seq<Event>, b: seq<Event>, n: nat)
    ensures Run(t, program, a + b, n) == Run(Run(t, program, a, n), program, b, n + |a|)
    decreases |a|
  {
    hide Record, Parents;
    if a == [] {
      assert a + b == b;
    } else {
      assert (a + b)[0] == a[0] && (a + b)[1..] == a[1..] + b;
      RunConcat(Record(t, a[0], Parents(program, a[0].location), n), program, a[1..], b, n + 1);
    }
  }

  lemma {:induction false} EdgesConcat(program: seq<Operation>, args: map<string, Argument>, t: Tables, a: seq<Event>,
          b: seq<Event>, n: nat)
    ensures EdgesOf(program, args, t, a + b, n) == EdgesOf(program, args, t, a, n)
        + EdgesOf(program, args, Run(t, program, a, n), b, n + |a|)
    decreases |a|
  {
    hide Record, Parents, LinksOf;
    if a == [] {
      assert a + b == b;
      assert EdgesOf(program, args, t, a, n) == [];
    } else {
      var parents := Parents(program, a[0].location);
      var links, next := LinksOf(a[0], parents, args, t), Record(t, a[0], parents, n);
      EdgesConcat(program, args, next, a[1..], b, n + 1);
      var x, y := EdgesOf(program, args, next, a[1..], n + 1),
          EdgesOf(program, args, Run(next, program, a[1..], n + 1), b, n + |a|);
      EdgesStep(program, args, t, a + b, n, a[1..] + b);
      EdgesStep(program, args, t, a, n, a[1..]);
      assert Run(t, program, a, n) == Run(next, program, a[1..], n + 1);
      hide EdgesOf, Run;
      assert [links] + (x + y) == ([links] + x) + y;
    }
  }

  lemma {:induction false} EdgesStep(program: seq<Operation>, args: map<string, Argument>, t: Tables, a: seq<Event>,
          n: nat, rest: seq<Event>)
    requires a != [] && a[1..] == rest
    ensures EdgesOf(program, args, t, a, n)
         == [LinksOf(a[0], Parents(program, a[0].location), args, t)]
             + EdgesOf(program, args, Record(t, a[0], Parents(program, a[0].location), n), rest, n + 1)
  {
  }

  // ----- what the links should be -----

  /** For each name in scope the events its present value comes from. */
  type Prov = map<string, set<nat>>

  function ProvAll(p: Prov, names: seq<string>): set<nat> {
    if names == [] then {} else (if names[0] in p then p[names[0]] else {}) + ProvAll(p, names[1..])
  }

  function ProvOf(p: Prov, name: string): set<nat> {
    if name in p then p[name] else {}
  }

  function Defined(p: Prov, values: seq<Value>, n: nat): Prov {
    p + map x | x in NameSet(values) :: {n}
  }

  /** A round's names: the induction value comes from the bounds; a carried value from its
      initial operand in the first round and from the last yield later. */
  function RoundProv(p: Prov, op: Operation, last: Option<nat>): Prov
    requires op.regions != []
  {
    p + map x | x in NameSet(op.regions[0].args) ::
          var i := PositionOf(op.regions[0].args, x);
          if i == 0 then ProvAll(p, Take(op.operands, 3))
          else if last.Some? then {last.value}
          else if i + 2 < |op.operands| then ProvOf(p, op.operands[i + 2]) else {}
  }

  function PositionOf(args: seq<Value>, name: string): (i: nat)
    requires name in NameSet(args)
    ensures i < |args| && args[i].name == name
  {
    if args[0].name == name then 0 else 1 + PositionOf(args[1..], name)
  }

  /** The operation's own region ended in a yield, which is the event just before. */
  function EndsYielded(nodes: seq<Node>): bool {
    nodes != [] && nodes[|nodes| - 1].op.opcode.Yield?
  }

  function YieldedJustBefore(node: Node): bool {
    match node
    case Simple(_) => false
    case Looped(_, rounds) => rounds != [] && EndsYielded(rounds[|rounds| - 1].body)
    case Branched(_, arm) => arm.Some? && EndsYielded(arm.value.body)
  }

  function Expected(nodes: seq<Node>, b: Instance, index: nat, n: nat, p: Prov): seq<set<nat>>
    decreases nodes, 1, 0
  {
    if nodes == [] then []
    else
      var inner := InnerExpected(nodes[0], b, index, n, p);
      var at := n + |InnerEvents(nodes[0], b, index)|;
      inner + [ExpectedLinks(nodes[0], b, at, p)]
          + Expected(nodes[1..], b, index + 1, at + 1, Defined(p, nodes[0].op.results, at))
  }

  /** The links an event with index `n` should have. */
  function ExpectedLinks(node: Node, b: Instance, n: nat, p: Prov): set<nat> {
    ProvAll(p, References(node.op) + ControlNames(b.enclosing)) + if YieldedJustBefore(node) && n > 0 then {n - 1}
        else {}
  }

  function InnerExpected(node: Node, b: Instance, index: nat, n: nat, p: Prov): seq<set<nat>>
    decreases node, 1, 0
  {
    match node
    case Simple(_) => []
    case Looped(op, rounds) => if op.regions == [] then [] else RoundExpected(node, rounds, b, index, n, p, None)
    case Branched(op, arm) => if arm.None? then []
        else Expected(arm.value.body, InArm(b, index, op, arm.value.region), 0, n, p)
  }

  function RoundExpected(parent: Node, rounds: seq<Round>, b: Instance, index: nat, n: nat, p: Prov,
          last: Option<nat>): seq<set<nat>>
    requires parent.Looped? && parent.op.regions != [] && forall i :: 0 <= i < |rounds| ==> rounds[i] < parent
    decreases parent, 0, |rounds|
  {
    if rounds == [] then []
    else
      var inner := InLoop(b, index, parent.op, rounds[0].value);
      var next := n + |EventsOf(rounds[0].body, inner, 0)|;
      Expected(rounds[0].body, inner, 0, n, RoundProv(p, parent.op, last))
      + RoundExpected(parent, rounds[1..], b, index, next, p, if next > 0 then Some(next - 1) else None)
  }
}
