/** When a slice exists: on the trace of successful launches no two events have the same location,
    key and iteration, so the slice of every event exists and starts there. */
module SliceExists {
  import opened Wrappers
  import opened Ssa
  import opened Interpreter
  import opened Scoping
  import opened Slicing
  import opened SlicingCorrect
  import opened SliceTheorem
  import opened BackwardSlice

  /** No two events are the same execution of one operation. */
  ghost predicate AllApart(events: seq<Event>) {
    forall i, j :: 0 <= i < j < |events| ==> EventsApart(events[i], events[j])
  }

  ghost predicate EventsApart(a: Event, b: Event) {
    a.key != b.key || a.location != b.location || a.iteration != b.iteration
  }

  /** Every event belongs to operation `index` or later of the block instance. */
  ghost predicate AllUnder(events: seq<Event>, b: Instance, index: nat) {
    forall i :: 0 <= i < |events| ==>
        events[i].key == b.key && Below(events[i].location, b.path, index) && Prefix(b.iteration, events[i].iteration)
  }

  /** Every event belongs to a region of operation `index`. */
  ghost predicate AllInside(events: seq<Event>, b: Instance, index: nat) {
    forall i :: 0 <= i < |events| ==>
        && events[i].key == b.key && |events[i].location| > |b.path| + 1
        && events[i].location[..|b.path|] == b.path && events[i].location[|b.path|] == index
        && Prefix(b.iteration, events[i].iteration)
  }

  lemma {:induction false} UnderInside(events: seq<Event>, b: Instance, index: nat, region: nat, inner: Instance)
    requires AllUnder(events, inner, 0) && inner.key == b.key && inner.path == b.path + [index, region]
    requires Prefix(b.iteration, inner.iteration)
    ensures AllInside(events, b, index)
  {
    forall i | 0 <= i < |events|
      ensures |events[i].location| > |b.path| + 1 && events[i].location[..|b.path|] == b.path
      ensures events[i].location[|b.path|] == index && Prefix(b.iteration, events[i].iteration)
    {
      var l := events[i].location;
      assert l[..|inner.path|] == inner.path;
      assert l[..|b.path|] == inner.path[..|b.path|] == b.path && l[|b.path|] == inner.path[|b.path|];
      PrefixTrans(b.iteration, inner.iteration, events[i].iteration);
    }
  }

  lemma {:induction false} ApartConcat(a: seq<Event>, c: seq<Event>)
    requires AllApart(a) && AllApart(c)
    requires forall i, j :: 0 <= i < |a| && 0 <= j < |c| ==> EventsApart(a[i], c[j])
    ensures AllApart(a + c)
  {
    hide EventsApart;
    var all := a + c;
    forall i, j | 0 <= i < j < |all|
      ensures EventsApart(all[i], all[j])
    {
      if j < |a| {
        assert all[i] == a[i] && all[j] == a[j];
      } else if i < |a| {
        assert all[i] == a[i] && all[j] == c[j - |a|];
      } else {
        assert all[i] == c[i - |a|] && all[j] == c[j - |a|];
      }
    }
  }

  lemma {:induction false} NodesApart(nodes: seq<Node>, ops: seq<Operation>, b: Instance, index: nat)
    requires NodesFit(nodes, ops)
    ensures AllApart(EventsOf(nodes, b, index)) && AllUnder(EventsOf(nodes, b, index), b, index)
    decreases nodes, 1, 0
  {
    FitStep(nodes, ops);
    if nodes != [] {
      var inner, own, rest := InnerEvents(nodes[0], b, index),
          [Event(b.key, b.path + [index], nodes[0].op, b.iteration)], EventsOf(nodes[1..], b, index + 1);
      NodeApart(nodes[0], ops[0], b, index);
      if ops[0].opcode.Yield? {
        assert nodes[1..] == [] && rest == [];
      } else {
        NodesApart(nodes[1..], ops[1..], b, index + 1);
      }
      EventsStep(nodes, b, index);
      hide EventsOf, InnerEvents, NodesFit, NodeFits;
      OwnApart(inner, own, rest, b, index);
    }
  }

  lemma {:induction false} OwnApart(inner: seq<Event>, own: seq<Event>, rest: seq<Event>, b: Instance, index: nat)
    requires AllApart(inner) && AllApart(rest) && AllInside(inner, b, index) && AllUnder(rest, b, index + 1)
    requires |own| == 1 && own[0].key == b.key && own[0].location == b.path + [index]
    requires own[0].iteration == b.iteration
    ensures AllApart(inner + own + rest) && AllUnder(inner + own + rest, b, index)
  {
    var at := b.path + [index];
    assert at[..|b.path|] == b.path && b.iteration[..|b.iteration|] == b.iteration;
    ApartConcat(inner, own);
    var first := inner + own;
    forall i, j | 0 <= i < |first| && 0 <= j < |rest|
      ensures EventsApart(first[i], rest[j])
    {
      assert first[i].location[|b.path|] == index;
    }
    ApartConcat(first, rest);
    var all := first + rest;
    forall i | 0 <= i < |all|
      ensures all[i].key == b.key && Below(all[i].location, b.path, index) && Prefix(b.iteration, all[i].iteration)
    {
      if i >= |first| {
        assert all[i] == rest[i - |first|];
      } else {
        assert all[i] == first[i];
      }
    }
  }

  lemma {:induction false} NodeApart(node: Node, op: Operation, b: Instance, index: nat)
    requires NodeFits(node, op)
    ensures AllApart(InnerEvents(node, b, index)) && AllInside(InnerEvents(node, b, index), b, index)
    decreases node, 1, 0
  {
    match node
    case Simple(_) =>
    case Looped(_, rounds) => RoundsApart(node, rounds, op.regions[0].operations, b, index);
    case Branched(_, arm) =>
      if arm.Some? {
        var inner := InArm(b, index, op, arm.value.region);
        NodesApart(arm.value.body, op.regions[arm.value.region].operations, inner, 0);
        assert b.iteration[..|b.iteration|] == b.iteration;
        UnderInside(EventsOf(arm.value.body, inner, 0), b, index, arm.value.region, inner);
      }
  }

  /** Every event carries, after the iteration of the block, the value of one of the rounds. */
  ghost predicate AllOfRounds(events: seq<Event>, rounds: seq<Round>, b: Instance) {
    forall i :: 0 <= i < |events| ==>
        && |events[i].iteration| > |b.iteration|
        && exists r :: 0 <= r < |rounds| && rounds[r].value == events[i].iteration[|b.iteration|]
  }

  lemma {:induction false} RoundsApart(parent: Node, rounds: seq<Round>, ops: seq<Operation>, b: Instance, index: nat)
    requires parent.Looped? && (forall i :: 0 <= i < |rounds| ==> rounds[i] < parent)
    requires RoundsFit(parent, rounds, ops) && DistinctRounds(rounds)
    ensures AllApart(RoundEvents(parent, rounds, b, index))
    ensures AllInside(RoundEvents(parent, rounds, b, index), b, index)
    ensures AllOfRounds(RoundEvents(parent, rounds, b, index), rounds, b)
    decreases parent, 0, |rounds|
  {
    if rounds != [] {
      var inner := InLoop(b, index, parent.op, rounds[0].value);
      var first, rest := EventsOf(rounds[0].body, inner, 0), RoundEvents(parent, rounds[1..], b, index);
      NodesApart(rounds[0].body, ops, inner, 0);
      assert inner.iteration[..|b.iteration|] == b.iteration;
      UnderInside(first, b, index, 0, inner);
      assert forall i :: 0 <= i < |rounds[1..]| ==> rounds[1..][i] == rounds[i + 1];
      RoundsApart(parent, rounds[1..], ops, b, index);
      hide EventsOf, RoundEvents, NodesFit, RoundsFit;
      FirstApart(first, rest, rounds, b, inner, index);
      RoundEventsStep(parent, rounds, b, index);
    }
  }

  lemma {:induction false} RoundEventsStep(parent: Node, rounds: seq<Round>, b: Instance, index: nat)
    requires parent.Looped? && (forall i :: 0 <= i < |rounds| ==> rounds[i] < parent) && rounds != []
    ensures RoundEvents(parent, rounds, b, index) ==
        EventsOf(rounds[0].body, InLoop(b, index, parent.op, rounds[0].value), 0)
        + RoundEvents(parent, rounds[1..], b, index)
  {
  }

  lemma {:induction false} FirstApart(first: seq<Event>, rest: seq<Event>, rounds: seq<Round>, b: Instance,
          inner: Instance, index: nat)
    requires rounds != [] && DistinctRounds(rounds) && AllApart(first) && AllApart(rest)
    requires AllInside(first, b, index) && AllInside(rest, b, index) && AllOfRounds(rest, rounds[1..], b)
    requires AllUnder(first, inner, 0) && inner.iteration == b.iteration + [rounds[0].value]
    ensures AllApart(first + rest) && AllInside(first + rest, b, index) && AllOfRounds(first + rest, rounds, b)
  {
    var all, n := first + rest, |b.iteration|;
    forall i | 0 <= i < |first|
      ensures |first[i].iteration| > n && first[i].iteration[n] == rounds[0].value
    {
      assert first[i].iteration[..|inner.iteration|] == inner.iteration;
      assert first[i].iteration[n] == inner.iteration[n];
    }
    forall j | 0 <= j < |rest|
      ensures |rest[j].iteration| > n && rest[j].iteration[n] != rounds[0].value
      ensures exists r :: 0 <= r < |rounds| && rounds[r].value == rest[j].iteration[n]
    {
      var r :| 0 <= r < |rounds[1..]| && rounds[1..][r].value == rest[j].iteration[n];
      assert rounds[r + 1] == rounds[1..][r];
    }
    ApartConcat(first, rest);
    forall i | 0 <= i < |all|
      ensures |all[i].iteration| > n
      ensures exists r :: 0 <= r < |rounds| && rounds[r].value == all[i].iteration[n]
    {
      if i < |first| {
        assert all[i] == first[i] && rounds[0].value == all[i].iteration[n];
      } else {
        assert all[i] == rest[i - |first|];
      }
    }
  }

  // ----- whole traces -----

  lemma {:induction false} SegmentsApart(program: seq<Operation>, segments: seq<Segment>)
    requires (forall i :: 0 <= i < |segments| ==> NodesFit(segments[i].nodes, program)) && DistinctKeys(segments)
    ensures AllApart(Trace(segments))
    ensures forall i :: 0 <= i < |Trace(segments)| ==>
        exists s :: 0 <= s < |segments| && segments[s].key == Trace(segments)[i].key
    decreases |segments|
  {
    hide EventsOf, NodesFit;
    if segments != [] {
      var first, rest := EventsOf(segments[0].nodes, Start(segments[0].key), 0), Trace(segments[1..]);
      NodesApart(segments[0].nodes, program, Start(segments[0].key), 0);
      SegmentsApart(program, segments[1..]);
      forall j | 0 <= j < |rest|
        ensures rest[j].key != segments[0].key && exists s :: 0 <= s < |segments| && segments[s].key == rest[j].key
      {
        var s :| 0 <= s < |segments[1..]| && segments[1..][s].key == rest[j].key;
        assert segments[s + 1].key == rest[j].key;
      }
      ApartConcat(first, rest);
      forall i | 0 <= i < |first + rest|
        ensures exists s :: 0 <= s < |segments| && segments[s].key == (first + rest)[i].key
      {
        if i < |first| {
          assert segments[0].key == (first + rest)[i].key;
        } else {
          assert (first + rest)[i] == rest[i - |first|];
        }
      }
    }
  }

  /** On the trace of successful launches with keys of their own, each event is the only one with
      its location, key and iteration: observing it, a slice exists and starts at it. */
  lemma {:induction false} EveryEventHasSlice(program: seq<Operation>, launches: seq<Launch>, i: nat)
    requires Succeeds(program, launches) && i < |Trace(Executed(program, launches))|
    requires forall a, b :: 0 <= a < b < |launches| ==> launches[a].key != launches[b].key
    ensures
      var trace := Trace(Executed(program, launches));
      && (forall k :: 0 <= k < |trace| && k != i ==>
            trace[k].location != trace[i].location || trace[k].key != trace[i].key
            || trace[k].iteration != trace[i].iteration)
      && Unique(trace, trace[i], i)
  {
    var segments := Executed(program, launches);
    forall s | 0 <= s < |segments|
      ensures NodesFit(segments[s].nodes, program)
    {
      TreeFits(program, launches[s].env, launches[s].mem, launches[s].ctx);
    }
    hide NodesFit, EventsOf;
    SegmentsApart(program, segments);
    var trace := Trace(segments);
    forall k | 0 <= k < |trace| && k != i
      ensures trace[k].location != trace[i].location || trace[k].key != trace[i].key
          || trace[k].iteration != trace[i].iteration
    {
      var low, high := if k < i then k else i, if k < i then i else k;
      assert EventsApart(trace[low], trace[high]);
    }
  }
}
