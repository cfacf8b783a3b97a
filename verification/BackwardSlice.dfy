/** The backward slice of an observation: the links of every event up to it, then a
    worklist that closes the observation under them. */
module BackwardSlice {
  import opened Wrappers
  import opened Ssa
  import opened Interpreter
  import opened Scoping
  import Arithmetic
  import opened Slicing
  import opened SlicingCorrect
  import opened SliceTheorem

  const NO_TABLES: Tables := Tables(map[], map[])

  /** The loop over the trace, which fills the tables as it goes. */
  method LinkEvents(program: seq<Operation>, args: map<string, Argument>, trace: seq<Event>)
    returns (edges: seq<set<nat>>)
    ensures edges == EdgesOf(program, args, NO_TABLES, trace, 0)
  {
    hide EdgesOf, LinksOf, Record, Parents;
    var t := NO_TABLES;
    edges := [];
    assert trace[0..] == trace;
    ghost var all := EdgesOf(program, args, NO_TABLES, trace, 0);
    for n := 0 to |trace|
      invariant all == edges + EdgesOf(program, args, t, trace[n..], n)
    {
      var e := trace[n];
      var parents := Parents(program, e.location);
      assert trace[n..][0] == e && trace[n..][1..] == trace[n + 1..];
      EdgesStep(program, args, t, trace[n..], n, trace[n + 1..]);
      edges := edges + [LinksOf(e, parents, args, t)];
      t := Record(t, e, parents, n);
    }
    EdgeCount(program, args, t, trace[|trace|..], |trace|);
  }

  ghost predicate Closed(edges: seq<set<nat>>, s: set<nat>) {
    forall i, v :: i in s && i < |edges| && v in edges[i] ==> v in s
  }

  /** The least set of events that holds the start and everything its members link to. */
  method Close(edges: seq<set<nat>>, start: nat) returns (visited: set<nat>)
    requires start < |edges| && Backward(edges, 0)
    ensures start in visited && Closed(edges, visited) && (forall i :: i in visited ==> i <= start)
    ensures Least(edges, start, visited)
  {
    visited := {};
    var pending := {start};
    Began(edges, start);
    hide Visiting;
    while pending != {}
      invariant Visiting(edges, start, visited, pending)
      decreases start + 1 - |visited|, |pending|
    {
      var i :| i in pending;
      VisitStep(edges, start, visited, pending, i);
      pending := pending - {i};
      if i !in visited {
        visited := visited + {i};
        pending := pending + edges[i];
      }
    }
    Finished(edges, start, visited);
  }

  /** Whatever has been visited is linked only to what has been visited or is waiting. */
  ghost predicate Visiting(edges: seq<set<nat>>, start: nat, visited: set<nat>, pending: set<nat>) {
    && start in visited + pending && (forall i :: i in visited + pending ==> i <= start)
    && (forall i, v :: i in visited && i < |edges| && v in edges[i] ==> v in visited + pending)
    && Least(edges, start, visited + pending)
  }

  lemma {:induction false} Began(edges: seq<set<nat>>, start: nat)
    ensures Visiting(edges, start, {}, {start})
  {
    assert {} + {start} == {start};
  }

  lemma {:induction false} VisitStep(edges: seq<set<nat>>, start: nat, visited: set<nat>, pending: set<nat>, i: nat)
    requires start < |edges| && Backward(edges, 0) && Visiting(edges, start, visited, pending) && i in pending
    ensures i < |edges| && |visited| <= start + 1
    ensures i in visited ==> Visiting(edges, start, visited, pending - {i})
    ensures i !in visited ==>
        |visited + {i}| <= start + 1 && Visiting(edges, start, visited + {i}, pending - {i} + edges[i])
  {
    var all := visited + pending;
    assert i in all;
    Bound(visited, start);
    if i in visited {
      assert visited + (pending - {i}) == all;
    } else {
      Bound(visited + {i}, start);
      LeastLinks(edges, start, all, i);
      assert visited + {i} + (pending - {i} + edges[i]) == all + edges[i];
    }
  }

  lemma {:induction false} Finished(edges: seq<set<nat>>, start: nat, visited: set<nat>)
    requires Visiting(edges, start, visited, {})
    ensures start in visited && Closed(edges, visited) && (forall i :: i in visited ==> i <= start)
    ensures Least(edges, start, visited)
  {
    assert visited + {} == visited;
  }

  /** Every closed set with the start contains these. */
  ghost predicate Least(edges: seq<set<nat>>, start: nat, some: set<nat>) {
    forall s: set<nat> :: start in s && Closed(edges, s) ==> some <= s
  }

  lemma {:induction false} LeastLinks(edges: seq<set<nat>>, start: nat, some: set<nat>, i: nat)
    requires i < |edges| && i in some && Least(edges, start, some) && Backward(edges, 0)
    ensures Least(edges, start, some + edges[i]) && forall v :: v in edges[i] ==> v < i
  {
  }

  lemma {:induction false} Bound(s: set<nat>, n: nat)
    requires forall i :: i in s ==> i <= n
    ensures |s| <= n + 1
    decreases n
  {
    if n == 0 {
      assert s <= {0};
      Arithmetic.SubsetSize(s, {0});
    } else {
      Bound(s - {n}, n - 1);
      Arithmetic.SubsetSize(s, s - {n} + {n});
    }
  }

  /** `backward_slice`: the observation must name exactly one event. */
  method Slice(program: seq<Operation>, trace: seq<Event>, observed: Event)
    returns (r: Option<set<nat>>, ghost edges: seq<set<nat>>, ghost start: nat)
    ensures r.Some? <==> exists i: nat :: Unique(trace, observed, i)
    ensures r.Some? ==>
        Unique(trace, observed, start)
        && edges == EdgesOf(program, Dictionary(program), NO_TABLES, trace[..start + 1], 0)
    ensures r.Some? ==> start in r.value && Closed(edges, r.value) && (forall i :: i in r.value ==> i <= start)
    ensures r.Some? ==> Least(edges, start, r.value) && Backward(edges, 0)
  {
    var indices := Matching(trace, observed, |trace|);
    MatchingMembers(trace, observed, |trace|);
    if |indices| != 1 {
      NotUnique(trace, observed, indices);
      return None, [], 0;
    }
    var at := indices[0];
    OnlyMatch(trace, observed, indices, at);
    hide EdgesOf, Matching, Backward, Closed;
    var prefix := trace[..at + 1];
    var links := LinkEvents(program, Dictionary(program), prefix);
    NothingBelow();
    EdgesBackward(program, Dictionary(program), NO_TABLES, prefix, 0);
    EdgeCount(program, Dictionary(program), NO_TABLES, prefix, 0);
    var visited := Close(links, at);
    return Some(visited), links, at;
  }

  predicate Same(e: Event, observed: Event) {
    e.location == observed.location && e.key == observed.key && e.iteration == observed.iteration
  }

  /** Event `i` is the one event at the observed location, in the observed program, lane and iteration. */
  predicate Unique(trace: seq<Event>, observed: Event, i: nat) {
    && i < |trace|
    && forall k :: 0 <= k < |trace| ==>
         ((trace[k].location == observed.location && trace[k].key == observed.key
           && trace[k].iteration == observed.iteration) <==> k == i)
  }

  /** The events that are the observed execution of its operation. */
  function Matching(trace: seq<Event>, observed: Event, n: nat): seq<nat>
    requires n <= |trace|
  {
    if n == 0 then [] else Matching(trace, observed, n - 1) + if Same(trace[n - 1], observed) then [n - 1] else []
  }

  lemma {:induction false} MatchingMembers(trace: seq<Event>, observed: Event, n: nat)
    requires n <= |trace|
    ensures forall k: nat :: k in Matching(trace, observed, n) <==> k < n && Same(trace[k], observed)
    ensures forall a, b :: 0 <= a < b < |Matching(trace, observed, n)| ==>
        Matching(trace, observed, n)[a] < Matching(trace, observed, n)[b]
  {
    if n > 0 {
      MatchingMembers(trace, observed, n - 1);
      var before := Matching(trace, observed, n - 1);
      assert forall a :: 0 <= a < |before| ==> before[a] in before;
    }
  }

  lemma {:induction false} OnlyMatch(trace: seq<Event>, observed: Event, indices: seq<nat>, at: nat)
    requires indices == [at] && forall k: nat :: k in indices <==> k < |trace| && Same(trace[k], observed)
    ensures Unique(trace, observed, at)
  {
    assert at in indices;
    forall k | 0 <= k < |trace| && Same(trace[k], observed)
      ensures k == at
    {
      var m: nat := k;
      assert m in indices;
    }
  }

  lemma {:induction false} NotUnique(trace: seq<Event>, observed: Event, indices: seq<nat>)
    requires |indices| != 1 && (forall a, b :: 0 <= a < b < |indices| ==> indices[a] < indices[b])
    requires forall k: nat :: k in indices <==> k < |trace| && Same(trace[k], observed)
    ensures forall i: nat :: !Unique(trace, observed, i)
  {
    if |indices| > 1 {
      var first, second := indices[0], indices[1];
      assert first in indices && second in indices && first < second;
      assert Same(trace[first], observed) && Same(trace[second], observed);
    }
    forall i: nat
      ensures Unique(trace, observed, i) ==> i in indices
    {
    }
  }

  lemma {:induction false} NothingBelow()
    ensures FiledBefore(NO_TABLES, 0)
  {
  }

  lemma {:induction false} EdgeCount(program: seq<Operation>, args: map<string, Argument>, t: Tables,
          events: seq<Event>, n: nat)
    ensures |EdgesOf(program, args, t, events, n)| == |events|
    decreases |events|
  {
    if events != [] {
      EdgeCount(program, args, Record(t, events[0], Parents(program, events[0].location), n), events[1..], n + 1);
    }
  }

  // ----- traces of accepted programs -----

  /** One program and lane that the interpreter runs. */
  datatype Launch = Launch(key: nat, env: Env, mem: Memory, ctx: Context)

  ghost predicate Succeeds(program: seq<Operation>, launches: seq<Launch>) {
    forall i :: 0 <= i < |launches| ==>
        ExecOperations(program, launches[i].env, launches[i].mem, launches[i].ctx).Success?
  }

  ghost function Executed(program: seq<Operation>, launches: seq<Launch>): (r: seq<Segment>)
    requires Succeeds(program, launches)
    ensures |r| == |launches|
  {
    seq(|launches|, i requires 0 <= i < |launches| =>
        Segment(launches[i].key, TreeOf(program, launches[i].env, launches[i].mem, launches[i].ctx)))
  }

  lemma {:induction false} ScopedArgsApart(ops: seq<Operation>, visible: set<string>, names: set<string>)
    requires ScopedOperations(ops, visible) && names <= visible
    ensures ArgNames(ops) !! names
    decreases ops, 0
  {
    if ops != [] {
      RegionArgsApart(ops[0].regions, visible, names);
      ScopedArgsApart(ops[1..], visible + NameSet(ops[0].results), names);
    }
  }

  lemma {:induction false} RegionArgsApart(regions: seq<Block>, visible: set<string>, names: set<string>)
    requires (forall region :: region in regions ==> ScopedBlock(region, visible)) && names <= visible
    ensures RegionArgNames(regions) !! names
    decreases regions, 0
  {
    if regions != [] {
      assert regions[0] in regions;
      ScopedArgsApart(regions[0].operations, visible + NameSet(regions[0].args), names);
      assert forall region :: region in regions[1..] ==> region in regions;
      RegionArgsApart(regions[1..], visible, names);
    }
  }

  lemma {:induction false} AcceptedArgsFirst(program: Program)
    requires VerifyProgram(program).Success?
    ensures ArgsFirst(program.blocks[0].operations)
  {
    hide VerifyOperations;
    var block, s := program.blocks[0], EntryScope(program);
    ArgsAreFirst(block.operations, BindArguments(block.args, s).value, None);
  }

  /** On every full trace of an accepted program, over any programs and lanes, each event
      is linked to exactly the events that produced what its environment held, what
      controlled it, and its own yield; all links go strictly backward. The dictionary must
      have, for every block argument in use, the entry of its own loop or, for an induction
      value, of a loop as deep with the same bounds, which acceptance does not check. */
  lemma {:induction false} AcceptedTracesLinkRight(program: Program, launches: seq<Launch>)
    requires VerifyProgram(program).Success?
    requires var ops := program.blocks[0].operations;
             UsesFit(Dictionary(ops), ops, [], 0, [], 0) && Succeeds(ops, launches)
    requires forall i, j :: 0 <= i < j < |launches| ==> launches[i].key != launches[j].key
    ensures var ops, names := program.blocks[0].operations, Needed(program);
            var segments := Executed(ops, launches);
            && EdgesOf(ops, Dictionary(ops), NO_TABLES, Trace(segments), 0) == TraceLinks(segments, 0, EntryProv(names))
            && Backward(EdgesOf(ops, Dictionary(ops), NO_TABLES, Trace(segments), 0), 0)
  {
    hide VerifyProgram, UsesFit, Dictionary, Needed, EdgesOf, TraceLinks, EventsOf, ExecOperation;
    NeededScoped(program);
    var ops, names := program.blocks[0].operations, Needed(program);
    var segments := Executed(ops, launches);
    ScopedArgsApart(ops, names, names);
    AcceptedArgsFirst(program);
    forall i | 0 <= i < |segments|
      ensures NodesFit(segments[i].nodes, ops)
    {
      TreeFits(ops, launches[i].env, launches[i].mem, launches[i].ctx);
    }
    SegmentsFollow(ops, names, segments, 0, NO_TABLES);
    NothingBelow();
    EdgesBackward(ops, Dictionary(ops), NO_TABLES, Trace(segments), 0);
  }
}
