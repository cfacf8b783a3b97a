/** The slice that `backward_slice` takes by default: closed under the value links of a trace
    together with the read-after-write links of its memory accesses. */
module FullSlice {
  import opened Wrappers
  import opened Ssa
  import opened Slicing
  import opened SlicingCorrect
  import opened SliceTheorem
  import opened BackwardSlice
  import Memory = MemoryEdges
  import opened Dependencies

  /** Some byte that event `r` reads was last written by another event `w` of its program. */
  ghost predicate MemoryLink(memory: seq<Memory.Event>, r: nat, w: nat) {
    exists storage, b :: Memory.EdgeByte(memory, |memory|, 0, Memory.Key(r, w, storage), b)
  }

  /** Links with exactly the value links and the memory links of each event. */
  ghost predicate Joined(links: seq<set<nat>>, values: seq<set<nat>>, memory: seq<Memory.Event>) {
    && |links| == |values| == |memory|
    && forall r: nat, w: nat :: r < |links| ==> (w in links[r] <==> w in values[r] || MemoryLink(memory, r, w))
  }

  lemma {:induction false} LinkedByByte(memory: seq<Memory.Event>, o: Memory.Observed, r: nat, w: nat)
    requires r < |memory| && |o.links| == |memory|
    requires forall k, b :: Memory.EdgeCovers(o, k, b) <==> Memory.EdgeByte(memory, |memory|, 0, k, b)
    requires forall k :: k in o.edges ==> o.edges[k] != [] && Separated(o.edges[k])
    requires w in o.links[r] <==> exists storage :: Memory.Key(r, w, storage) in o.edges
    ensures w in o.links[r] <==> MemoryLink(memory, r, w)
  {
    hide Memory.EdgeByte;
    if w in o.links[r] {
      var storage :| Memory.Key(r, w, storage) in o.edges;
      var k := Memory.Key(r, w, storage);
      var b := o.edges[k][0].0;
      assert Covers(o.edges[k], b);
      assert Memory.EdgeCovers(o, k, b);
    }
    if MemoryLink(memory, r, w) {
      var storage, b :| Memory.EdgeByte(memory, |memory|, 0, Memory.Key(r, w, storage), b);
      assert Memory.EdgeCovers(o, Memory.Key(r, w, storage), b);
    }
  }

  lemma {:induction false} MemoryBackward(memory: seq<Memory.Event>, r: nat, w: nat)
    requires MemoryLink(memory, r, w)
    ensures w < r
  {
    var storage, b :| Memory.EdgeByte(memory, |memory|, 0, Memory.Key(r, w, storage), b);
    var a: nat :| a < |memory[r].memory| && Memory.ReadsFrom(memory, a, Memory.Key(r, w, storage), b);
    Memory.WriterHasRun(memory, r, a, storage, b);
  }

  lemma {:induction false} JoinedBackward(links: seq<set<nat>>, values: seq<set<nat>>, memory: seq<Memory.Event>)
    requires Joined(links, values, memory) && Backward(values, 0)
    ensures Backward(links, 0)
  {
    forall r, w | 0 <= r < |links| && w in links[r]
      ensures w < 0 + r
    {
      if w !in values[r] {
        MemoryBackward(memory, r, w);
      }
    }
  }

  /** `backward_slice`: the events of one execution of an operation, closed under the links of
      the trace up to it; its accesses are given beside each event. */
  method Slice(program: seq<Operation>, trace: seq<Event>, memory: seq<Memory.Event>, observed: Event)
    returns (r: Option<set<nat>>, ghost links: seq<set<nat>>, ghost start: nat)
    requires |memory| == |trace| && Memory.WellFormed(memory)
    ensures r.Some? <==> exists i: nat :: Unique(trace, observed, i)
    ensures r.Some? ==>
              && Unique(trace, observed, start)
              && Joined(links, EdgesOf(program, Dictionary(program), NO_TABLES, trace[..start + 1], 0),
                  memory[..start + 1])
    ensures r.Some? ==> start in r.value && Closed(links, r.value) && (forall i :: i in r.value ==> i <= start)
    ensures r.Some? ==> Least(links, start, r.value) && Backward(links, 0)
  {
    hide ArgumentsOf;
    var indices := Matching(trace, observed, |trace|);
    MatchingMembers(trace, observed, |trace|);
    if |indices| != 1 {
      NotUnique(trace, observed, indices);
      return None, [], 0;
    }
    var at := indices[0];
    OnlyMatch(trace, observed, indices, at);
    hide EdgesOf, Matching, Backward, Closed, Joined, Memory.EdgeByte, Memory.EdgeCovers, MemoryLink, Least;
    var prefix, accesses := trace[..at + 1], memory[..at + 1];
    var values := LinkEvents(program, Dictionary(program), prefix);
    var found := Memory.Edges(accesses);
    EdgeCount(program, Dictionary(program), NO_TABLES, prefix, 0);
    var all := seq(|values|, i requires 0 <= i < |values| => values[i] + found.links[i]);
    LinksJoin(values, accesses, found, all);
    NothingBelow();
    EdgesBackward(program, Dictionary(program), NO_TABLES, prefix, 0);
    JoinedBackward(all, values, accesses);
    var visited := Close(all, at);
    return Some(visited), all, at;
  }

  lemma {:induction false} LinksJoin(values: seq<set<nat>>, memory: seq<Memory.Event>, found: Memory.Observed,
          all: seq<set<nat>>)
    requires |values| == |memory| == |all| && |found.links| == |memory|
    requires forall k, b :: Memory.EdgeCovers(found, k, b) <==> Memory.EdgeByte(memory, |memory|, 0, k, b)
    requires forall k :: k in found.edges ==> found.edges[k] != [] && Separated(found.edges[k])
    requires forall r: nat, w: nat :: r < |memory| ==>
        (w in found.links[r] <==> exists storage :: Memory.Key(r, w, storage) in found.edges)
    requires forall i :: 0 <= i < |values| ==> all[i] == values[i] + found.links[i]
    ensures Joined(all, values, memory)
  {
    hide Memory.EdgeByte, Memory.EdgeCovers, MemoryLink;
    forall r: nat, w: nat | r < |all|
      ensures w in all[r] <==> w in values[r] || MemoryLink(memory, r, w)
    {
      LinkedByByte(memory, found, r, w);
    }
  }
}
