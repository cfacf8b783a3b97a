/** How tight the spans of views are: both ends of a span are bytes of the view, the check of a restored
    view accepts exactly those whose elements all lie in the buffer, and groups and buffers are in the
    order and of the size that the views give them. */
module StorageSpans {
  import opened Arithmetic
  import opened Sorting
  import opened Strides
  import opened Storage

  // ----- spans -----

  /** The first or last index of each dimension, whichever has the lower address, or the higher. */
  function Corner(shape: seq<nat>, strides: seq<int>, high: bool): (at: seq<int>)
    requires |shape| == |strides|
    ensures |at| == |shape|
  {
    if shape == [] then [] else
      var far := if high then strides[0] > 0 else strides[0] < 0;
      [if far then shape[0] - 1 else 0] + Corner(shape[1..], strides[1..], high)
  }

  lemma {:induction false} CornerIsEnd(shape: seq<nat>, strides: seq<int>, high: bool)
    requires |shape| == |strides| && !Empty(shape)
    ensures InRange(shape, Corner(shape, strides, high))
    ensures Address(strides, Corner(shape, strides, high)) ==
        if high then Highest(shape, strides) else Lowest(shape, strides)
    decreases |shape|
  {
    if shape != [] {
      var at, n, stride := Corner(shape, strides, high), shape[0], strides[0];
      assert n > 0 && !Empty(shape[1..]);
      CornerIsEnd(shape[1..], strides[1..], high);
      assert at[1..] == Corner(shape[1..], strides[1..], high);
      if stride >= 0 {
        Scale(0, n - 1, stride);
      } else {
        Scale(0, n - 1, -stride);
        assert (n - 1) * stride == -((n - 1) * -stride);
      }
    }
  }

  /** A view with elements occupies the first and the last byte of its span; an empty view spans
      nothing at its address. */
  lemma {:induction false} SpanIsTight(v: View)
    requires WellFormed(v)
    ensures forall byte :: Occupied(v, byte) ==> Low(v) <= byte < High(v)
    ensures !Empty(v.shape) ==> Occupied(v, Low(v)) && Occupied(v, High(v) - 1)
    ensures Empty(v.shape) ==> Low(v) == High(v) == v.address
  {
    forall byte | Occupied(v, byte)
      ensures Low(v) <= byte < High(v)
    {
      var at :| Occupies(v, at, byte);
      OccupiedInSpan(v, at, byte);
    }
    if !Empty(v.shape) {
      CornerIsEnd(v.shape, v.strides, false);
      CornerIsEnd(v.shape, v.strides, true);
      assert Occupies(v, Corner(v.shape, v.strides, false), Low(v));
      assert Occupies(v, Corner(v.shape, v.strides, true), High(v) - 1);
    }
  }

  /** The check of `restore_view`: it accepts exactly the descriptors that start in the buffer, or
      at its end, and whose every element lies within it. */
  lemma {:induction false} AcceptsExactly(length: int, offset: int, shape: seq<nat>, strides: seq<int>, itemsize: nat)
    requires |shape| == |strides| && itemsize > 0
    ensures Accepts(length, offset, shape, strides, itemsize) <==>
        && 0 <= offset <= length
        && forall at :: InRange(shape, at) ==>
             0 <= offset + Address(strides, at) && offset + Address(strides, at) + itemsize <= length
  {
    if Empty(shape) {
      assert forall at :: !InRange(shape, at);
    } else {
      CornerIsEnd(shape, strides, false);
      CornerIsEnd(shape, strides, true);
      forall at | InRange(shape, at)
        ensures Lowest(shape, strides) <= Address(strides, at) <= Highest(shape, strides)
      {
        AddressWithin(shape, strides, at);
      }
    }
  }

  // ----- groups -----

  /** Groups stand in the order of their first views, and views in a group in input order. */
  lemma {:induction false} GroupsInInputOrder(groups: seq<Group>, inputs: seq<View>)
    requires Partition(groups, inputs)
    ensures forall g, n, k :: 0 <= g < |groups| && 0 <= n < k < |groups[g].members| ==>
        groups[g].members[n] < groups[g].members[k]
    ensures forall g, h :: 0 <= g < h < |groups| ==>
        groups[g].members != [] && groups[h].members != [] && groups[g].members[0] < groups[h].members[0]
  {
    forall g, n, k | 0 <= g < |groups| && 0 <= n < k < |groups[g].members|
      ensures groups[g].members[n] < groups[g].members[k]
    {
      var members := groups[g].members;
      assert Pairwise(Differ, members) && SortedBy(IndexPrecedes, members);
      assert Differ(members[n], members[k]) && IndexPrecedes(members[n], members[k]);
    }
    forall g, h | 0 <= g < h < |groups|
      ensures groups[g].members != [] && groups[h].members != []
      ensures groups[g].members[0] < groups[h].members[0]
    {
      assert Spans(groups[g], inputs) && Spans(groups[h], inputs);
      assert Storage.Apart(groups[g], groups[h]) && GroupPrecedes(groups[g], groups[h]);
      assert groups[g].members[0] in groups[g].members && groups[h].members[0] in groups[h].members;
    }
  }

  /** The flag says that two different objects ended up in one buffer. */
  lemma {:induction false} SharedExactly(groups: seq<Group>, inputs: seq<View>)
    requires Partition(groups, inputs)
    ensures Shared(groups, inputs) <==>
        exists g, i, j :: 0 <= g < |groups| && i in groups[g].members && j in groups[g].members && i < |inputs|
          && j < |inputs| && inputs[i].id != inputs[j].id
  {
    if g, i, j :| (0 <= g < |groups| && i in groups[g].members && j in groups[g].members && i < |inputs|
                   && j < |inputs| && inputs[i].id != inputs[j].id) {
      var n :| 0 <= n < |groups[g].members| && groups[g].members[n] == i;
      var k :| 0 <= k < |groups[g].members| && groups[g].members[k] == j;
    }
  }

  lemma {:induction false} LargestExact(inputs: seq<View>, members: seq<nat>)
    requires forall n :: 0 <= n < |members| ==> members[n] < |inputs|
    ensures forall n :: 0 <= n < |members| ==> inputs[members[n]].itemsize <= Largest(inputs, members)
    ensures members != [] ==> exists n :: 0 <= n < |members| && inputs[members[n]].itemsize == Largest(inputs, members)
    decreases |members|
  {
    if members != [] {
      var rest := members[1..];
      assert forall n :: 0 <= n < |rest| ==> rest[n] == members[n + 1];
      LargestExact(inputs, rest);
      forall n | 0 <= n < |members|
        ensures inputs[members[n]].itemsize <= Largest(inputs, members)
      {
        assert n > 0 ==> members[n] == rest[n - 1];
      }
      if Largest(inputs, members) == inputs[members[0]].itemsize {
      } else {
        assert rest != [];
        var n :| 0 <= n < |rest| && inputs[rest[n]].itemsize == Largest(inputs, rest);
        assert members[n + 1] == rest[n];
      }
    }
  }

  /** A buffer is as long as its group's span, or as its largest item where that is longer. */
  lemma {:induction false} BufferSizeExact(g: Group, inputs: seq<View>)
    requires Spans(g, inputs)
    ensures
      var size := BufferSize(g, inputs);
      && size >= g.high - g.low && (forall m :: m in g.members ==> size >= inputs[m].itemsize)
      && (size == g.high - g.low || exists m :: m in g.members && size == inputs[m].itemsize)
  {
    LargestExact(inputs, g.members);
    forall m | m in g.members
      ensures Largest(inputs, g.members) >= inputs[m].itemsize
    {
      var n :| 0 <= n < |g.members| && g.members[n] == m;
    }
    var n :| 0 <= n < |g.members| && inputs[g.members[n]].itemsize == Largest(inputs, g.members);
    assert g.members[n] in g.members;
  }
}
