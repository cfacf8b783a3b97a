/** Byte intervals with their last writer, kept sorted and disjoint by splicing. */
module Intervals {
  import opened Wrappers
  import opened Sorting

  datatype Interval = Interval(start: int, end: int, writer: nat)

  predicate Precedes(a: Interval, b: Interval) {
    a.start < b.start || (a.start == b.start && (a.end < b.end || (a.end == b.end && a.writer <= b.writer)))
  }

  // ----- the byte map an interval list stands for -----

  predicate Disjoint(s: seq<Interval>) {
    && (forall i :: 0 <= i < |s| ==> s[i].start < s[i].end)
    && (forall i, j :: 0 <= i < j < |s| ==> s[i].end <= s[j].start)
  }

  function WriterAt(s: seq<Interval>, b: int): Option<nat> {
    if s == [] then None
    else if s[0].start <= b < s[0].end then Some(s[0].writer)
    else WriterAt(s[1..], b)
  }

  lemma {:induction false} WriterAtIndex(s: seq<Interval>, b: int, i: nat)
    requires Disjoint(s) && i < |s| && s[i].start <= b < s[i].end
    ensures WriterAt(s, b) == Some(s[i].writer)
  {
    if i > 0 {
      WriterAtIndex(s[1..], b, i - 1);
    }
  }

  lemma {:induction false} WriterAtNone(s: seq<Interval>, b: int)
    requires forall i :: 0 <= i < |s| ==> !(s[i].start <= b < s[i].end)
    ensures WriterAt(s, b) == None
  {
    if s != [] {
      WriterAtNone(s[1..], b);
    }
  }

  lemma {:induction false} WriterAtConcat(s: seq<Interval>, t: seq<Interval>, b: int)
    ensures WriterAt(s + t, b) == if WriterAt(s, b).Some? then WriterAt(s, b) else WriterAt(t, b)
  {
    if s == [] {
      assert s + t == t;
    } else {
      assert (s + t)[0] == s[0] && (s + t)[1..] == s[1..] + t;
      WriterAtConcat(s[1..], t, b);
    }
  }

  /** The piece of one interval inside [start, end), if any. */
  function Clip(x: Interval, start: int, end: int): seq<Interval> {
    var low, high := if x.start < start then start else x.start, if x.end > end then end else x.end;
    if low < high then [Interval(low, high, x.writer)] else []
  }

  function Clipped(s: seq<Interval>, start: int, end: int): seq<Interval> {
    if s == [] then [] else Clip(s[0], start, end) + Clipped(s[1..], start, end)
  }

  predicate Inside(s: seq<Interval>, start: int, end: int) {
    forall i :: 0 <= i < |s| ==> start <= s[i].start && s[i].end <= end
  }

  lemma {:induction false} DisjointCons(x: Interval, s: seq<Interval>, start: int, end: int)
    requires Disjoint(s) && Inside(s, x.end, end) && start <= x.start < x.end <= end
    ensures Disjoint([x] + s) && Inside([x] + s, start, end)
  {
  }

  lemma {:induction false} ClippedFrom(s: seq<Interval>, start: int, end: int, low: int)
    requires low <= start || forall i :: 0 <= i < |s| ==> low <= s[i].start
    ensures Inside(Clipped(s, start, end), low, end)
  {
    if s != [] {
      ClippedFrom(s[1..], start, end, low);
      var clip, rest := Clip(s[0], start, end), Clipped(s[1..], start, end);
      assert Inside(clip, low, end);
      assert Inside(clip + rest, low, end);
    }
  }

  lemma {:induction false} ClippedBounds(s: seq<Interval>, start: int, end: int)
    requires Disjoint(s)
    ensures Disjoint(Clipped(s, start, end)) && Inside(Clipped(s, start, end), start, end)
  {
    ClippedFrom(s, start, end, start);
    if s != [] {
      ClippedBounds(s[1..], start, end);
      var clip, rest := Clip(s[0], start, end), Clipped(s[1..], start, end);
      assert forall i :: 0 <= i < |s[1..]| ==> s[0].end <= s[1..][i].start;
      ClippedFrom(s[1..], start, end, s[0].end);
      assert Clipped(s, start, end) == clip + rest;
      hide Clipped, Disjoint;
      if clip == [] {
        assert clip + rest == rest;
      } else {
        assert Inside(rest, clip[0].end, end);
        DisjointCons(clip[0], rest, start, end);
        assert clip + rest == [clip[0]] + rest;
      }
    }
  }

  lemma {:induction false} ClipWriter(x: Interval, rest: seq<Interval>, start: int, end: int, b: int)
    ensures WriterAt(Clip(x, start, end) + rest, b) == if start <= b < end && x.start <= b < x.end then Some(x.writer)
        else WriterAt(rest, b)
  {
    var clip := Clip(x, start, end);
    if clip == [] {
      assert clip + rest == rest;
    } else {
      assert (clip + rest)[0] == clip[0] && (clip + rest)[1..] == rest;
    }
  }

  /** Clipping restricts the byte map to [start, end) and keeps it sorted and disjoint. */
  lemma {:induction false} ClippedWriter(s: seq<Interval>, start: int, end: int, b: int)
    ensures WriterAt(Clipped(s, start, end), b) == if start <= b < end then WriterAt(s, b) else None
  {
    if s != [] {
      ClippedWriter(s[1..], start, end, b);
      ClipWriter(s[0], Clipped(s[1..], start, end), start, end, b);
    }
  }

  lemma {:induction false} ClippedConcat(s: seq<Interval>, t: seq<Interval>, start: int, end: int)
    ensures Clipped(s + t, start, end) == Clipped(s, start, end) + Clipped(t, start, end)
  {
    if s == [] {
      assert s + t == t;
    } else {
      assert (s + t)[0] == s[0] && (s + t)[1..] == s[1..] + t;
      ClippedConcat(s[1..], t, start, end);
    }
  }

  lemma {:induction false} ClippedOutside(s: seq<Interval>, start: int, end: int)
    requires forall i :: 0 <= i < |s| ==> s[i].end <= start || s[i].start >= end
    ensures Clipped(s, start, end) == []
  {
    if s != [] {
      ClippedOutside(s[1..], start, end);
    }
  }

  /** The last of `writes` that covers byte `b`. */
  function LastWriter(writes: seq<Interval>, b: int): Option<nat>
    decreases |writes|
  {
    if writes == [] then None
    else
      var last := writes[|writes| - 1];
      if last.start <= b < last.end then Some(last.writer) else LastWriter(writes[..|writes| - 1], b)
  }

  // ----- overwriting -----

  /** What a write of [start, end) leaves of the intervals it meets, below and above it. */
  function LeftPiece(met: seq<Interval>, start: int): seq<Interval> {
    if met != [] && met[0].start < start then [Interval(met[0].start, start, met[0].writer)] else []
  }

  function RightPiece(met: seq<Interval>, end: int): seq<Interval> {
    if met != [] && met[|met| - 1].end > end then [Interval(end, met[|met| - 1].end, met[|met| - 1].writer)] else []
  }

  predicate Meets(met: seq<Interval>, start: int, end: int) {
    forall i :: 0 <= i < |met| ==> met[i].end > start && met[i].start < end
  }

  lemma {:induction false} LeftWriter(met: seq<Interval>, start: int, end: int, b: int)
    requires Disjoint(met) && Meets(met, start, end) && b < start
    ensures WriterAt(LeftPiece(met, start), b) == WriterAt(met, b)
  {
    if met != [] {
      assert forall i :: 0 <= i < |met[1..]| ==> met[1..][i].start >= met[0].end > start;
      WriterAtNone(met[1..], b);
    }
  }

  lemma {:induction false} RightWriter(met: seq<Interval>, start: int, end: int, b: int)
    requires Disjoint(met) && Meets(met, start, end) && b >= end
    ensures WriterAt(RightPiece(met, end), b) == WriterAt(met, b)
  {
    if met != [] {
      var n := |met| - 1;
      forall i | 0 <= i < n
        ensures met[..n][i].end < end
      {
        assert met[i].end <= met[n].start;
      }
      WriterAtNone(met[..n], b);
      assert met == met[..n] + [met[n]];
      WriterAtConcat(met[..n], [met[n]], b);
    }
  }

  /** The list after a write: untouched, left piece, new interval, right piece, untouched. */
  function Spliced(before: seq<Interval>, met: seq<Interval>, after: seq<Interval>, x: Interval): seq<Interval> {
    before + LeftPiece(met, x.start) + [x] + RightPiece(met, x.end) + after
  }

  predicate Around(before: seq<Interval>, met: seq<Interval>, after: seq<Interval>, x: Interval) {
    && Disjoint(before + met + after) && x.start < x.end && Meets(met, x.start, x.end)
    && (forall i :: 0 <= i < |before| ==> before[i].end <= x.start)
    && (forall i :: 0 <= i < |after| ==> x.end <= after[i].start)
  }

  lemma {:induction false} DisjointConcat(a: seq<Interval>, b: seq<Interval>)
    ensures Disjoint(a + b) <==> Disjoint(a) && Disjoint(b) && forall i, j :: 0 <= i < |a| && 0 <= j < |b| ==>
        a[i].end <= b[j].start
  {
    var ab := a + b;
    if Disjoint(ab) {
      assert forall i :: 0 <= i < |b| ==> ab[|a| + i] == b[i];
      assert forall i :: 0 <= i < |a| ==> ab[i] == a[i];
      forall i, j | 0 <= i < |a| && 0 <= j < |b|
        ensures a[i].end <= b[j].start
      {
        assert ab[i].end <= ab[|a| + j].start;
      }
    }
  }

  lemma {:induction false} PiecesFit(before: seq<Interval>, met: seq<Interval>, after: seq<Interval>, x: Interval)
    requires Around(before, met, after, x)
    ensures Disjoint(before + LeftPiece(met, x.start))
    ensures forall i :: 0 <= i < |before + LeftPiece(met, x.start)| ==>
        (before + LeftPiece(met, x.start))[i].end <= x.start
    ensures Disjoint(RightPiece(met, x.end) + after)
    ensures forall i :: 0 <= i < |RightPiece(met, x.end) + after| ==> x.end <= (RightPiece(met, x.end) + after)[i].start
  {
    DisjointConcat(before + met, after);
    DisjointConcat(before, met);
    if met != [] {
      assert met[0] in met && met[|met| - 1] in met;
      assert forall i :: 0 <= i < |before| ==> before[i].end <= met[0].start;
      assert forall j :: 0 <= j < |after| ==> (before + met)[|before| + |met| - 1].end <= after[j].start;
      assert met[0].end > x.start && met[|met| - 1].start < x.end;
    }
    hide Meets;
    DisjointConcat(before, LeftPiece(met, x.start));
    DisjointConcat(RightPiece(met, x.end), after);
  }

  lemma {:induction false} SplicedDisjoint(before: seq<Interval>, met: seq<Interval>, after: seq<Interval>, x: Interval)
    requires Around(before, met, after, x)
    ensures Disjoint(Spliced(before, met, after, x))
  {
    PiecesFit(before, met, after, x);
    var low, high := before + LeftPiece(met, x.start), RightPiece(met, x.end) + after;
    assert Disjoint([x]) && Spliced(before, met, after, x) == low + [x] + high;
    hide LeftPiece, RightPiece, Meets, Disjoint, Spliced;
    DisjointConcat(low, [x]);
    DisjointConcat(low + [x], high);
  }

  /** A write changes the byte map on exactly its own bytes. */
  lemma {:induction false} SplicedWriter(before: seq<Interval>, met: seq<Interval>, after: seq<Interval>, x: Interval,
          b: int)
    requires Around(before, met, after, x)
    ensures WriterAt(Spliced(before, met, after, x), b) == if x.start <= b < x.end then Some(x.writer)
        else WriterAt(before + met + after, b)
  {
    var left, right := LeftPiece(met, x.start), RightPiece(met, x.end);
    WriterAtConcat(before + met, after, b);
    WriterAtConcat(before, met, b);
    WriterAtConcat(before + left + [x] + right, after, b);
    WriterAtConcat(before + left + [x], right, b);
    WriterAtConcat(before + left, [x], b);
    WriterAtConcat(before, left, b);
    DisjointConcat(before + met, after);
    DisjointConcat(before, met);
    var one := [x];
    assert one[1..] == [];
    PiecesOutside(met, x, b);
    if b >= x.start {
      WriterAtNone(before, b);
    }
    if b < x.end {
      WriterAtNone(after, b);
    }
    if b < x.start {
      LeftWriter(met, x.start, x.end, b);
    } else if b >= x.end {
      RightWriter(met, x.start, x.end, b);
    }
  }

  lemma {:induction false} PiecesOutside(met: seq<Interval>, x: Interval, b: int)
    ensures b >= x.start ==> WriterAt(LeftPiece(met, x.start), b) == None
    ensures b < x.end ==> WriterAt(RightPiece(met, x.end), b) == None
  {
  }

  lemma {:induction false} PiecesSorted(met: seq<Interval>, x: Interval)
    requires Disjoint(met) && Meets(met, x.start, x.end) && x.start < x.end
    ensures Sorted(LeftPiece(met, x.start) + RightPiece(met, x.end) + [x], Precedes) == LeftPiece(met, x.start) + [x]
        + RightPiece(met, x.end)
  {
    var left, right := LeftPiece(met, x.start), RightPiece(met, x.end);
    SortThree(left, right, x);
  }

  lemma {:induction false} SortedIsSpliced(before: seq<Interval>, met: seq<Interval>, after: seq<Interval>, x: Interval)
    requires Disjoint(met) && Meets(met, x.start, x.end) && x.start < x.end
    ensures before + Sorted(LeftPiece(met, x.start) + RightPiece(met, x.end) + [x], Precedes)
        + after == Spliced(before, met, after, x)
  {
    PiecesSorted(met, x);
    hide Sorted, Meets, LeftPiece, RightPiece, Disjoint;
  }

  lemma {:induction false} SortThree(left: seq<Interval>, right: seq<Interval>, x: Interval)
    requires |left| <= 1 && |right| <= 1 && x.start < x.end
    requires left != [] ==> left[0].start < x.start
    requires right != [] ==> right[0].start == x.end
    ensures Sorted(left + right + [x], Precedes) == left + [x] + right
  {
    SortOne(x);
    if right == [] {
      assert right + [x] == [x] && [x] + right == [x];
    } else {
      SortTwo(right[0], x);
      assert right + [x] == [right[0], x] && [x] + right == [x, right[0]];
    }
    if left == [] {
      assert left + right + [x] == right + [x] && left + [x] + right == [x] + right;
    } else {
      SortHead(left[0], right + [x], [x] + right);
      assert left + right + [x] == [left[0]] + (right + [x]) && left + [x] + right == [left[0]] + ([x] + right);
    }
  }

  lemma {:induction false} SortOne(x: Interval)
    ensures Sorted([x], Precedes) == [x]
  {
    assert [x][1..] == [];
  }

  lemma {:induction false} SortTwo(a: Interval, b: Interval)
    requires b.start < a.start
    ensures Sorted([a, b], Precedes) == [b, a]
  {
    SortOne(b);
    assert [a, b][1..] == [b] && [b][1..] == [];
    assert Insert(a, [], Precedes) == [a];
    assert Insert(a, [b], Precedes) == [b, a];
  }

  lemma {:induction false} SortHead(a: Interval, s: seq<Interval>, t: seq<Interval>)
    requires Sorted(s, Precedes) == t && t != [] && a.start < t[0].start
    ensures Sorted([a] + s, Precedes) == [a] + t
  {
    assert ([a] + s)[1..] == s;
  }

  lemma {:induction false} AroundSlices(s: seq<Interval>, first: nat, last: nat, x: Interval)
    requires Disjoint(s) && first <= last <= |s| && x.start < x.end
    requires forall i :: 0 <= i < first ==> s[i].end <= x.start
    requires forall i :: first <= i < last ==> s[i].end > x.start && s[i].start < x.end
    requires last < |s| ==> s[last].start >= x.end
    ensures Around(s[..first], s[first..last], s[last..], x) && s == s[..first] + s[first..last] + s[last..]
    ensures Disjoint(s[first..last]) && Meets(s[first..last], x.start, x.end)
  {
    assert s == s[..first] + s[first..last] + s[last..];
    MetSlice(s, first, last, x.start, x.end);
    TailStarts(s, last, x.end);
    hide Disjoint, Meets;
  }

  lemma {:induction false} TailStarts(s: seq<Interval>, last: nat, end: int)
    requires Disjoint(s) && last <= |s| && (last < |s| ==> s[last].start >= end)
    ensures forall i :: 0 <= i < |s[last..]| ==> end <= s[last..][i].start
  {
    forall i | 0 <= i < |s[last..]|
      ensures end <= s[last..][i].start
    {
      assert i > 0 ==> s[last].start < s[last].end <= s[last + i].start;
    }
  }

  /** One more interval is met: it can only leave a left piece when it is the first, and
      only the last leaves a right piece. */
  lemma {:induction false} MeetOneMore(met: seq<Interval>, at: Interval, start: int, end: int)
    requires Disjoint(met + [at]) && Meets(met + [at], start, end)
    ensures LeftPiece(met + [at], start) + RightPiece(met + [at], end)
         == LeftPiece(met, start) + RightPiece(met, end)
            + (if at.start < start then [Interval(at.start, start, at.writer)] else [])
            + (if at.end > end then [Interval(end, at.end, at.writer)] else [])
  {
    var all := met + [at];
    if met != [] {
      assert all[0] == met[0] && all[|met| - 1] == met[|met| - 1] && all[|met|] == at;
      assert all[0].end <= all[|met|].start && all[|met| - 1].end <= all[|met|].start;
    }
  }

  lemma {:induction false} NothingMet(met: seq<Interval>, start: int, end: int)
    requires met == []
    ensures LeftPiece(met, start) + RightPiece(met, end) == []
  {
  }

  lemma {:induction false} MetSlice(s: seq<Interval>, first: nat, last: nat, start: int, end: int)
    requires Disjoint(s) && first <= last <= |s|
    requires forall i :: first <= i < last ==> s[i].end > start && s[i].start < end
    ensures Disjoint(s[first..last]) && Meets(s[first..last], start, end)
  {
    var met := s[first..last];
    assert forall i :: 0 <= i < |met| ==> met[i] == s[first + i];
  }

  lemma {:induction false} WriteSplices(s: seq<Interval>, first: nat, last: nat, x: Interval)
    requires Disjoint(s) && first <= last <= |s| && x.start < x.end
    requires forall i :: 0 <= i < first ==> s[i].end <= x.start
    requires forall i :: first <= i < last ==> s[i].end > x.start && s[i].start < x.end
    requires last < |s| ==> s[last].start >= x.end
    ensures var met := s[first..last];
            var r := s[..first] + Sorted(LeftPiece(met, x.start) + RightPiece(met, x.end) + [x], Precedes) + s[last..];
            && Disjoint(r)
            && forall b :: WriterAt(r, b) == if x.start <= b < x.end then Some(x.writer) else WriterAt(s, b)
  {
    var before, met, after := s[..first], s[first..last], s[last..];
    AroundSlices(s, first, last, x);
    hide Around, Disjoint, Spliced, Meets, Sorted, LeftPiece, RightPiece, WriterAt;
    SortedIsSpliced(before, met, after, x);
    SplicedDisjoint(before, met, after, x);
    forall b
      ensures WriterAt(Spliced(before, met, after, x), b) == if x.start <= b < x.end then Some(x.writer)
          else WriterAt(s, b)
    {
      SplicedWriter(before, met, after, x, b);
    }
  }

  class WrittenIntervals {
    var intervals: seq<Interval>

    ghost predicate Valid()
      reads this
    {
      Disjoint(intervals)
    }

    constructor ()
      ensures Valid() && intervals == []
    {
      intervals := [];
    }

    /** Where an access starting at `start` first meets the intervals. */
    method Position(start: int) returns (p: nat)
      requires Valid()
      ensures p <= |intervals|
      ensures forall i :: 0 <= i < p ==> intervals[i].end <= start
      ensures forall i :: p <= i < |intervals| ==> intervals[i].end > start
    {
      var low, high := 0, |intervals|;
      while low < high
        invariant 0 <= low <= high <= |intervals|
        invariant forall i :: 0 <= i < low ==> intervals[i].start < start
        invariant forall i :: high <= i < |intervals| ==> intervals[i].start >= start
      {
        var middle := (low + high) / 2;
        if intervals[middle].start < start {
          low := middle + 1;
        } else {
          high := middle;
        }
      }
      p := low;
      if p != 0 && intervals[p - 1].end > start {
        p := p - 1;
      }
    }

    /** The pieces of [start, end) with their last writers, in order. */
    method Readers(start: int, end: int) returns (pieces: seq<Interval>)
      requires Valid() && start < end
      ensures pieces == Clipped(intervals, start, end)
    {
      var position := Position(start);
      ghost var first := position;
      pieces := [];
      ClippedOutside(intervals[..first], start, end);
      while position < |intervals|
        invariant first <= position <= |intervals|
        invariant pieces == Clipped(intervals[..position], start, end)
      {
        var at := intervals[position];
        if at.start >= end {
          ClippedOutside(intervals[position..], start, end);
          ClippedConcat(intervals[..position], intervals[position..], start, end);
          assert intervals == intervals[..position] + intervals[position..];
          return;
        }
        ClippedConcat(intervals[..position], [at], start, end);
        assert intervals[..position + 1] == intervals[..position] + [at];
        var one := [at];
        assert one[1..] == [];
        pieces := pieces + [Interval(if at.start < start then start else at.start, if at.end > end then end
            else at.end, at.writer)];
        position := position + 1;
      }
      assert intervals[..position] == intervals;
    }

    /** Overwrite [start, end): partly covered intervals keep their outer pieces. */
    method Write(start: int, end: int, writer: nat)
      requires Valid() && start < end
      modifies this
      ensures Valid()
      ensures forall b :: WriterAt(intervals, b) == if start <= b < end then Some(writer)
          else old(WriterAt(intervals, b))
    {
      hide WriterAt, LeftPiece, RightPiece, Sorted;
      var first := Position(start);
      var last, retained := first, [];
      NothingMet(intervals[first..first], start, end);
      while last < |intervals| && intervals[last].start < end
        invariant intervals == old(intervals) && first <= last <= |intervals|
        invariant forall i :: first <= i < last ==> intervals[i].start < end
        invariant retained == LeftPiece(intervals[first..last], start) + RightPiece(intervals[first..last], end)
      {
        var at := intervals[last];
        assert intervals[first..last + 1] == intervals[first..last] + [at];
        MetSlice(intervals, first, last + 1, start, end);
        MeetOneMore(intervals[first..last], at, start, end);
        if at.start < start {
          retained := retained + [Interval(at.start, start, at.writer)];
        }
        if at.end > end {
          retained := retained + [Interval(end, at.end, at.writer)];
        }
        last := last + 1;
      }
      var x := Interval(start, end, writer);
      WriteSplices(intervals, first, last, x);
      retained := retained + [x];
      intervals := intervals[..first] + Sorted(retained, Precedes) + intervals[last..];
    }
  }
}
