/** Read-after-write edges of a whole trace, found with one interval list per storage. */
module MemoryEdges {
  import opened Wrappers
  import opened Intervals
  import opened Dependencies

  datatype Access =
    | Unknown
    | Write(storage: string, ranges: seq<Range>, overlapping: bool)
    | Read(storage: string, ranges: seq<Range>)

  datatype Event = Event(sequence: nat, program: seq<nat>, memory: seq<Access>)

  // ----- what the edges should be -----

  /** The writes of some accesses to one storage, in order. */
  function WritesOf(accesses: seq<Access>, storage: string, writer: nat): seq<Interval> {
    if accesses == [] then []
    else
      var rest := WritesOf(accesses[..|accesses| - 1], storage, writer);
      var last := accesses[|accesses| - 1];
      if last.Write? && last.storage == storage then
        rest + seq(|last.ranges|, i requires 0 <= i < |last.ranges| =>
            Interval(last.ranges[i].0, last.ranges[i].1, writer))
      else rest
  }

  /** Every write to a storage by the first `i` events. */
  function History(trace: seq<Event>, i: nat, storage: string): seq<Interval>
    requires i <= |trace|
  {
    if i == 0 then [] else History(trace, i - 1, storage) + WritesOf(trace[i - 1].memory, storage, i - 1)
  }

  /** The event that last wrote a byte before access `a` of event `i`. */
  function LastWriterBefore(trace: seq<Event>, i: nat, a: nat, storage: string, b: int): Option<nat>
    requires i < |trace| && a <= |trace[i].memory|
  {
    LastWriter(History(trace, i, storage) + WritesOf(trace[i].memory[..a], storage, i), b)
  }

  predicate Complete(trace: seq<Event>, i: nat)
    requires i < |trace|
  {
    forall j :: 0 <= j <= i ==> trace[j].sequence == j
  }

  predicate NoUnknown(accesses: seq<Access>) {
    forall a :: 0 <= a < |accesses| ==> !accesses[a].Unknown?
  }

  predicate Known(trace: seq<Event>, i: nat, a: nat)
    requires i < |trace| && a <= |trace[i].memory|
  {
    (forall j :: 0 <= j < i ==> NoUnknown(trace[j].memory)) && NoUnknown(trace[i].memory[..a])
  }

  datatype Key = Key(reader: nat, writer: nat, storage: string)

  /** Access `a` of the reader reads byte `b`, which another event of the same program
      wrote last, with nothing missing from the history. */
  predicate ReadsFrom(trace: seq<Event>, a: nat, k: Key, b: int)
    requires k.reader < |trace| && a < |trace[k.reader].memory|
  {
    var access := trace[k.reader].memory[a];
    && access.Read? && access.storage == k.storage && Covers(access.ranges, b)
    && Complete(trace, k.reader) && Known(trace, k.reader, a)
    && LastWriterBefore(trace, k.reader, a, k.storage, b) == Some(k.writer)
    && k.writer < |trace| && k.writer != k.reader && trace[k.writer].program == trace[k.reader].program
  }

  /** The byte belongs to the edge: some access up to access `a` of event `i` reads it so. */
  ghost predicate EdgeByte(trace: seq<Event>, i: nat, a: nat, k: Key, b: int) {
    k.reader < |trace| && exists n: nat ::
      n < |trace[k.reader].memory| && (k.reader < i || (k.reader == i && n < a)) && ReadsFrom(trace, n, k, b)
  }

  predicate WellFormed(trace: seq<Event>) {
    forall i, a :: 0 <= i < |trace| && 0 <= a < |trace[i].memory| ==> RangesOk(trace[i].memory[a])
  }

  predicate RangesOk(access: Access) {
    !access.Unknown? ==> forall n :: 0 <= n < |access.ranges| ==> access.ranges[n].0 < access.ranges[n].1
  }

  // ----- the table of interval lists -----

  class MemoryHistory {
    var table: map<string, WrittenIntervals>

    ghost predicate Valid()
      reads this, table.Values
    {
      && (forall s :: s in table ==> table[s].Valid())
      && (forall s, t :: s in table && t in table && s != t ==> table[s] != table[t])
    }

    ghost function At(storage: string, b: int): Option<nat>
      reads this, table.Values
    {
      if storage in table then WriterAt(table[storage].intervals, b) else None
    }

    constructor ()
      ensures Valid() && fresh(table.Values) && forall s, b :: At(s, b) == None
    {
      table := map[];
    }

    /** The list of a storage, created empty on first use. */
    method Of(storage: string) returns (w: WrittenIntervals)
      requires Valid()
      modifies this
      ensures Valid() && storage in table && table[storage] == w
      ensures forall s, b :: At(s, b) == old(At(s, b))
      ensures fresh(table.Values - old(table.Values))
    {
      if storage !in table {
        w := new WrittenIntervals();
        table := table[storage := w];
      }
      w := table[storage];
    }

    method WriteRanges(storage: string, ranges: seq<Range>, writer: nat)
      requires Valid() && forall n :: 0 <= n < |ranges| ==> ranges[n].0 < ranges[n].1
      modifies this, table.Values
      ensures Valid() && fresh(table.Values - old(table.Values))
      ensures forall s, b :: At(s, b) == if s == storage && Covers(ranges, b) then Some(writer) else old(At(s, b))
    {
      hide Disjoint;
      var w := Of(storage);
      ghost var kept := table;
      for n := 0 to |ranges|
        invariant Valid() && table == kept
        invariant forall s, b :: At(s, b) == if s == storage && Covers(ranges[..n], b) then Some(writer)
            else old(At(s, b))
      {
        CoversSnoc(ranges, n);
        w.Write(ranges[n].0, ranges[n].1, writer);
      }
      assert ranges[..|ranges|] == ranges;
    }

    /** The bytes of the ranges that have a writer, piece by piece. */
    method ReadRanges(storage: string, ranges: seq<Range>) returns (pieces: seq<Interval>)
      requires Valid() && forall n :: 0 <= n < |ranges| ==> ranges[n].0 < ranges[n].1
      modifies this
      ensures Valid() && fresh(table.Values - old(table.Values))
      ensures forall s, b :: At(s, b) == old(At(s, b))
      ensures forall i :: 0 <= i < |pieces| ==> pieces[i].start < pieces[i].end
      ensures forall b, w: nat :: Pieced(pieces, b, w) <==> Covers(ranges, b) && At(storage, b) == Some(w)
    {
      hide WriterAt, Disjoint;
      var list := Of(storage);
      pieces := [];
      ghost var kept := table;
      for n := 0 to |ranges|
        invariant Valid() && table == kept && forall s, b :: At(s, b) == old(At(s, b))
        invariant forall i :: 0 <= i < |pieces| ==> pieces[i].start < pieces[i].end
        invariant forall b, w: nat :: Pieced(pieces, b, w) <==>
            Covers(ranges[..n], b) && WriterAt(list.intervals, b) == Some(w)
      {
        CoversSnoc(ranges, n);
        var more := list.Readers(ranges[n].0, ranges[n].1);
        ReadersPieced(list.intervals, ranges[n].0, ranges[n].1);
        PiecedConcat(pieces, more);
        pieces := pieces + more;
      }
      assert ranges[..|ranges|] == ranges;
    }
  }

  ghost predicate Pieced(pieces: seq<Interval>, b: int, w: nat) {
    exists i :: 0 <= i < |pieces| && pieces[i].start <= b < pieces[i].end && pieces[i].writer == w
  }

  lemma {:induction false} PiecedConcat(a: seq<Interval>, c: seq<Interval>)
    ensures forall b, w: nat :: Pieced(a + c, b, w) <==> Pieced(a, b, w) || Pieced(c, b, w)
  {
    var all := a + c;
    forall b, w: nat | Pieced(a, b, w)
      ensures Pieced(all, b, w)
    {
      var i :| 0 <= i < |a| && a[i].start <= b < a[i].end && a[i].writer == w;
      assert all[i] == a[i];
    }
    forall b, w: nat | Pieced(c, b, w)
      ensures Pieced(all, b, w)
    {
      var i :| 0 <= i < |c| && c[i].start <= b < c[i].end && c[i].writer == w;
      assert all[|a| + i] == c[i];
    }
  }

  /** Readers yields a piece of writer `w` at exactly the bytes it wrote last. */
  lemma {:induction false} ReadersPieced(s: seq<Interval>, start: int, end: int)
    requires Disjoint(s)
    ensures var c := Clipped(s, start, end);
            && (forall i :: 0 <= i < |c| ==> c[i].start < c[i].end)
            && forall b, w: nat :: Pieced(c, b, w) <==> start <= b < end && WriterAt(s, b) == Some(w)
  {
    var c := Clipped(s, start, end);
    ClippedBounds(s, start, end);
    forall b, w: nat
      ensures Pieced(c, b, w) <==> start <= b < end && WriterAt(s, b) == Some(w)
    {
      ClippedWriter(s, start, end, b);
      PiecedWriter(c, b, w);
    }
  }

  lemma {:induction false} PiecedWriter(s: seq<Interval>, b: int, w: nat)
    requires Disjoint(s)
    ensures Pieced(s, b, w) <==> WriterAt(s, b) == Some(w)
  {
    if i :| 0 <= i < |s| && s[i].start <= b < s[i].end {
      WriterAtIndex(s, b, i);
    } else {
      WriterAtNone(s, b);
    }
  }

  // ----- the edges of a trace -----

  datatype Boundary = OverlappingLanes | IncompleteTrace | UninstrumentedEffects | CrossProgram

  datatype Observed = Observed(links: seq<set<nat>>, boundaries: seq<set<Boundary>>, edges: map<Key, seq<Range>>)

  /** Access `a` of event `i` reads byte `b`, which another program wrote last. */
  ghost predicate ReadsAcross(trace: seq<Event>, i: nat, a: nat, b: int, w: nat)
    requires i < |trace| && a < |trace[i].memory|
  {
    var access := trace[i].memory[a];
    && access.Read? && Covers(access.ranges, b) && LastWriterBefore(trace, i, a, access.storage, b) == Some(w)
    && w < |trace| && trace[w].program != trace[i].program
  }

  /** Why access `a` of event `i` has no unique dependency. */
  ghost predicate BoundaryHolds(trace: seq<Event>, i: nat, a: nat, boundary: Boundary)
    requires i < |trace| && a < |trace[i].memory|
  {
    var access := trace[i].memory[a];
    match boundary
    case OverlappingLanes => access.Write? && access.overlapping
    case IncompleteTrace => access.Read? && !Complete(trace, i)
    case UninstrumentedEffects => access.Read? && Complete(trace, i) && !Known(trace, i, a)
    case CrossProgram =>
      access.Read? && Complete(trace, i) && Known(trace, i, a)
      && exists b, w: nat :: ReadsAcross(trace, i, a, b, w)
  }

  ghost predicate BoundaryByAccess(trace: seq<Event>, i: nat, a: nat, boundary: Boundary) {
    i < |trace| && exists n: nat :: n < a && n < |trace[i].memory| && BoundaryHolds(trace, i, n, boundary)
  }

  ghost predicate EdgeCovers(o: Observed, k: Key, b: int) {
    k in o.edges && Covers(o.edges[k], b)
  }

  /** Links are the edges without their storage, and every edge has bytes. */
  ghost predicate Linked(o: Observed, count: nat) {
    && |o.links| == count && |o.boundaries| == count
    && (forall k :: k in o.edges ==> k.reader < count && o.edges[k] != [] && forall n :: 0 <= n < |o.edges[k]| ==>
        o.edges[k][n].0 < o.edges[k][n].1)
    && (forall r: nat, w: nat :: r < count ==> (w in o.links[r] <==> exists storage :: Key(r, w, storage) in o.edges))
  }

  lemma {:induction false} LastWriterConcat(a: seq<Interval>, c: seq<Interval>, b: int)
    ensures LastWriter(a + c, b) == if LastWriter(c, b).Some? then LastWriter(c, b) else LastWriter(a, b)
    decreases |c|
  {
    if c == [] {
      assert a + c == a;
    } else {
      assert (a + c)[..|a + c| - 1] == a + c[..|c| - 1];
      LastWriterConcat(a, c[..|c| - 1], b);
    }
  }

  function AsWrites(ranges: seq<Range>, writer: nat): seq<Interval> {
    seq(|ranges|, i requires 0 <= i < |ranges| => Interval(ranges[i].0, ranges[i].1, writer))
  }

  lemma {:induction false} LastWriterRanges(ranges: seq<Range>, writer: nat, b: int)
    ensures LastWriter(AsWrites(ranges, writer), b) == if Covers(ranges, b) then Some(writer) else None
    decreases |ranges|
  {
    if ranges != [] {
      var n := |ranges| - 1;
      assert AsWrites(ranges, writer)[..n] == AsWrites(ranges[..n], writer);
      LastWriterRanges(ranges[..n], writer, b);
      CoversSnoc(ranges, n);
      assert ranges[..n + 1] == ranges;
    }
  }

  /** One more access: only a write to the same storage changes the last writer. */
  lemma {:induction false} NextAccess(trace: seq<Event>, i: nat, a: nat, storage: string, b: int)
    requires i < |trace| && a < |trace[i].memory|
    ensures var access := trace[i].memory[a];
            LastWriterBefore(trace, i, a + 1, storage, b) ==
                (if access.Write? && access.storage == storage && Covers(access.ranges, b) then Some(i)
                else LastWriterBefore(trace, i, a, storage, b))
  {
    var access := trace[i].memory[a];
    var before := trace[i].memory[..a];
    assert trace[i].memory[..a + 1][..a] == before && trace[i].memory[..a + 1][a] == access;
    var h, done := History(trace, i, storage), WritesOf(before, storage, i);
    if access.Write? && access.storage == storage {
      var more := AsWrites(access.ranges, i);
      assert WritesOf(trace[i].memory[..a + 1], storage, i) == done + more;
      assert h + (done + more) == (h + done) + more;
      LastWriterConcat(h + done, more, b);
      LastWriterRanges(access.ranges, i, b);
    } else {
      assert WritesOf(trace[i].memory[..a + 1], storage, i) == done;
    }
  }

  lemma {:induction false} NextEvent(trace: seq<Event>, i: nat, storage: string, b: int)
    requires i + 1 < |trace|
    ensures LastWriterBefore(trace, i + 1, 0, storage, b) == LastWriterBefore(trace, i, |trace[i].memory|, storage, b)
  {
    assert trace[i].memory[..|trace[i].memory|] == trace[i].memory && trace[i + 1].memory[..0] == [];
    assert History(trace, i + 1, storage) + [] == History(trace, i + 1, storage);
  }

  lemma {:induction false} LastWriterIsIn(writes: seq<Interval>, b: int)
    ensures LastWriter(writes, b).Some? ==>
        exists n :: 0 <= n < |writes| && writes[n].writer == LastWriter(writes, b).value
    decreases |writes|
  {
    if writes != [] {
      LastWriterIsIn(writes[..|writes| - 1], b);
    }
  }

  lemma {:induction false} HistoryBounded(trace: seq<Event>, i: nat, storage: string)
    requires i <= |trace|
    ensures forall n :: 0 <= n < |History(trace, i, storage)| ==> History(trace, i, storage)[n].writer < i
  {
    if i > 0 {
      HistoryBounded(trace, i - 1, storage);
      WritesBounded(trace[i - 1].memory, storage, i - 1);
    }
  }

  lemma {:induction false} WritesBounded(accesses: seq<Access>, storage: string, writer: nat)
    ensures forall n :: 0 <= n < |WritesOf(accesses, storage, writer)| ==>
        WritesOf(accesses, storage, writer)[n].writer == writer
    decreases |accesses|
  {
    if accesses != [] {
      WritesBounded(accesses[..|accesses| - 1], storage, writer);
    }
  }

  /** The last writer is an event that has already run. */
  lemma {:induction false} WriterHasRun(trace: seq<Event>, i: nat, a: nat, storage: string, b: int)
    requires i < |trace| && a <= |trace[i].memory|
    ensures LastWriterBefore(trace, i, a, storage, b).Some? ==> LastWriterBefore(trace, i, a, storage, b).value <= i
  {
    HistoryBounded(trace, i, storage);
    WritesBounded(trace[i].memory[..a], storage, i);
    LastWriterIsIn(History(trace, i, storage) + WritesOf(trace[i].memory[..a], storage, i), b);
  }

  /** One piece of a read: an edge within the program, a boundary across programs, and
      nothing for the event's own bytes. */
  function AddPiece(trace: seq<Event>, i: nat, storage: string, piece: Interval, o: Observed): Observed
    requires i < |trace| && Linked(o, |trace|) && piece.writer < |trace|
  {
    if trace[piece.writer].program !=
        trace[i].program then o.(boundaries := o.boundaries[i := o.boundaries[i] + {CrossProgram}])
    else if piece.writer != i then
      var k := Key(i, piece.writer, storage);
      var so := if k in o.edges then o.edges[k] else [];
      o.(links := o.links[i := o.links[i] + {piece.writer}], edges := o.edges[k := so + [(piece.start, piece.end)]])
    else o
  }

  predicate EdgePiece(trace: seq<Event>, i: nat, storage: string, k: Key) {
    && k.reader == i && k.storage == storage && i < |trace|
    && k.writer < |trace| && k.writer != i && trace[k.writer].program == trace[i].program
  }

  lemma {:induction false} AddPieceLinks(trace: seq<Event>, i: nat, storage: string, piece: Interval, o: Observed)
    requires i < |trace| && Linked(o, |trace|) && piece.writer < |trace| && piece.start < piece.end
    ensures Linked(AddPiece(trace, i, storage, piece, o), |trace|)
  {
    var p := AddPiece(trace, i, storage, piece, o);
    forall r: nat, w: nat | r < |trace|
      ensures w in p.links[r] <==> exists s :: Key(r, w, s) in p.edges
    {
      if s :| Key(r, w, s) in o.edges {
        assert Key(r, w, s) in p.edges;
      }
      if w in p.links[r] && w !in o.links[r] {
        assert Key(r, w, storage) in p.edges;
      }
    }
  }

  lemma {:induction false} AddPieceCovers(trace: seq<Event>, i: nat, storage: string, piece: Interval, o: Observed,
          k: Key, b: int)
    requires i < |trace| && Linked(o, |trace|) && piece.writer < |trace|
    ensures EdgeCovers(AddPiece(trace, i, storage, piece, o), k, b)
            <==> EdgeCovers(o, k, b)
                 || (EdgePiece(trace, i, storage, k) && piece.start <= b < piece.end && piece.writer == k.writer)
  {
    var own := Key(i, piece.writer, storage);
    if k == own {
      CoversAppend(if k in o.edges then o.edges[k] else [], (piece.start, piece.end));
    }
  }

  ghost predicate Crosses(trace: seq<Event>, i: nat, pieces: seq<Interval>)
    requires i < |trace|
  {
    exists n :: 0 <= n < |pieces| && pieces[n].writer < |trace| && trace[pieces[n].writer].program != trace[i].program
  }

  lemma {:induction false} CrossesSnoc(trace: seq<Event>, i: nat, pieces: seq<Interval>, piece: Interval)
    requires i < |trace| && piece.writer < |trace|
    ensures Crosses(trace, i, pieces + [piece]) <==>
        Crosses(trace, i, pieces) || trace[piece.writer].program != trace[i].program
  {
    var all := pieces + [piece];
    assert all[|pieces|] == piece;
    if n :| 0 <= n < |pieces| && pieces[n].writer < |trace| && trace[pieces[n].writer].program != trace[i].program {
      assert all[n] == pieces[n];
    }
  }

  lemma {:induction false} PiecedOne(piece: Interval)
    ensures forall b, w: nat :: Pieced([piece], b, w) <==> piece.start <= b < piece.end && piece.writer == w
  {
    assert forall b, w: nat :: piece.start <= b < piece.end && piece.writer == w ==>
        [piece][0] == piece && Pieced([piece], b, w);
  }

  /** What adding the pieces of one read does to the observed edges. */
  ghost predicate Added(trace: seq<Event>, i: nat, storage: string, pieces: seq<Interval>, before: Observed,
          after: Observed)
    requires i < |trace|
  {
    && Linked(before, |trace|) && Linked(after, |trace|)
    && (forall k, b :: EdgeCovers(after, k, b) <==>
        EdgeCovers(before, k, b) || (EdgePiece(trace, i, storage, k) && Pieced(pieces, b, k.writer)))
    && after.boundaries == (if Crosses(trace, i,
        pieces) then before.boundaries[i := before.boundaries[i] + {CrossProgram}] else before.boundaries)
  }

  lemma {:induction false} AddedNone(trace: seq<Event>, i: nat, storage: string, o: Observed)
    requires i < |trace| && Linked(o, |trace|)
    ensures Added(trace, i, storage, [], o, o)
  {
  }

  lemma {:induction false} AddedOne(trace: seq<Event>, i: nat, storage: string, pieces: seq<Interval>, piece: Interval,
          before: Observed, middle: Observed)
    requires i < |trace| && piece.writer < |trace| && piece.start < piece.end
    requires Added(trace, i, storage, pieces, before, middle)
    ensures Added(trace, i, storage, pieces + [piece], before, AddPiece(trace, i, storage, piece, middle))
  {
    var after := AddPiece(trace, i, storage, piece, middle);
    AddPieceLinks(trace, i, storage, piece, middle);
    CrossesSnoc(trace, i, pieces, piece);
    PiecedConcat(pieces, [piece]);
    PiecedOne(piece);
    forall k, b
      ensures EdgeCovers(after, k, b) <==>
          EdgeCovers(before, k, b) || (EdgePiece(trace, i, storage, k) && Pieced(pieces + [piece], b, k.writer))
    {
      AddPieceCovers(trace, i, storage, piece, middle, k, b);
    }
    hide EdgeCovers, EdgePiece, Pieced, Linked, Crosses;
    assert after.boundaries ==
        (if Crosses(trace, i, pieces + [piece]) then before.boundaries[i := before.boundaries[i] + {CrossProgram}]
        else before.boundaries);
  }

  method AddPieces(trace: seq<Event>, i: nat, storage: string, pieces: seq<Interval>, before: Observed)
    returns (o: Observed)
    requires i < |trace| && Linked(before, |trace|)
    requires forall n :: 0 <= n < |pieces| ==> pieces[n].start < pieces[n].end && pieces[n].writer < |trace|
    ensures Added(trace, i, storage, pieces, before, o)
  {
    o := before;
    AddedNone(trace, i, storage, before);
    assert pieces[..0] == [];
    hide Added;
    for n := 0 to |pieces|
      invariant Added(trace, i, storage, pieces[..n], before, o) && Linked(o, |trace|)
    {
      var piece := pieces[n];
      assert pieces[..n + 1] == pieces[..n] + [piece];
      AddedOne(trace, i, storage, pieces[..n], piece, before, o);
      AddPieceLinks(trace, i, storage, piece, o);
      o := AddPiece(trace, i, storage, piece, o);
    }
    assert pieces[..|pieces|] == pieces;
  }

  // ----- the loop over the trace -----

  ghost predicate Recorded(trace: seq<Event>, i: nat, a: nat, history: MemoryHistory)
    requires i < |trace| && a <= |trace[i].memory|
    reads history, history.table.Values
  {
    history.Valid() && forall s, b :: history.At(s, b) == LastWriterBefore(trace, i, a, s, b)
  }

  ghost predicate EdgesSoFar(trace: seq<Event>, i: nat, a: nat, o: Observed) {
    Linked(o, |trace|) && forall k, b :: EdgeCovers(o, k, b) <==> EdgeByte(trace, i, a, k, b)
  }

  ghost predicate BoundariesSoFar(trace: seq<Event>, i: nat, a: nat, o: Observed) {
    |o.boundaries| == |trace| && forall r: nat, x :: r < |trace| ==>
      (x in o.boundaries[r] <==>
          BoundaryByAccess(trace, r, if r < i then |trace[r].memory| else if r == i then a else 0, x))
  }

  lemma {:induction false} EdgeNext(trace: seq<Event>, i: nat, a: nat, k: Key, b: int)
    requires i < |trace| && a < |trace[i].memory|
    ensures EdgeByte(trace, i, a + 1, k, b) <==>
        EdgeByte(trace, i, a, k, b) || (k.reader == i && ReadsFrom(trace, a, k, b))
  {
  }

  lemma {:induction false} BoundaryNext(trace: seq<Event>, i: nat, a: nat, x: Boundary)
    requires i < |trace| && a < |trace[i].memory|
    ensures BoundaryByAccess(trace, i, a + 1, x) <==> BoundaryByAccess(trace, i, a, x) || BoundaryHolds(trace, i, a, x)
  {
  }

  /** A read with a full history adds exactly the edges of its access. */
  lemma {:induction false} ReadAdds(trace: seq<Event>, i: nat, a: nat, pieces: seq<Interval>, before: Observed,
          after: Observed)
    requires i < |trace| && a < |trace[i].memory| && trace[i].memory[a].Read? && Complete(trace, i)
    requires Known(trace, i, a)
    requires EdgesSoFar(trace, i, a, before) && Added(trace, i, trace[i].memory[a].storage, pieces, before, after)
    requires forall b, w: nat :: Pieced(pieces, b, w) <==>
        Covers(trace[i].memory[a].ranges, b) && LastWriterBefore(trace, i, a, trace[i].memory[a].storage, b) == Some(w)
    ensures EdgesSoFar(trace, i, a + 1, after)
  {
    hide EdgeByte, Pieced, EdgeCovers, Linked, LastWriterBefore, Complete, Known;
    forall k, b
      ensures EdgeCovers(after, k, b) <==> EdgeByte(trace, i, a + 1, k, b)
    {
      EdgeNext(trace, i, a, k, b);
    }
  }

  lemma {:induction false} NoEdges(trace: seq<Event>, i: nat, a: nat, before: Observed, after: Observed)
    requires i < |trace| && a < |trace[i].memory| && EdgesSoFar(trace, i, a, before)
    requires !trace[i].memory[a].Read? || !Complete(trace, i) || !Known(trace, i, a)
    requires after.edges == before.edges && after.links == before.links && |after.boundaries| == |trace|
    ensures EdgesSoFar(trace, i, a + 1, after)
  {
    forall k, b
      ensures EdgeCovers(after, k, b) <==> EdgeByte(trace, i, a + 1, k, b)
    {
      EdgeNext(trace, i, a, k, b);
      hide EdgeByte;
    }
  }

  lemma {:induction false} BoundariesStep(trace: seq<Event>, i: nat, a: nat, before: Observed, after: Observed,
          found: set<Boundary>)
    requires i < |trace| && a < |trace[i].memory| && BoundariesSoFar(trace, i, a, before)
    requires after.boundaries == before.boundaries[i := before.boundaries[i] + found]
    requires forall x :: x in found <==> BoundaryHolds(trace, i, a, x)
    ensures BoundariesSoFar(trace, i, a + 1, after)
  {
    hide BoundaryByAccess, BoundaryHolds;
    forall r: nat, x | r < |trace|
      ensures x in after.boundaries[r] <==>
          BoundaryByAccess(trace, r, if r < i then |trace[r].memory| else if r == i then a + 1 else 0, x)
    {
      BoundaryNext(trace, i, a, x);
    }
  }

  lemma {:induction false} CrossesWhenAcross(trace: seq<Event>, i: nat, a: nat, pieces: seq<Interval>)
    requires i < |trace| && a < |trace[i].memory| && trace[i].memory[a].Read?
    requires forall n :: 0 <= n < |pieces| ==> pieces[n].start < pieces[n].end
    requires forall b, w: nat :: Pieced(pieces, b, w) <==>
        Covers(trace[i].memory[a].ranges, b) && LastWriterBefore(trace, i, a, trace[i].memory[a].storage, b) == Some(w)
    ensures Crosses(trace, i, pieces) <==> exists b, w: nat :: ReadsAcross(trace, i, a, b, w)
  {
    if n :| 0 <= n < |pieces| && pieces[n].writer < |trace| && trace[pieces[n].writer].program != trace[i].program {
      assert Pieced(pieces, pieces[n].start, pieces[n].writer);
      assert ReadsAcross(trace, i, a, pieces[n].start, pieces[n].writer);
    }
    if b, w: nat :| ReadsAcross(trace, i, a, b, w) {
      assert Pieced(pieces, b, w);
    }
  }

  lemma {:induction false} KnownNext(trace: seq<Event>, i: nat, a: nat)
    requires i < |trace| && a < |trace[i].memory|
    ensures Known(trace, i, a + 1) <==> Known(trace, i, a) && !trace[i].memory[a].Unknown?
  {
    var next := trace[i].memory[..a + 1];
    assert next == trace[i].memory[..a] + [trace[i].memory[a]];
    assert next[a] == trace[i].memory[a];
    if NoUnknown(next) {
      assert forall n :: 0 <= n < a ==> trace[i].memory[..a][n] == next[n];
    }
  }

  /** The boundaries that one access adds to its event. */
  function Found(access: Access, complete: bool, known: bool, crosses: bool): set<Boundary> {
    match access
    case Unknown => {}
    case Write(_, _, overlapping) => if overlapping then {OverlappingLanes} else {}
    case Read(_, _) => if !complete then {IncompleteTrace} else if !known then {UninstrumentedEffects}
        else if crosses then {CrossProgram} else {}
  }

  lemma {:induction false} FoundHolds(trace: seq<Event>, i: nat, a: nat, crosses: bool)
    requires i < |trace| && a < |trace[i].memory|
    requires trace[i].memory[a].Read? && Complete(trace, i) && Known(trace, i, a) ==>
        (crosses <==> exists b, w: nat :: ReadsAcross(trace, i, a, b, w))
    ensures forall x :: x in Found(trace[i].memory[a], Complete(trace, i), Known(trace, i, a), crosses) <==>
        BoundaryHolds(trace, i, a, x)
  {
  }

  lemma {:induction false} SameBoundaries(o: Observed, i: nat)
    requires i < |o.boundaries|
    ensures o.boundaries[i := o.boundaries[i] + {}] == o.boundaries
  {
    assert o.boundaries[i] + {} == o.boundaries[i];
  }

  /** A write: its bytes get a new last writer; overlapping lanes have no unique order. */
  method WriteAccess(trace: seq<Event>, i: nat, a: nat, history: MemoryHistory, before: Observed) returns (o: Observed)
    requires i < |trace| && a < |trace[i].memory| && trace[i].memory[a].Write? && RangesOk(trace[i].memory[a])
    requires Recorded(trace, i, a, history) && EdgesSoFar(trace, i, a, before) && BoundariesSoFar(trace, i, a, before)
    modifies history, history.table.Values
    ensures Recorded(trace, i, a + 1, history) && fresh(history.table.Values - old(history.table.Values))
    ensures EdgesSoFar(trace, i, a + 1, o) && BoundariesSoFar(trace, i, a + 1, o)
  {
    var access := trace[i].memory[a];
    o := before;
    if access.overlapping {
      o := o.(boundaries := o.boundaries[i := o.boundaries[i] + {OverlappingLanes}]);
    }
    SameBoundaries(before, i);
    FoundHolds(trace, i, a, false);
    BoundariesStep(trace, i, a, before, o, Found(access, Complete(trace, i), Known(trace, i, a), false));
    NoEdges(trace, i, a, before, o);
    hide EdgesSoFar, BoundariesSoFar, LastWriterBefore, BoundaryHolds, Complete, Known;
    history.WriteRanges(access.storage, access.ranges, i);
    forall s, b
      ensures history.At(s, b) == LastWriterBefore(trace, i, a + 1, s, b)
    {
      NextAccess(trace, i, a, s, b);
    }
  }

  /** A read: edges to the last writers of its bytes, unless the history has gaps. */
  method ReadAccess(trace: seq<Event>, i: nat, a: nat, history: MemoryHistory, before: Observed, complete: bool,
          known: bool)
    returns (o: Observed)
    requires i < |trace| && a < |trace[i].memory| && trace[i].memory[a].Read? && RangesOk(trace[i].memory[a])
    requires Recorded(trace, i, a, history) && EdgesSoFar(trace, i, a, before) && BoundariesSoFar(trace, i, a, before)
    requires complete == Complete(trace, i) && known == Known(trace, i, a)
    modifies history
    ensures Recorded(trace, i, a + 1, history) && fresh(history.table.Values - old(history.table.Values))
    ensures EdgesSoFar(trace, i, a + 1, o) && BoundariesSoFar(trace, i, a + 1, o)
  {
    var access := trace[i].memory[a];
    if !complete || !known {
      var reason := if !complete then IncompleteTrace else UninstrumentedEffects;
      o := before.(boundaries := before.boundaries[i := before.boundaries[i] + {reason}]);
      FoundHolds(trace, i, a, false);
      BoundariesStep(trace, i, a, before, o, Found(access, complete, known, false));
      NoEdges(trace, i, a, before, o);
      hide EdgesSoFar, BoundariesSoFar, LastWriterBefore, BoundaryHolds, Complete, Known;
      var _ := history.Of(access.storage);
    } else {
      hide EdgesSoFar, BoundariesSoFar, LastWriterBefore, Complete, Known;
      var pieces := history.ReadRanges(access.storage, access.ranges);
      o := AddRead(trace, i, a, pieces, before);
    }
    forall s, b
      ensures history.At(s, b) == LastWriterBefore(trace, i, a + 1, s, b)
    {
      NextAccess(trace, i, a, s, b);
    }
  }

  method AddRead(trace: seq<Event>, i: nat, a: nat, pieces: seq<Interval>, before: Observed) returns (o: Observed)
    requires i < |trace| && a < |trace[i].memory| && trace[i].memory[a].Read? && Complete(trace, i)
    requires Known(trace, i, a)
    requires EdgesSoFar(trace, i, a, before) && BoundariesSoFar(trace, i, a, before)
    requires forall n :: 0 <= n < |pieces| ==> pieces[n].start < pieces[n].end
    requires forall b, w: nat :: Pieced(pieces, b, w) <==>
        Covers(trace[i].memory[a].ranges, b) && LastWriterBefore(trace, i, a, trace[i].memory[a].storage, b) == Some(w)
    ensures EdgesSoFar(trace, i, a + 1, o) && BoundariesSoFar(trace, i, a + 1, o)
  {
    PiecesHaveRun(trace, i, a, pieces);
    hide LastWriterBefore, Complete, Known, Pieced, Covers;
    o := AddPieces(trace, i, trace[i].memory[a].storage, pieces, before);
    ReadAdds(trace, i, a, pieces, before, o);
    CrossesWhenAcross(trace, i, a, pieces);
    ghost var crosses := Crosses(trace, i, pieces);
    FoundHolds(trace, i, a, crosses);
    SameBoundaries(before, i);
    hide EdgesSoFar, Crosses, BoundaryHolds, Linked;
    BoundariesStep(trace, i, a, before, o, Found(trace[i].memory[a], true, true, crosses));
  }

  lemma {:induction false} PiecesHaveRun(trace: seq<Event>, i: nat, a: nat, pieces: seq<Interval>)
    requires i < |trace| && a < |trace[i].memory| && trace[i].memory[a].Read?
    requires forall n :: 0 <= n < |pieces| ==> pieces[n].start < pieces[n].end
    requires forall b, w: nat :: Pieced(pieces, b, w) <==>
        Covers(trace[i].memory[a].ranges, b) && LastWriterBefore(trace, i, a, trace[i].memory[a].storage, b) == Some(w)
    ensures forall n :: 0 <= n < |pieces| ==> pieces[n].writer <= i
  {
    forall n | 0 <= n < |pieces|
      ensures pieces[n].writer <= i
    {
      assert Pieced(pieces, pieces[n].start, pieces[n].writer);
      WriterHasRun(trace, i, a, trace[i].memory[a].storage, pieces[n].start);
    }
  }

  lemma {:induction false} AfterEvent(trace: seq<Event>, i: nat, o: Observed)
    requires i < |trace| && EdgesSoFar(trace, i, |trace[i].memory|, o)
    requires BoundariesSoFar(trace, i, |trace[i].memory|, o)
    ensures EdgesSoFar(trace, i + 1, 0, o) && BoundariesSoFar(trace, i + 1, 0, o)
  {
    forall k, b
      ensures EdgeByte(trace, i + 1, 0, k, b) <==> EdgeByte(trace, i, |trace[i].memory|, k, b)
    {
    }
  }

  lemma {:induction false} NextEventRecorded(trace: seq<Event>, i: nat)
    requires i + 1 < |trace|
    ensures forall s, b ::
              LastWriterBefore(trace, i + 1, 0, s, b) ==
              LastWriterBefore(trace, i, |trace[i].memory|, s, b)
  {
    forall s, b
      ensures LastWriterBefore(trace, i + 1, 0, s, b) == LastWriterBefore(trace, i, |trace[i].memory|, s, b)
    {
      NextEvent(trace, i, s, b);
    }
  }

  lemma {:induction false} KnownAcross(trace: seq<Event>, i: nat)
    requires i + 1 < |trace|
    ensures Known(trace, i + 1, 0) <==> Known(trace, i, |trace[i].memory|)
    ensures Complete(trace, i + 1) <==> Complete(trace, i) && trace[i + 1].sequence == i + 1
  {
    assert trace[i].memory[..|trace[i].memory|] == trace[i].memory && trace[i + 1].memory[..0] == [];
  }

  /** `_memory_edges`. On any trace the edges contain a byte for a reader and a writer
      exactly when the reader reads it and that other event of the same program was its
      last writer at that read, with a complete and known history; the ranges of an edge
      are merged; links are its event pairs; boundaries name exactly the accesses for
      which no unique dependency is claimed. */
  method Edges(trace: seq<Event>) returns (o: Observed)
    requires WellFormed(trace)
    ensures forall k, b :: EdgeCovers(o, k, b) <==> EdgeByte(trace, |trace|, 0, k, b)
    ensures forall k :: k in o.edges ==> o.edges[k] != [] && Separated(o.edges[k])
    ensures |o.links| == |trace|
    ensures forall r: nat, w: nat :: r < |trace| ==>
        (w in o.links[r] <==> exists storage :: Key(r, w, storage) in o.edges)
    ensures |o.boundaries| == |trace|
    ensures forall r: nat, x :: r < |trace| ==>
        (x in o.boundaries[r] <==> BoundaryByAccess(trace, r, |trace[r].memory|, x))
  {
    var history := new MemoryHistory();
    o := Observed(seq(|trace|, _ => {}), seq(|trace|, _ => {}), map[]);
    NothingObserved(trace, o);
    hide EdgesSoFar, BoundariesSoFar, LastWriterBefore, Known, EdgeByte, BoundaryByAccess, EdgeCovers, Covers;
    var complete, known := true, true;
    if trace != [] {
      NothingWritten(trace);
    }
    for i := 0 to |trace|
      invariant fresh(history) && fresh(history.table.Values) && history.Valid()
      invariant i < |trace| ==> Recorded(trace, i, 0, history)
      invariant EdgesSoFar(trace, i, 0, o) && BoundariesSoFar(trace, i, 0, o)
      invariant complete <==> forall j :: 0 <= j < i ==> trace[j].sequence == j
      invariant i < |trace| ==> known == Known(trace, i, 0)
    {
      complete := complete && trace[i].sequence == i;
      o, known := ObserveEvent(trace, i, history, o, complete, known);
      AfterEvent(trace, i, o);
      if i + 1 < |trace| {
        NextEventRecorded(trace, i);
        KnownAcross(trace, i);
      }
    }
    FinalEdges(trace, o);
    o := MergeAll(o, |trace|);
  }

  lemma {:induction false} FinalEdges(trace: seq<Event>, o: Observed)
    requires EdgesSoFar(trace, |trace|, 0, o) && BoundariesSoFar(trace, |trace|, 0, o)
    ensures Linked(o, |trace|) && forall k, b :: EdgeCovers(o, k, b) <==> EdgeByte(trace, |trace|, 0, k, b)
    ensures forall r: nat, x :: r < |trace| ==>
        (x in o.boundaries[r] <==> BoundaryByAccess(trace, r, |trace[r].memory|, x))
  {
    hide EdgeCovers, EdgeByte, BoundaryByAccess;
  }

  lemma {:induction false} NothingObserved(trace: seq<Event>, o: Observed)
    requires o == Observed(seq(|trace|, _ => {}), seq(|trace|, _ => {}), map[])
    ensures EdgesSoFar(trace, 0, 0, o) && BoundariesSoFar(trace, 0, 0, o)
  {
  }

  lemma {:induction false} NothingWritten(trace: seq<Event>)
    requires trace != []
    ensures forall s, b :: LastWriterBefore(trace, 0, 0, s, b) == None
    ensures Known(trace, 0, 0)
  {
  }

  /** All accesses of one event, in order. */
  method ObserveEvent(trace: seq<Event>, i: nat, history: MemoryHistory, before: Observed, complete: bool, known: bool)
    returns (o: Observed, known': bool)
    requires i < |trace| && WellFormed(trace) && complete == Complete(trace, i) && known == Known(trace, i, 0)
    requires Recorded(trace, i, 0, history) && EdgesSoFar(trace, i, 0, before) && BoundariesSoFar(trace, i, 0, before)
    modifies history, history.table.Values
    ensures Recorded(trace, i, |trace[i].memory|, history) && fresh(history.table.Values - old(history.table.Values))
    ensures EdgesSoFar(trace, i, |trace[i].memory|, o) && BoundariesSoFar(trace, i, |trace[i].memory|, o)
    ensures known' == Known(trace, i, |trace[i].memory|)
  {
    o, known' := before, known;
    hide EdgesSoFar, BoundariesSoFar, LastWriterBefore, Complete, Known;
    for a := 0 to |trace[i].memory|
      invariant Recorded(trace, i, a, history) && fresh(history.table.Values - old(history.table.Values))
      invariant EdgesSoFar(trace, i, a, o) && BoundariesSoFar(trace, i, a, o) && known' == Known(trace, i, a)
    {
      KnownNext(trace, i, a);
      match trace[i].memory[a]
      case Unknown =>
        known' := false;
        SkipUnknown(trace, i, a, o);
        forall s, b
          ensures history.At(s, b) == LastWriterBefore(trace, i, a + 1, s, b)
        {
          NextAccess(trace, i, a, s, b);
        }
      case Write(_, _, _) => o := WriteAccess(trace, i, a, history, o);
      case Read(_, _) => o := ReadAccess(trace, i, a, history, o, complete, known');
    }
  }

  lemma {:induction false} SkipUnknown(trace: seq<Event>, i: nat, a: nat, o: Observed)
    requires i < |trace| && a < |trace[i].memory| && trace[i].memory[a].Unknown? && EdgesSoFar(trace, i, a, o)
    requires BoundariesSoFar(trace, i, a, o)
    ensures EdgesSoFar(trace, i, a + 1, o) && BoundariesSoFar(trace, i, a + 1, o)
  {
    SameBoundaries(o, i);
    FoundHolds(trace, i, a, false);
    BoundariesStep(trace, i, a, o, o, {});
    NoEdges(trace, i, a, o, o);
  }

  /** Merge the ranges of every edge. */
  method MergeAll(before: Observed, count: nat) returns (o: Observed)
    requires Linked(before, count)
    ensures o.links == before.links && o.boundaries == before.boundaries && o.edges.Keys == before.edges.Keys
    ensures forall k, b :: EdgeCovers(o, k, b) <==> EdgeCovers(before, k, b)
    ensures forall k :: k in o.edges ==> o.edges[k] != [] && Separated(o.edges[k])
  {
    var rest, merged := before.edges.Keys, map[];
    while rest != {}
      invariant rest <= before.edges.Keys && merged.Keys == before.edges.Keys - rest
      invariant forall k, b :: k in merged ==> (Covers(merged[k], b) <==> Covers(before.edges[k], b))
      invariant forall k :: k in merged ==> merged[k] != [] && Separated(merged[k])
    {
      var k :| k in rest;
      var ranges := MergeRanges(before.edges[k]);
      assert Covers(before.edges[k], before.edges[k][0].0);
      assert Covers(ranges, before.edges[k][0].0);
      merged := merged[k := ranges];
      rest := rest - {k};
    }
    o := before.(edges := merged);
  }
}
