/** Closed segments in every reachable state: when closing succeeds, and what the segments cover. */
module SegmentTheorems {
  import opened Basics
  import opened Records
  import opened Sorting
  import opened Tables
  import opened MerkleSpec
  import opened Chain
  import opened Checkpoints
  import opened Engine
  import opened Invariants
  import opened Preservation
  import opened Runs
  import opened ChainTheorems

  // ----- Closing -----

  lemma {:induction false} LeavesAreDigests(rows: seq<Row>)
    requires forall i | 0 <= i < |rows| :: |rows[i].entryHash| == HASH_LEN
    ensures LeafHashes(rows).Ok?
  {
    if rows != [] {
      LeavesAreDigests(Front(rows));
    }
  }

  lemma {:induction false} RangeLeavesAreDigests(s: State, stream: Text, from: nat, to: nat)
    requires StateOk(s)
    ensures LeafHashes(Range(s.store.entries, stream, from, to)).Ok?
  {
    hide Range, LeafHashes, RowHash, StoreOk, HeadsOk;
    var entries := s.store.entries;
    var rows := Range(entries, stream, from, to);
    RangeAllInRange(entries, stream, from, to);
    forall i | 0 <= i < |rows| ensures |rows[i].entryHash| == HASH_LEN {
      assert rows[i] in entries;
      var j :| 0 <= j < |entries| && entries[j] == rows[i];
      EntriesHashTheirFields(s, j);
    }
    LeavesAreDigests(rows);
  }

  /** The last seqno the stream's closed segments cover. */
  function CoveredTo(t: Store, stream: Text): nat {
    var list := FilterStream(t.segments, stream);
    if list == [] then 0 else Last(list).seqEnd
  }

  lemma {:induction false} TipIsDefined(t: Store, stream: Text)
    requires SegmentsOk(t, stream)
    ensures TipCheckpoint(t, stream).Ok?
  {
    hide FilterStream, CheckpointFold, SegmentOk, SignatureOk, TipCheckpoint;
    TipIsFold(t, stream);
    var list := FilterStream(t.segments, stream);
    if list == [] {
      EmptyFold(t.entries);
    } else {
      FoldIsDefined(t.entries, t.segmentEntries, stream, list, |list| - 1);
      assert list[..|list|] == list;
    }
  }

  /** In every reachable state `close_segment` succeeds exactly when the stream has a row beyond its
      last segment, and then covers everything up to the stream's head. */
  lemma {:induction false} CloseSucceedsIff(s: State, stream: Text, now: Text)
    requires StateOk(s)
    ensures CloseSegment(s.store, stream, now).1.Ok? <==>
      Head(s.store.entries, stream).Some? && Head(s.store.entries, stream).value > CoveredTo(s.store, stream)
    ensures CloseSegment(s.store, stream, now).1.Ok? ==>
      CoveredTo(CloseSegment(s.store, stream, now).0, stream) == Head(s.store.entries, stream).value
  {
    hide Range, LeafHashes, TipCheckpoint, SegmentStart, Head, FilterStream, StreamOk, FilterRange, HeadsOk;
    var t := s.store;
    SegmentStartFollows(t, stream);
    TipIsDefined(t, stream);
    if Head(t.entries, stream).Some? && Head(t.entries, stream).value >= SegmentStart(t, stream) {
      var head := Head(t.entries, stream).value;
      HeadIsARow(t.entries, stream);
      RangeEndsAt(t.entries, stream, SegmentStart(t, stream), head);
      DenseRange(t.entries, stream, SegmentStart(t, stream), head);
      var rows := Range(t.entries, stream, SegmentStart(t, stream), head);
      RangeLeavesAreDigests(s, stream, SegmentStart(t, stream), head);
      var row := NewSegment(stream, rows, LeafHashes(rows).value, head, TipCheckpoint(t, stream).value, now);
      FilterStreamGrows(t.segments, row.(segmentId := NewSegmentId(t)), stream);
    }
  }

  // ----- The partition -----

  /** The rows within the bounds of each segment, one segment after the other. */
  function Flatten(entries: seq<Row>, stream: Text, list: seq<SegmentRow>): seq<Row> {
    if list == [] then []
    else Flatten(entries, stream, Front(list)) + Range(entries, stream, Last(list).seqStart, Last(list).seqEnd)
  }

  /** The bounds of a segment enclose exactly the rows it was built from. */
  lemma {:induction false} BoundsEncloseRows(entries: seq<Row>, leaves: seq<SegmentEntry>, stream: Text,
          list: seq<SegmentRow>, k: nat)
    requires Dense(entries) && k < |list| && SegmentOk(entries, leaves, stream, list, k)
    ensures Range(entries, stream, list[k].seqStart, list[k].seqEnd) == SegmentRows(entries, stream, list, k)
  {
    hide Range, FilterRange, LeafHashes, FilterSegment, LeafEntries, CheckpointFold;
    SegmentEndsAtARow(entries, leaves, stream, list, k);
    RangeFromItsFirst(entries, stream, SegmentFrom(list, k), list[k].seqStart, list[k].seqEnd);
  }

  lemma FirstOfConcat(a: seq<Row>, b: seq<Row>)
    ensures a != [] ==> (a + b)[0] == a[0]
  {
  }

  lemma {:induction false} RangeFromItsFirst(entries: seq<Row>, stream: Text, from: nat, start: nat, end: nat)
    requires Dense(entries) && 1 <= from <= start <= end
    requires FilterRange(entries, stream, from, end) != [] && FilterRange(entries, stream, from, end)[0].seqno == start
    ensures Range(entries, stream, start, end) == FilterRange(entries, stream, from, end)
  {
    hide Range, FilterRange;
    DenseRange(entries, stream, from, end);
    RangeSplits(entries, stream, from, start - 1, end);
    RangeAllInRange(entries, stream, from, start - 1);
    var gap := Range(entries, stream, from, start - 1);
    FirstOfConcat(gap, Range(entries, stream, start, end));
  }

  lemma {:induction false} FlattenIsRange(entries: seq<Row>, leaves: seq<SegmentEntry>, stream: Text,
          list: seq<SegmentRow>, k: nat)
    requires Dense(entries) && ListOk(entries, leaves, stream, list) && k <= |list|
    ensures Flatten(entries, stream, list[..k]) == Range(entries, stream, 1, if k == 0 then 0 else list[k - 1].seqEnd)
  {
    hide Range, SegmentOk, SignatureOk, FilterRange;
    if k == 0 {
      ReversedRangeIsEmpty(entries, stream, 1, 0);
    } else {
      FlattenIsRange(entries, leaves, stream, list, k - 1);
      assert Front(list[..k]) == list[..k - 1];
      OneOfList(entries, leaves, stream, list, k - 1);
      BoundsEncloseRows(entries, leaves, stream, list, k - 1);
      SegmentEndsAtARow(entries, leaves, stream, list, k - 1);
      DenseRange(entries, stream, SegmentFrom(list, k - 1), list[k - 1].seqEnd);
      RangeSplits(entries, stream, 1, SegmentFrom(list, k - 1) - 1, list[k - 1].seqEnd);
    }
  }

  /** In every reachable state the closed segments of a stream partition exactly its rows up to the
      last covered seqno: one after the other, their rows are all of them, in order. */
  lemma {:induction false} SegmentsPartitionStream(s: State, stream: Text)
    requires SegmentsOk(s.store, stream)
    ensures var list := SegmentsList(s.store.segments, stream);
      && list == FilterStream(s.store.segments, stream)
      && Flatten(s.store.entries, stream, list) == Range(s.store.entries, stream, 1, CoveredTo(s.store, stream))
  {
    hide Range, SegmentOk, SignatureOk, FilterStream, SegmentsList;
    var t := s.store;
    var list := FilterStream(t.segments, stream);
    DenseSegmentsList(t, stream);
    FlattenIsRange(t.entries, t.segmentEntries, stream, list, |list|);
    assert list[..|list|] == list;
  }

  /** Segment ranges are disjoint and ordered. */
  lemma {:induction false} SegmentsAreOrdered(s: State, stream: Text, i: nat, j: nat)
    requires SegmentsOk(s.store, stream) && i < j < |FilterStream(s.store.segments, stream)|
    ensures FilterStream(s.store.segments, stream)[i].seqEnd < FilterStream(s.store.segments, stream)[j].seqStart
  {
    hide FilterStream, ListOk;
    SegmentEndsIncrease(s.store.entries, s.store.segmentEntries, stream, FilterStream(s.store.segments, stream), i, j);
  }

  lemma {:induction false} CoveringSegment(entries: seq<Row>, leaves: seq<SegmentEntry>, stream: Text,
          list: seq<SegmentRow>, n: nat, seqno: nat)
    returns (k: nat)
    requires Dense(entries) && ListOk(entries, leaves, stream, list) && 0 < n <= |list|
    requires 1 <= seqno <= list[n - 1].seqEnd && seqno <= |entries| && entries[seqno - 1].streamId == stream
    ensures k < n && list[k].seqStart <= seqno <= list[k].seqEnd
    ensures entries[seqno - 1] in SegmentRows(entries, stream, list, k)
  {
    hide FilterRange, SegmentOk, SignatureOk;
    k := n - 1;
    OneOfList(entries, leaves, stream, list, k);
    if seqno >= SegmentFrom(list, k) {
      FilterRangeMembers(entries, stream, SegmentFrom(list, k), list[k].seqEnd, entries[seqno - 1]);
      RowsWithinBounds(entries, leaves, stream, list, k, entries[seqno - 1]);
    } else {
      k := CoveringSegment(entries, leaves, stream, list, n - 1, seqno);
    }
  }

  lemma {:induction false} RowsWithinBounds(entries: seq<Row>, leaves: seq<SegmentEntry>, stream: Text,
          list: seq<SegmentRow>, k: nat, r: Row)
    requires Dense(entries) && k < |list| && SegmentOk(entries, leaves, stream, list, k)
    requires r in SegmentRows(entries, stream, list, k)
    ensures list[k].seqStart <= r.seqno <= list[k].seqEnd && r.streamId == stream
  {
    hide FilterRange, LeafHashes, FilterSegment, LeafEntries, CheckpointFold;
    var rows := SegmentRows(entries, stream, list, k);
    DenseFilterIsSorted(entries, stream, SegmentFrom(list, k), list[k].seqEnd);
    var i :| 0 <= i < |rows| && rows[i] == r;
    assert rows[0].seqno <= rows[i].seqno;
  }

  /** A row of the stream lies within the bounds of exactly one of its segments if it is covered, and
      of none otherwise. */
  lemma {:induction false} CoveredByExactlyOne(s: State, seqno: nat)
    requires StateOk(s) && 1 <= seqno <= |s.store.entries|
    ensures var stream := s.store.entries[seqno - 1].streamId;
      var list := FilterStream(s.store.segments, stream);
      && (seqno <= CoveredTo(s.store, stream)
          <==> exists k :: 0 <= k < |list| && list[k].seqStart <= seqno <= list[k].seqEnd)
      && forall j, k | 0 <= j < |list| && 0 <= k < |list| && list[j].seqStart <= seqno <= list[j].seqEnd
                     && list[k].seqStart <= seqno <= list[k].seqEnd :: j == k
  {
    hide FilterStream, SegmentOk, SignatureOk, ChainValid, HeadsOk;
    var stream := s.store.entries[seqno - 1].streamId;
    var list := FilterStream(s.store.segments, stream);
    assert StreamOk(s.store, stream);
    if seqno <= CoveredTo(s.store, stream) {
      var k := CoveringSegment(s.store.entries, s.store.segmentEntries, stream, list, |list|, seqno);
      assert list[k].seqStart <= seqno <= list[k].seqEnd;
    }
    forall j, k | 0 <= j < k < |list| ensures list[j].seqEnd < list[k].seqStart {
      SegmentsAreOrdered(s, stream, j, k);
    }
    if k :| 0 <= k < |list| && list[k].seqStart <= seqno <= list[k].seqEnd {
      if k < |list| - 1 {
        OneOfList(s.store.entries, s.store.segmentEntries, stream, list, |list| - 1);
        SegmentEndsAtARow(s.store.entries, s.store.segmentEntries, stream, list, |list| - 1);
        assert list[k].seqEnd < list[|list| - 1].seqStart;
      }
    }
  }

  /** What a stored segment says about its rows: bounds, Merkle root, last entry hash, and leaf
      records numbered 0, 1, 2, ... in seqno order. */
  lemma {:induction false} SegmentDescribesRows(s: State, stream: Text, k: nat)
    requires StateOk(s) && k < |FilterStream(s.store.segments, stream)|
    ensures var seg := FilterStream(s.store.segments, stream)[k];
      var rows := Range(s.store.entries, stream, seg.seqStart, seg.seqEnd);
      && rows != [] && rows[0].seqno == seg.seqStart && Last(rows).seqno == seg.seqEnd
      && LeafHashes(rows).Ok? && seg.merkleRoot == MTH(LeafHashes(rows).value)
      && seg.lastEntryHash == Last(rows).entryHash
      && FilterSegment(s.store.segmentEntries, seg.segmentId) == LeafEntries(seg.segmentId, rows)
      && |EntrySeqnos(s.store.segmentEntries, seg.segmentId)| == |rows|
      && forall j | 0 <= j < |rows| :: EntrySeqnos(s.store.segmentEntries, seg.segmentId)[j] == rows[j].seqno
  {
    hide FilterStream, FilterRange, LeafHashes, FilterSegment, LeafEntries, CheckpointFold, ChainValid, HeadsOk,
         Range, MTH, EntrySeqnos;
    var t := s.store;
    var list := FilterStream(t.segments, stream);
    assert StreamOk(t, stream);
    OneOfList(t.entries, t.segmentEntries, stream, list, k);
    BoundsEncloseRows(t.entries, t.segmentEntries, stream, list, k);
    SeqnosOfLeaves(t.segmentEntries, list[k].segmentId, SegmentRows(t.entries, stream, list, k));
  }

  lemma {:induction false} SeqnosOfLeaves(leaves: seq<SegmentEntry>, id: nat, rows: seq<Row>)
    requires FilterSegment(leaves, id) == LeafEntries(id, rows)
    ensures |EntrySeqnos(leaves, id)| == |rows|
    ensures forall j | 0 <= j < |rows| :: EntrySeqnos(leaves, id)[j] == rows[j].seqno
  {
    hide FilterSegment;
    var entries := LeafEntries(id, rows);
    forall i, j | 0 <= i < j < |entries| ensures BY_LEAF(entries[i]) <= BY_LEAF(entries[j]) {
      assert entries[i].leafIndex == i && entries[j].leafIndex == j;
    }
    SortedIsFixed(BY_LEAF, entries);
  }
}
