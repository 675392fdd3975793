/** What every reachable store satisfies, and what each kind of store update keeps. */
module Invariants {
  import opened Basics
  import opened Records
  import opened Crypto
  import opened Sorting
  import opened Tables
  import opened MerkleSpec
  import opened Chain
  import opened Checkpoints
  import opened HeadFiles
  import opened Engine

  // ----- Entries -----

  /** Seqnos are 1, 2, 3, ... in insertion order, across all streams. */
  ghost predicate Dense(entries: seq<Row>) {
    forall i | 0 <= i < |entries| :: entries[i].seqno == i + 1
  }

  function StreamRows(entries: seq<Row>, stream: Text): seq<Row> {
    if entries == [] then []
    else if Last(entries).streamId == stream then StreamRows(Front(entries), stream) + [Last(entries)]
    else StreamRows(Front(entries), stream)
  }

  /** The rows of a stream form a hash chain from the zero digest. */
  ghost predicate ChainValid(entries: seq<Row>, stream: Text) {
    CheckRows(StreamRows(entries, stream), ZERO_HASH).Ok?
  }

  // ----- Segments -----

  /** Segment ids are 1, 2, 3, ... in closing order, and the next id follows them. */
  ghost predicate IdsDense(t: Store) {
    && (forall i | 0 <= i < |t.segments| :: t.segments[i].segmentId == i + 1)
    && t.nextSegmentId == (if t.segments == [] then 0 else |t.segments| + 1)
    && forall i | 0 <= i < |t.segmentEntries| :: 1 <= t.segmentEntries[i].segmentId <= |t.segments|
  }

  function SegmentFrom(list: seq<SegmentRow>, k: nat): nat
    requires k < |list|
  {
    if k == 0 then 1 else list[k - 1].seqEnd + 1
  }

  /** The rows the k-th segment of a stream stands for: those after the segment before it. */
  function SegmentRows(entries: seq<Row>, stream: Text, list: seq<SegmentRow>, k: nat): seq<Row>
    requires k < |list|
  {
    FilterRange(entries, stream, SegmentFrom(list, k), list[k].seqEnd)
  }

  /** The k-th segment of a stream describes its rows: bounds, root, last hash, leaf records, and the
      checkpoint hash of everything before it. */
  ghost predicate SegmentOk(entries: seq<Row>, leaves: seq<SegmentEntry>, stream: Text, list: seq<SegmentRow>, k: nat)
    requires k < |list|
  {
    var rows := SegmentRows(entries, stream, list, k);
    && rows != []
    && list[k].seqStart == rows[0].seqno
    && list[k].seqEnd == Last(rows).seqno
    && LeafHashes(rows).Ok?
    && list[k].merkleRoot == MTH(LeafHashes(rows).value)
    && list[k].lastEntryHash == Last(rows).entryHash
    && CheckpointFold(entries, list[..k]).Ok?
    && list[k].prevCheckpointHash == CheckpointFold(entries, list[..k]).value
    && FilterSegment(leaves, list[k].segmentId) == LeafEntries(list[k].segmentId, rows)
  }

  /** A stored signature verifies over the recomputed checkpoint hash. */
  ghost predicate SignatureOk(entries: seq<Row>, list: seq<SegmentRow>, k: nat)
    requires k < |list|
  {
    list[k].signature.Some? ==>
      && list[k].signerIdentity.Some?
      && CheckpointFold(entries, list[..k + 1]).Ok?
      && VerifyCheckpoint(list[k].signerIdentity.value, CheckpointFold(entries, list[..k + 1]).value,
                          list[k].signature.value)
         == Some(true)
  }

  ghost predicate ListOk(entries: seq<Row>, leaves: seq<SegmentEntry>, stream: Text, list: seq<SegmentRow>) {
    forall k | 0 <= k < |list| :: SegmentOk(entries, leaves, stream, list, k) && SignatureOk(entries, list, k)
  }

  ghost predicate StreamOk(t: Store, stream: Text) {
    ListOk(t.entries, t.segmentEntries, stream, FilterStream(t.segments, stream))
  }

  ghost predicate StoreOk(t: Store) {
    && Dense(t.entries)
    && IdsDense(t)
    && (forall stream :: ChainValid(t.entries, stream))
    && (forall stream :: StreamOk(t, stream))
  }

  /** What the segments of one stream need of a store. */
  ghost predicate SegmentsOk(t: Store, stream: Text) {
    Dense(t.entries) && IdsDense(t) && StreamOk(t, stream)
  }

  lemma StoreSegmentsOk(t: Store, stream: Text)
    requires StoreOk(t)
    ensures SegmentsOk(t, stream)
  {
  }

  // ----- The head file -----

  /** The record names a signed segment of its stream and holds its recomputed checkpoint hash. */
  ghost predicate RecordOk(t: Store, r: HeadRecord) {
    var list := FilterStream(t.segments, r.streamId);
    var k := Position(list, r.segmentId);
    && k < |list|
    && list[k].signature.Some?
    && list[k].seqEnd == r.seqEnd
    && CheckpointFold(t.entries, list[..k + 1]).Ok?
    && r.checkpointHashHex == Hex(CheckpointFold(t.entries, list[..k + 1]).value)
  }

  ghost predicate HeadsOk(t: Store, heads: seq<HeadRecord>) {
    forall stream | HeadGet(heads, stream).Some? :: RecordOk(t, HeadGet(heads, stream).value)
  }

  // ----- Queries on dense entries -----

  lemma {:induction false} DenseGlobalHead(entries: seq<Row>)
    requires Dense(entries)
    ensures NextSeqno(entries) == |entries| + 1
    ensures !HasSeqno(entries, |entries| + 1)
  {
    if entries != [] {
      DenseGlobalHead(Front(entries));
    }
  }

  lemma {:induction false} DenseGet(entries: seq<Row>, offset: nat, seqno: nat)
    requires forall i | 0 <= i < |entries| :: entries[i].seqno == offset + i + 1
    ensures Get(entries, seqno)
      == if offset < seqno <= offset + |entries| then Some(entries[seqno - offset - 1]) else None
  {
    if entries != [] {
      assert forall i | 0 <= i < |entries[1..]| :: entries[1..][i] == entries[i + 1];
      DenseGet(entries[1..], offset + 1, seqno);
    }
  }

  lemma {:induction false} StreamRowsAreIn(entries: seq<Row>, stream: Text)
    requires Dense(entries)
    ensures forall i | 0 <= i < |StreamRows(entries, stream)| ::
      StreamRows(entries, stream)[i].streamId == stream && 1 <= StreamRows(entries, stream)[i].seqno <= |entries|
  {
    if entries != [] {
      StreamRowsAreIn(Front(entries), stream);
    }
  }

  lemma {:induction false} DenseLastRow(entries: seq<Row>, stream: Text)
    requires Dense(entries)
    ensures var rows := StreamRows(entries, stream);
      && LastRow(entries, stream) == (if rows == [] then None else Some(Last(rows)))
      && Head(entries, stream) == (if rows == [] then None else Some(Last(rows).seqno))
  {
    if entries != [] {
      DenseLastRow(Front(entries), stream);
      StreamRowsAreIn(Front(entries), stream);
    }
  }

  lemma {:induction false} DenseFilterIsSorted(entries: seq<Row>, stream: Text, from: nat, to: nat)
    requires Dense(entries)
    ensures forall i, j | 0 <= i < j < |FilterRange(entries, stream, from, to)| ::
      FilterRange(entries, stream, from, to)[i].seqno < FilterRange(entries, stream, from, to)[j].seqno
    ensures forall i | 0 <= i < |FilterRange(entries, stream, from, to)| ::
      var r := FilterRange(entries, stream, from, to)[i];
      InRange(r, stream, from, to) && 1 <= r.seqno <= |entries| && r == entries[r.seqno - 1]
  {
    if entries != [] {
      DenseFilterIsSorted(Front(entries), stream, from, to);
    }
  }

  lemma {:induction false} DenseRange(entries: seq<Row>, stream: Text, from: nat, to: nat)
    requires Dense(entries)
    ensures Range(entries, stream, from, to) == FilterRange(entries, stream, from, to)
  {
    DenseFilterIsSorted(entries, stream, from, to);
    var rows := FilterRange(entries, stream, from, to);
    forall i, j | 0 <= i < j < |rows| ensures BY_SEQNO(rows[i]) <= BY_SEQNO(rows[j]) {
      assert rows[i].seqno < rows[j].seqno;
    }
    SortedIsFixed(BY_SEQNO, rows);
  }

  lemma {:induction false} WholeFilterIsStream(entries: seq<Row>, stream: Text, from: nat, to: nat)
    requires Dense(entries) && from <= 1 && to >= |entries|
    ensures FilterRange(entries, stream, from, to) == StreamRows(entries, stream)
  {
    if entries != [] {
      WholeFilterIsStream(Front(entries), stream, from, to);
    }
  }

  lemma {:induction false} DenseFilterStream(segments: seq<SegmentRow>, stream: Text)
    requires forall i | 0 <= i < |segments| :: segments[i].segmentId == i + 1
    ensures forall i, j | 0 <= i < j < |FilterStream(segments, stream)| ::
      FilterStream(segments, stream)[i].segmentId < FilterStream(segments, stream)[j].segmentId
    ensures forall i | 0 <= i < |FilterStream(segments, stream)| ::
      var s := FilterStream(segments, stream)[i];
      s.streamId == stream && 1 <= s.segmentId <= |segments| && s == segments[s.segmentId - 1]
  {
    if segments != [] {
      DenseFilterStream(Front(segments), stream);
    }
  }

  lemma {:induction false} DenseSegmentsList(t: Store, stream: Text)
    requires IdsDense(t)
    ensures SegmentsList(t.segments, stream) == FilterStream(t.segments, stream)
    ensures UniqueSegmentIds(t.segments)
  {
    DenseFilterStream(t.segments, stream);
    var list := FilterStream(t.segments, stream);
    forall i, j | 0 <= i < j < |list| ensures BY_SEGMENT_ID(list[i]) <= BY_SEGMENT_ID(list[j]) {
      assert list[i].segmentId < list[j].segmentId;
    }
    SortedIsFixed(BY_SEGMENT_ID, list);
  }

  lemma {:induction false} DenseSegmentGet(segments: seq<SegmentRow>, offset: nat, id: nat)
    requires forall i | 0 <= i < |segments| :: segments[i].segmentId == offset + i + 1
    ensures SegmentGet(segments, id)
      == if offset < id <= offset + |segments| then Some(segments[id - offset - 1]) else None
  {
    if segments != [] {
      assert forall i | 0 <= i < |segments[1..]| :: segments[1..][i] == segments[i + 1];
      DenseSegmentGet(segments[1..], offset + 1, id);
    }
  }

  // ----- Consequences of a stream's segments being in order -----

  lemma {:induction false} SegmentEndsAtARow(entries: seq<Row>, leaves: seq<SegmentEntry>, stream: Text,
          list: seq<SegmentRow>, k: nat)
    requires Dense(entries) && k < |list| && SegmentOk(entries, leaves, stream, list, k)
    ensures SegmentFrom(list, k) <= list[k].seqStart <= list[k].seqEnd <= |entries|
    ensures list[k].seqEnd >= 1 && entries[list[k].seqEnd - 1].streamId == stream
    ensures Get(entries, list[k].seqEnd) == Some(entries[list[k].seqEnd - 1])
  {
    hide FilterRange, LeafHashes, LeafEntries, FilterSegment, CheckpointFold, Get;
    var rows := SegmentRows(entries, stream, list, k);
    DenseFilterIsSorted(entries, stream, SegmentFrom(list, k), list[k].seqEnd);
    assert InRange(rows[0], stream, SegmentFrom(list, k), list[k].seqEnd);
    assert rows[|rows| - 1] == Last(rows);
    DenseGet(entries, 0, list[k].seqEnd);
  }

  lemma {:induction false} SegmentEndsIncrease(entries: seq<Row>, leaves: seq<SegmentEntry>, stream: Text,
          list: seq<SegmentRow>, i: nat, j: nat)
    requires Dense(entries) && ListOk(entries, leaves, stream, list) && i < j < |list|
    ensures list[i].seqEnd < list[j].seqStart
  {
    hide SegmentOk, SignatureOk;
    SegmentEndsAtARow(entries, leaves, stream, list, j);
    if i < j - 1 {
      SegmentEndsIncrease(entries, leaves, stream, list, i, j - 1);
      SegmentEndsAtARow(entries, leaves, stream, list, j - 1);
    }
  }

  /** Every prefix of the list has a checkpoint fold. */
  lemma {:induction false} FoldIsDefined(entries: seq<Row>, leaves: seq<SegmentEntry>, stream: Text,
          list: seq<SegmentRow>, k: nat)
    requires Dense(entries) && k < |list| && SegmentOk(entries, leaves, stream, list, k)
    ensures CheckpointFold(entries, list[..k + 1]).Ok?
  {
    SegmentEndsAtARow(entries, leaves, stream, list, k);
    hide FilterRange, LeafEntries, FilterSegment, CheckpointHash, Get;
    assert Front(list[..k + 1]) == list[..k];
    var rows := SegmentRows(entries, stream, list, k);
    assert Last(rows).entryHash == LeafHashes(rows).value[|rows| - 1];
    assert SegmentRowToInfo(list[k]).Ok?;
    FoldUnfolds(entries, list[..k + 1]);
  }

  lemma FoldUnfolds(entries: seq<Row>, list: seq<SegmentRow>)
    requires list != []
    ensures CheckpointFold(entries, list)
      == HashOf(FoldFields(entries, Last(list), CheckpointFold(entries, Front(list))))
  {
  }
}
