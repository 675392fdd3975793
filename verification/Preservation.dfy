/** Each update of the store keeps `StoreOk`, and the head file's records stay true. */
module Preservation {
  import opened Basics
  import opened Records
  import opened Crypto
  import opened Tables
  import opened MerkleSpec
  import opened Chain
  import opened Checkpoints
  import opened HeadFiles
  import opened Engine
  import opened Invariants

  // ----- One more entry -----

  lemma {:induction false} StreamRowsGrow(entries: seq<Row>, r: Row, stream: Text)
    ensures StreamRows(entries + [r], stream)
      == if r.streamId == stream then StreamRows(entries, stream) + [r] else StreamRows(entries, stream)
  {
    assert Front(entries + [r]) == entries && Last(entries + [r]) == r;
  }

  lemma {:induction false} FilterRangeKeeps(entries: seq<Row>, r: Row, stream: Text, from: nat, to: nat)
    requires r.seqno > to
    ensures FilterRange(entries + [r], stream, from, to) == FilterRange(entries, stream, from, to)
  {
    assert Front(entries + [r]) == entries && Last(entries + [r]) == r;
  }

  /** A row that links to the stream's last digest and hashes to its own extends the chain. */
  lemma {:induction false} ChainGrows(entries: seq<Row>, r: Row)
    requires forall stream :: ChainValid(entries, stream)
    requires |r.prevEntryHash| == HASH_LEN
      && CheckRows(StreamRows(entries, r.streamId), ZERO_HASH) == Ok(r.prevEntryHash)
    requires r.entryHash == RowHash(r)
    ensures forall stream :: ChainValid(entries + [r], stream)
  {
    hide RowHash;
    forall stream ensures ChainValid(entries + [r], stream) {
      assert ChainValid(entries, stream);
      StreamRowsGrow(entries, r, stream);
      if r.streamId == stream {
        CheckOneMore(StreamRows(entries, stream), r);
      }
    }
  }

  lemma {:induction false} CheckOneMore(rows: seq<Row>, r: Row)
    ensures CheckRows(rows + [r], ZERO_HASH)
      == match CheckRows(rows, ZERO_HASH) { case Err(e) => Err(e) case Ok(d) => CheckRow(r, d) }
  {
    assert Front(rows + [r]) == rows;
  }

  /** The fold of a list depends on the entries only through the segments' last rows. */
  lemma {:induction false} FoldKeeps(entries: seq<Row>, entries': seq<Row>, list: seq<SegmentRow>)
    requires forall i | 0 <= i < |list| :: Get(entries, list[i].seqEnd) == Get(entries', list[i].seqEnd)
    ensures CheckpointFold(entries, list) == CheckpointFold(entries', list)
  {
    hide CheckpointHash, Get;
    if list != [] {
      FoldKeeps(entries, entries', Front(list));
      assert Get(entries, list[|list| - 1].seqEnd) == Get(entries', list[|list| - 1].seqEnd);
    }
  }

  lemma {:induction false} DenseGetKeeps(entries: seq<Row>, r: Row, seqno: nat)
    requires Dense(entries) && r.seqno == |entries| + 1 && seqno <= |entries|
    ensures Get(entries + [r], seqno) == Get(entries, seqno)
  {
    DenseGet(entries, 0, seqno);
    DenseGet(entries + [r], 0, seqno);
  }

  lemma {:induction false} AppendKeepsList(entries: seq<Row>, r: Row, leaves: seq<SegmentEntry>, stream: Text,
          list: seq<SegmentRow>)
    requires Dense(entries) && r.seqno == |entries| + 1 && ListOk(entries, leaves, stream, list)
    ensures ListOk(entries + [r], leaves, stream, list)
    ensures forall k | 0 <= k <= |list| ::
      CheckpointFold(entries + [r], list[..k]) == CheckpointFold(entries, list[..k])
  {
    hide CheckpointFold, FilterRange, LeafHashes, FilterSegment, LeafEntries, Get;
    forall i | 0 <= i < |list| ensures Get(entries, list[i].seqEnd) == Get(entries + [r], list[i].seqEnd) {
      SegmentEndsAtARow(entries, leaves, stream, list, i);
      DenseGetKeeps(entries, r, list[i].seqEnd);
    }
    forall k | 0 <= k <= |list| ensures CheckpointFold(entries + [r], list[..k]) == CheckpointFold(entries, list[..k]) {
      FoldKeeps(entries, entries + [r], list[..k]);
    }
    forall k | 0 <= k < |list|
      ensures SegmentOk(entries + [r], leaves, stream, list, k) && SignatureOk(entries + [r], list, k)
    {
      assert SegmentOk(entries, leaves, stream, list, k) && SignatureOk(entries, list, k);
      SegmentEndsAtARow(entries, leaves, stream, list, k);
      FilterRangeKeeps(entries, r, stream, SegmentFrom(list, k), list[k].seqEnd);
    }
  }

  /** The update of `append_inner`. */
  lemma {:induction false} AppendKeepsStoreOk(t: Store, r: Row)
    requires StoreOk(t) && r.seqno == |t.entries| + 1 && r.entryHash == RowHash(r)
    requires |r.prevEntryHash| == HASH_LEN
      && CheckRows(StreamRows(t.entries, r.streamId), ZERO_HASH) == Ok(r.prevEntryHash)
    ensures StoreOk(t.(entries := t.entries + [r]))
  {
    hide RowHash, ChainValid, ListOk, FilterStream, CheckRows, StreamRows;
    var t' := t.(entries := t.entries + [r]);
    ChainGrows(t.entries, r);
    forall stream ensures StreamOk(t', stream) {
      assert StreamOk(t, stream);
      AppendKeepsList(t.entries, r, t.segmentEntries, stream, FilterStream(t.segments, stream));
    }
  }

  lemma {:induction false} AppendKeepsRecord(t: Store, r: Row, record: HeadRecord)
    requires Dense(t.entries) && StreamOk(t, record.streamId) && r.seqno == |t.entries| + 1 && RecordOk(t, record)
    ensures RecordOk(t.(entries := t.entries + [r]), record)
  {
    hide CheckpointFold, ListOk, FilterStream, Hex;
    AppendKeepsList(t.entries, r, t.segmentEntries, record.streamId, FilterStream(t.segments, record.streamId));
  }

  // ----- One more segment -----

  lemma {:induction false} FilterStreamGrows(segments: seq<SegmentRow>, row: SegmentRow, stream: Text)
    ensures FilterStream(segments + [row], stream)
      == if row.streamId == stream then FilterStream(segments, stream) + [row] else FilterStream(segments, stream)
  {
    assert Front(segments + [row]) == segments && Last(segments + [row]) == row;
  }

  lemma {:induction false} FilterSegmentGrows(a: seq<SegmentEntry>, b: seq<SegmentEntry>, id: nat)
    ensures FilterSegment(a + b, id) == FilterSegment(a, id) + FilterSegment(b, id)
  {
    if b == [] {
      assert a + b == a && FilterSegment(a, id) + [] == FilterSegment(a, id);
    } else {
      assert Front(a + b) == a + Front(b) && Last(a + b) == Last(b);
      FilterSegmentGrows(a, Front(b), id);
    }
  }

  lemma {:induction false} FilterOfOtherIds(entries: seq<SegmentEntry>, id: nat)
    requires forall i | 0 <= i < |entries| :: entries[i].segmentId != id
    ensures FilterSegment(entries, id) == []
  {
    if entries != [] {
      FilterOfOtherIds(Front(entries), id);
    }
  }

  lemma {:induction false} FilterOfOneId(entries: seq<SegmentEntry>, id: nat)
    requires forall i | 0 <= i < |entries| :: entries[i].segmentId == id
    ensures FilterSegment(entries, id) == entries
  {
    if entries != [] {
      FilterOfOneId(Front(entries), id);
      assert entries == Front(entries) + [Last(entries)];
    }
  }

  /** New leaf records leave every older segment's records alone. */
  lemma {:induction false} OldLeavesKeep(leaves: seq<SegmentEntry>, id: nat, rows: seq<Row>, oldId: nat)
    requires oldId != id
    ensures FilterSegment(leaves + LeafEntries(id, rows), oldId) == FilterSegment(leaves, oldId)
  {
    FilterSegmentGrows(leaves, LeafEntries(id, rows), oldId);
    FilterOfOtherIds(LeafEntries(id, rows), oldId);
  }

  lemma {:induction false} NewLeavesFound(leaves: seq<SegmentEntry>, id: nat, rows: seq<Row>)
    requires forall i | 0 <= i < |leaves| :: leaves[i].segmentId != id
    ensures FilterSegment(leaves + LeafEntries(id, rows), id) == LeafEntries(id, rows)
  {
    FilterSegmentGrows(leaves, LeafEntries(id, rows), id);
    FilterOfOtherIds(leaves, id);
    FilterOfOneId(LeafEntries(id, rows), id);
  }

  /** New leaf records and a longer list keep what the earlier segments describe. */
  lemma {:induction false} CloseKeepsPrefix(entries: seq<Row>, leaves: seq<SegmentEntry>, leaves': seq<SegmentEntry>,
          stream: Text, list: seq<SegmentRow>, list': seq<SegmentRow>, k: nat)
    requires |list| <= |list'| && list'[..|list|] == list && k < |list|
    requires SegmentOk(entries, leaves, stream, list, k) && SignatureOk(entries, list, k)
    requires FilterSegment(leaves', list[k].segmentId) == FilterSegment(leaves, list[k].segmentId)
    ensures SegmentOk(entries, leaves', stream, list', k) && SignatureOk(entries, list', k)
  {
    hide CheckpointFold, FilterRange, LeafHashes, FilterSegment, LeafEntries;
    assert forall i | 0 <= i < |list| :: list'[i] == list'[..|list|][i] == list[i];
    assert list'[..k] == list[..k] && list'[..k + 1] == list[..k + 1];
  }

  lemma {:induction false} LastSeqnoOfList(segments: seq<SegmentRow>, stream: Text)
    requires forall i, j | 0 <= i < j < |FilterStream(segments, stream)| ::
      FilterStream(segments, stream)[i].seqEnd <= FilterStream(segments, stream)[j].seqEnd
    ensures SegmentLastSeqno(segments, stream)
      == if FilterStream(segments, stream) == [] then None else Some(Last(FilterStream(segments, stream)).seqEnd)
  {
    if segments != [] {
      var front := FilterStream(Front(segments), stream);
      assert forall i | 0 <= i < |front| :: front[i] == FilterStream(segments, stream)[i];
      LastSeqnoOfList(Front(segments), stream);
    }
  }

  /** In an ordered store the next segment starts after the last one. */
  lemma {:induction false} SegmentStartFollows(t: Store, stream: Text)
    requires SegmentsOk(t, stream)
    ensures var list := FilterStream(t.segments, stream);
      SegmentStart(t, stream) == if list == [] then 1 else Last(list).seqEnd + 1
  {
    hide ListOk, FilterStream;
    var list := FilterStream(t.segments, stream);
    forall i, j | 0 <= i < j < |list| ensures list[i].seqEnd <= list[j].seqEnd {
      SegmentEndsIncrease(t.entries, t.segmentEntries, stream, list, i, j);
      assert ListOk(t.entries, t.segmentEntries, stream, list);
      OneOfList(t.entries, t.segmentEntries, stream, list, j);
      SegmentEndsAtARow(t.entries, t.segmentEntries, stream, list, j);
    }
    LastSeqnoOfList(t.segments, stream);
  }

  lemma OneOfList(entries: seq<Row>, leaves: seq<SegmentEntry>, stream: Text, list: seq<SegmentRow>, k: nat)
    requires ListOk(entries, leaves, stream, list) && k < |list|
    ensures SegmentOk(entries, leaves, stream, list, k) && SignatureOk(entries, list, k)
  {
  }

  /** The stream's tip checkpoint is the fold of its whole list. */
  lemma {:induction false} TipIsFold(t: Store, stream: Text)
    requires IdsDense(t)
    ensures TipCheckpoint(t, stream) == CheckpointFold(t.entries, FilterStream(t.segments, stream))
  {
    hide CheckpointFold, ComputeCheckpointHash, FilterStream, SegmentsList;
    DenseSegmentsList(t, stream);
    var list := SegmentsList(t.segments, stream);
    if list == [] {
      EmptyFold(t.entries);
    } else {
      RecursionIsFold(t, stream, |list| - 1);
      assert list[..|list|] == list;
    }
  }

  /** An unsigned segment row that describes the stream's rows from `start` to its end. */
  ghost predicate Describes(entries: seq<Row>, stream: Text, start: nat, row: SegmentRow, rows: seq<Row>) {
    && row.streamId == stream
    && rows == FilterRange(entries, stream, start, row.seqEnd)
    && rows != []
    && row.seqStart == rows[0].seqno && row.seqEnd == Last(rows).seqno
    && LeafHashes(rows).Ok? && row.merkleRoot == MTH(LeafHashes(rows).value)
    && row.lastEntryHash == Last(rows).entryHash
    && row.signature.None?
  }

  /** The segment that `close_segment` inserts. */
  ghost predicate Closes(t: Store, stream: Text, row: SegmentRow, rows: seq<Row>) {
    && Describes(t.entries, stream, SegmentStart(t, stream), row, rows)
    && TipCheckpoint(t, stream) == Ok(row.prevCheckpointHash)
  }

  lemma CloseKeepsIds(t: Store, row: SegmentRow, rows: seq<Row>)
    requires IdsDense(t)
    ensures NewSegmentId(t) == |t.segments| + 1
    ensures IdsDense(InsertSegment(t, row, rows).0)
  {
  }

  lemma {:induction false} NewSegmentIsOk(t: Store, stream: Text, row: SegmentRow, rows: seq<Row>)
    requires SegmentsOk(t, stream) && Closes(t, stream, row, rows)
    ensures var id := NewSegmentId(t);
      var list := FilterStream(t.segments, stream);
      var list' := list + [row.(segmentId := id)];
      && SegmentOk(t.entries, t.segmentEntries + LeafEntries(id, rows), stream, list', |list|)
      && SignatureOk(t.entries, list', |list|)
  {
    hide CheckpointFold, FilterRange, LeafHashes, FilterSegment, LeafEntries, ListOk, FilterStream, TipCheckpoint;
    CloseKeepsIds(t, row, rows);
    var id := NewSegmentId(t);
    var list := FilterStream(t.segments, stream);
    var list' := list + [row.(segmentId := id)];
    NewLeavesFound(t.segmentEntries, id, rows);
    SegmentStartFollows(t, stream);
    TipIsFold(t, stream);
    assert list'[..|list|] == list;
    assert SegmentFrom(list', |list|) == SegmentStart(t, stream);
  }

  /** The update of `close_segment`. */
  lemma {:induction false} CloseKeepsStoreOk(t: Store, stream: Text, row: SegmentRow, rows: seq<Row>)
    requires StoreOk(t) && Closes(t, stream, row, rows)
    ensures StoreOk(InsertSegment(t, row, rows).0)
  {
    hide ListOk, ChainValid, FilterStream, LeafEntries, FilterRange, LeafHashes, TipCheckpoint, SegmentStart;
    var t' := InsertSegment(t, row, rows).0;
    CloseKeepsIds(t, row, rows);
    forall s ensures StreamOk(t', s) {
      CloseKeepsStream(t, row, rows, s);
    }
    assert forall s :: ChainValid(t.entries, s) ==> ChainValid(t'.entries, s);
  }

  lemma {:induction false} CloseKeepsStream(t: Store, row: SegmentRow, rows: seq<Row>, s: Text)
    requires SegmentsOk(t, s) && (row.streamId == s ==> Closes(t, s, row, rows))
    ensures StreamOk(InsertSegment(t, row, rows).0, s)
  {
    hide SegmentOk, SignatureOk, FilterStream, LeafEntries, FilterSegment, Dense, ChainValid;
    var id := NewSegmentId(t);
    var leaves := t.segmentEntries + LeafEntries(id, rows);
    var list, list' := FilterStream(t.segments, s), FilterStream(t.segments + [row.(segmentId := id)], s);
    FilterStreamGrows(t.segments, row.(segmentId := id), s);
    forall k | 0 <= k < |list'|
      ensures SegmentOk(t.entries, leaves, s, list', k) && SignatureOk(t.entries, list', k)
    {
      if k < |list| {
        CloseKeepsOld(t, row, rows, s, list, list', k);
      } else {
        NewSegmentIsOk(t, s, row, rows);
      }
    }
  }

  lemma {:induction false} CloseKeepsOld(t: Store, row: SegmentRow, rows: seq<Row>, s: Text,
                               list: seq<SegmentRow>, list': seq<SegmentRow>, k: nat)
    requires IdsDense(t) && list == FilterStream(t.segments, s) && k < |list|
    requires |list| <= |list'| && list'[..|list|] == list
    requires ListOk(t.entries, t.segmentEntries, s, list)
    ensures SegmentOk(t.entries, t.segmentEntries + LeafEntries(NewSegmentId(t), rows), s, list', k)
    ensures SignatureOk(t.entries, list', k)
  {
    hide SegmentOk, SignatureOk, FilterStream, LeafEntries, FilterSegment;
    CloseKeepsIds(t, row, rows);
    DenseFilterStream(t.segments, s);
    assert list[k].segmentId <= |t.segments|;
    OldLeavesKeep(t.segmentEntries, NewSegmentId(t), rows, list[k].segmentId);
    OneOfList(t.entries, t.segmentEntries, s, list, k);
    CloseKeepsPrefix(t.entries, t.segmentEntries, t.segmentEntries + LeafEntries(NewSegmentId(t), rows), s, list,
                     list', k);
  }

  lemma {:induction false} PositionInPrefix(list: seq<SegmentRow>, list': seq<SegmentRow>, id: nat)
    requires |list| <= |list'| && list'[..|list|] == list && Position(list, id) < |list|
    ensures Position(list', id) == Position(list, id)
  {
    assert forall i | 0 <= i < |list| :: list'[i] == list'[..|list|][i] == list[i];
  }

  lemma {:induction false} CloseKeepsRecord(t: Store, row: SegmentRow, rows: seq<Row>, record: HeadRecord)
    requires RecordOk(t, record)
    ensures RecordOk(InsertSegment(t, row, rows).0, record)
  {
    hide CheckpointFold, FilterStream, Hex, Position;
    var t' := InsertSegment(t, row, rows).0;
    var list, list' := FilterStream(t.segments, record.streamId), FilterStream(t'.segments, record.streamId);
    FilterStreamGrows(t.segments, row.(segmentId := NewSegmentId(t)), record.streamId);
    assert list'[..|list|] == list;
    PositionInPrefix(list, list', record.segmentId);
    var k := Position(list, record.segmentId);
    assert list'[k] == list'[..|list|][k];
    assert list'[..k + 1] == list[..k + 1];
  }

  // ----- A signature -----

  /** Two lists that differ at most in signatures. */
  ghost predicate SameButSignatures(a: seq<SegmentRow>, b: seq<SegmentRow>) {
    |a| == |b| && forall i | 0 <= i < |a| ::
      b[i] == a[i].(signature := b[i].signature, signerIdentity := b[i].signerIdentity)
  }

  lemma {:induction false} FoldIgnoresSignatures(entries: seq<Row>, a: seq<SegmentRow>, b: seq<SegmentRow>)
    requires SameButSignatures(a, b)
    ensures CheckpointFold(entries, a) == CheckpointFold(entries, b)
  {
    hide CheckpointHash, Get;
    if a != [] {
      assert forall i | 0 <= i < |Front(a)| :: Front(a)[i] == a[i] && Front(b)[i] == b[i];
      FoldIgnoresSignatures(entries, Front(a), Front(b));
      assert b[|b| - 1] == a[|a| - 1].(signature := b[|b| - 1].signature, signerIdentity := b[|b| - 1].signerIdentity);
    }
  }

  /** Signing changes the one segment with this id, and only its signature. */
  lemma {:induction false} WithSignatureAt(segments: seq<SegmentRow>, id: nat, signature: Bytes, identity: Text, i: nat)
    requires UniqueSegmentIds(segments) && i < |segments|
    ensures WithSignature(segments, id, signature, identity)[i]
      == if segments[i].segmentId == id then
           segments[i].(signature := Some(signature), signerIdentity := Some(identity))
         else segments[i]
  {
    if segments[0].segmentId != id && i > 0 {
      assert forall j, k | 0 <= j < k < |segments[1..]| ::
        segments[1..][j] == segments[j + 1] && segments[1..][k] == segments[k + 1];
      WithSignatureAt(segments[1..], id, signature, identity, i - 1);
    }
  }

  function Signed(row: SegmentRow, id: nat, signature: Bytes, identity: Text): SegmentRow {
    if row.segmentId == id then row.(signature := Some(signature), signerIdentity := Some(identity)) else row
  }

  /** Filtering by stream commutes with a pointwise change that keeps the stream. */
  lemma {:induction false} FilterOfSigned(a: seq<SegmentRow>, b: seq<SegmentRow>, id: nat, signature: Bytes,
          identity: Text, stream: Text)
    requires |a| == |b| && forall i | 0 <= i < |a| :: b[i] == Signed(a[i], id, signature, identity)
    ensures |FilterStream(a, stream)| == |FilterStream(b, stream)|
    ensures forall i | 0 <= i < |FilterStream(a, stream)| ::
      FilterStream(b, stream)[i] == Signed(FilterStream(a, stream)[i], id, signature, identity)
  {
    if a != [] {
      assert forall i | 0 <= i < |Front(a)| :: Front(a)[i] == a[i] && Front(b)[i] == b[i];
      FilterOfSigned(Front(a), Front(b), id, signature, identity, stream);
      assert b[|b| - 1] == Signed(a[|a| - 1], id, signature, identity);
    }
  }

  lemma {:induction false} SignedList(t: Store, id: nat, signature: Bytes, identity: Text, stream: Text)
    requires IdsDense(t)
    ensures var list := FilterStream(t.segments, stream);
      var list' := FilterStream(WithSignature(t.segments, id, signature, identity), stream);
      && SameButSignatures(list, list')
      && |list'| == |list|
      && forall i | 0 <= i < |list| :: list'[i] == Signed(list[i], id, signature, identity)
  {
    DenseSegmentsList(t, stream);
    hide WithSignature, FilterStream;
    var b := WithSignature(t.segments, id, signature, identity);
    forall i | 0 <= i < |t.segments| ensures b[i] == Signed(t.segments[i], id, signature, identity) {
      WithSignatureAt(t.segments, id, signature, identity, i);
    }
    FilterOfSigned(t.segments, b, id, signature, identity, stream);
  }

  lemma {:induction false} SignKeepsSegment(entries: seq<Row>, leaves: seq<SegmentEntry>, stream: Text,
                         list: seq<SegmentRow>, list': seq<SegmentRow>, k: nat)
    requires SameButSignatures(list, list') && k < |list| && SegmentOk(entries, leaves, stream, list, k)
    ensures SegmentOk(entries, leaves, stream, list', k)
    ensures CheckpointFold(entries, list[..k + 1]) == CheckpointFold(entries, list'[..k + 1])
  {
    hide CheckpointFold, FilterRange, LeafHashes, FilterSegment, LeafEntries;
    assert list'[k] == list[k].(signature := list'[k].signature, signerIdentity := list'[k].signerIdentity);
    if k > 0 {
      assert list'[k - 1].seqEnd == list[k - 1].seqEnd;
    }
    FoldIgnoresSignatures(entries, list[..k], list'[..k]);
    FoldIgnoresSignatures(entries, list[..k + 1], list'[..k + 1]);
  }

  /** What `sign_segment` may store: a signature over the segment's recomputed checkpoint hash. */
  ghost predicate SignsFold(t: Store, id: nat, signature: Bytes, identity: Text) {
    && 1 <= id <= |t.segments|
    && var list := FilterStream(t.segments, t.segments[id - 1].streamId);
       var k := Position(list, id);
       && k < |list|
       && CheckpointFold(t.entries, list[..k + 1]).Ok?
       && VerifyCheckpoint(identity, CheckpointFold(t.entries, list[..k + 1]).value, signature) == Some(true)
  }

  lemma {:induction false} SignKeepsStream(t: Store, id: nat, signature: Bytes, identity: Text, stream: Text)
    requires SegmentsOk(t, stream) && SignsFold(t, id, signature, identity)
    ensures StreamOk(t.(segments := WithSignature(t.segments, id, signature, identity)), stream)
  {
    hide CheckpointFold, FilterStream, SegmentOk, WithSignature;
    var list := FilterStream(t.segments, stream);
    var list' := FilterStream(WithSignature(t.segments, id, signature, identity), stream);
    SignedList(t, id, signature, identity, stream);
    DenseFilterStream(t.segments, stream);
    forall k | 0 <= k < |list'|
      ensures SegmentOk(t.entries, t.segmentEntries, stream, list', k) && SignatureOk(t.entries, list', k)
    {
      assert SegmentOk(t.entries, t.segmentEntries, stream, list, k) && SignatureOk(t.entries, list, k);
      SignKeepsSegment(t.entries, t.segmentEntries, stream, list, list', k);
      assert list'[k] == Signed(list[k], id, signature, identity);
      if list[k].segmentId == id {
        assert list[k] == t.segments[id - 1] && t.segments[id - 1].streamId == stream;
        PositionDrops(list, k);
        assert list[Position(list, id)].segmentId == list[k].segmentId;
      }
    }
  }

  lemma {:induction false} SignKeepsIds(t: Store, id: nat, signature: Bytes, identity: Text)
    requires IdsDense(t)
    ensures IdsDense(t.(segments := WithSignature(t.segments, id, signature, identity)))
  {
    DenseSegmentsList(t, []);
    var b := WithSignature(t.segments, id, signature, identity);
    forall i | 0 <= i < |b| ensures b[i].segmentId == i + 1 {
      WithSignatureAt(t.segments, id, signature, identity, i);
    }
  }

  /** The update of `sign_segment`. */
  lemma {:induction false} SignKeepsStoreOk(t: Store, id: nat, signature: Bytes, identity: Text)
    requires StoreOk(t) && SignsFold(t, id, signature, identity)
    ensures StoreOk(t.(segments := WithSignature(t.segments, id, signature, identity)))
  {
    hide SignsFold, ListOk, FilterStream, WithSignature, ChainValid;
    var t' := t.(segments := WithSignature(t.segments, id, signature, identity));
    SignKeepsIds(t, id, signature, identity);
    forall stream ensures StreamOk(t', stream) {
      SignKeepsStream(t, id, signature, identity, stream);
    }
    assert forall s :: ChainValid(t.entries, s) ==> ChainValid(t'.entries, s);
  }

  lemma {:induction false} SignKeepsRecord(t: Store, id: nat, signature: Bytes, identity: Text, record: HeadRecord)
    requires IdsDense(t) && RecordOk(t, record)
    ensures RecordOk(t.(segments := WithSignature(t.segments, id, signature, identity)), record)
  {
    hide CheckpointFold, FilterStream, WithSignature, Hex;
    var stream := record.streamId;
    var list := FilterStream(t.segments, stream);
    var list' := FilterStream(WithSignature(t.segments, id, signature, identity), stream);
    SignedList(t, id, signature, identity, stream);
    var k := Position(list, record.segmentId);
    assert list'[k] == Signed(list[k], id, signature, identity);
    SignKeepsPosition(list, list', record.segmentId);
    FoldIgnoresSignatures(t.entries, list[..k + 1], list'[..k + 1]);
  }

  lemma {:induction false} SignKeepsPosition(list: seq<SegmentRow>, list': seq<SegmentRow>, id: nat)
    requires SameButSignatures(list, list')
    ensures Position(list, id) == Position(list', id)
  {
    var p, p' := Position(list, id), Position(list', id);
    if p < |list| {
      assert list'[p].segmentId == list[p].segmentId;
    }
    if p' < |list| {
      assert list'[p'].segmentId == list[p'].segmentId;
    }
  }
}
