/** Runs: any number of operations, by any number of processes one after another, on one store and
    one head file. Every reachable state is well formed. */
module Runs {
  import opened Basics
  import opened Records
  import opened Encoder
  import opened Crypto
  import opened Tables
  import opened MerkleSpec
  import opened Chain
  import opened Checkpoints
  import opened HeadFiles
  import opened Engine
  import opened Invariants
  import opened Preservation

  datatype State = State(store: Store, heads: seq<HeadRecord>)

  /** One call. Processes, drafts, times, nonces and signer entropy are arbitrary, so a run covers
      restarts under new session ids, signing in any order, and signing again. */
  datatype Step =
    | DoAppend(p: Process, d: Draft)
    | DoAppendEncrypted(p: Process, d: Draft, nonce: Bytes)
    | DoClose(stream: Text, now: Text)
    | DoSign(p: Process, name: Text, id: nat, entropy: Bytes, now: Text)
    | DoCreateStream(name: Text, tier: Text, description: Option<Text>, now: Text)
    | DoDeprecate(name: Text, now: Text)

  function Apply(s: State, step: Step): State {
    match step
    case DoAppend(p, d) => s.(store := Append(s.store, p, d).0)
    case DoAppendEncrypted(p, d, nonce) => s.(store := AppendEncrypted(s.store, p, d, nonce).0)
    case DoClose(stream, now) => s.(store := CloseSegment(s.store, stream, now).0)
    case DoSign(p, name, id, entropy, now) =>
      State(SignSegment(s.store, s.heads, p, name, id, entropy, now).0,
            SignSegment(s.store, s.heads, p, name, id, entropy, now).1)
    case DoCreateStream(name, tier, description, now) =>
      s.(store := CreateStream(s.store, name, tier, description, now))
    case DoDeprecate(name, now) => s.(store := DeprecateStream(s.store, name, now).0)
  }

  function Run(s: State, steps: seq<Step>): State {
    if steps == [] then s else Apply(Run(s, Front(steps)), Last(steps))
  }

  /** A fresh store, seeded with the default stream, and an empty head file. */
  const INITIAL := State(Store([], [], [], [], [SEED], 0, 0), [])

  ghost predicate StateOk(s: State) {
    StoreOk(s.store) && HeadsOk(s.store, s.heads)
  }

  /** What a state must satisfy for the segments and the head record of one stream to be sound. */
  ghost predicate StreamStateOk(s: State, stream: Text) {
    && SegmentsOk(s.store, stream)
    && (HeadGet(s.heads, stream).Some? ==> RecordOk(s.store, HeadGet(s.heads, stream).value))
  }

  lemma StateStreamsOk(s: State, stream: Text)
    requires StateOk(s)
    ensures StreamStateOk(s, stream) && SegmentsOk(s.store, stream)
  {
  }

  lemma InitialStateOk()
    ensures StateOk(INITIAL)
  {
  }

  // ----- Appending -----

  /** The digest `append_inner` links to is the tip of the stream's chain. */
  lemma {:induction false} LinkIsTip(entries: seq<Row>, stream: Text)
    requires Dense(entries) && ChainValid(entries, stream)
    ensures LinkHash(entries, stream) == CheckRows(StreamRows(entries, stream), ZERO_HASH)
  {
    hide CheckRows, StreamRows;
    DenseLastRow(entries, stream);
    CheckRowsAcceptsLinked(StreamRows(entries, stream), ZERO_HASH);
  }

  lemma {:induction false} SealedRowHashes(p: Process, d: Draft, seqno: nat, prev: Digest)
    ensures var r := SealRow(p, d, seqno, prev);
      && r.seqno == seqno && r.streamId == d.streamId && r.prevEntryHash == prev
      && r.payload == d.payload && r.payloadEncoding == d.payloadEncoding
      && r.entryHash == RowHash(r)
  {
    hide EncodeEntry;
    var r := SealRow(p, d, seqno, prev);
    assert RowToEntry(r) == RowToEntry(r.(entryHash := []));
  }

  /** In a well-formed store an append never fails: it adds one sealed row with the next seqno. */
  lemma {:induction false} AppendRowAdds(t: Store, p: Process, d: Draft)
    requires StoreOk(t)
    ensures LinkHash(t.entries, d.streamId).Ok?
    ensures var r := SealRow(p, d, |t.entries| + 1, LinkHash(t.entries, d.streamId).value);
      AppendRow(t, p, d) == (t.(entries := t.entries + [r]), Ok(AppendResult(r.seqno, r.entryHash)))
  {
    hide CheckRows, StreamRows, SealRow, StreamOk, HasSeqno;
    assert ChainValid(t.entries, d.streamId);
    LinkIsTip(t.entries, d.streamId);
    DenseGlobalHead(t.entries);
    SealedRowHashes(p, d, |t.entries| + 1, LinkHash(t.entries, d.streamId).value);
  }

  lemma {:induction false} AppendRowKeepsStateOk(s: State, p: Process, d: Draft)
    requires StateOk(s)
    ensures StateOk(s.(store := AppendRow(s.store, p, d).0))
  {
    hide CheckRows, StreamRows, SealRow, StreamOk, AppendRow, RecordOk, RowHash;
    var t := s.store;
    AppendRowAdds(t, p, d);
    assert ChainValid(t.entries, d.streamId);
    LinkIsTip(t.entries, d.streamId);
    var r := SealRow(p, d, |t.entries| + 1, LinkHash(t.entries, d.streamId).value);
    SealedRowHashes(p, d, |t.entries| + 1, LinkHash(t.entries, d.streamId).value);
    AppendKeepsStoreOk(t, r);
    forall stream | HeadGet(s.heads, stream).Some?
      ensures RecordOk(t.(entries := t.entries + [r]), HeadGet(s.heads, stream).value)
    {
      AppendKeepsRecord(t, r, HeadGet(s.heads, stream).value);
    }
  }

  // ----- Closing -----

  /** A range that ends at a row of the stream ends with that row. */
  lemma {:induction false} RangeEndsAt(entries: seq<Row>, stream: Text, from: nat, to: nat)
    requires Dense(entries) && from <= to <= |entries| && to >= 1 && entries[to - 1].streamId == stream
    ensures FilterRange(entries, stream, from, to) != [] && Last(FilterRange(entries, stream, from, to)).seqno == to
  {
    hide FilterRange;
    var rows := FilterRange(entries, stream, from, to);
    FilterRangeMembers(entries, stream, from, to, entries[to - 1]);
    DenseFilterIsSorted(entries, stream, from, to);
    var i :| 0 <= i < |rows| && rows[i] == entries[to - 1];
    assert InRange(rows[|rows| - 1], stream, from, to);
  }

  lemma {:induction false} HeadIsARow(entries: seq<Row>, stream: Text)
    requires Dense(entries) && Head(entries, stream).Some?
    ensures 1 <= Head(entries, stream).value <= |entries| && entries[Head(entries, stream).value - 1].streamId == stream
  {
    hide StreamRows, Head;
    DenseLastRow(entries, stream);
    StreamRowsAreIn(entries, stream);
    var rows := StreamRows(entries, stream);
    assert rows[|rows| - 1] == Last(rows);
    WholeFilterIsStream(entries, stream, 0, |entries|);
    DenseFilterIsSorted(entries, stream, 0, |entries|);
  }

  /** The rows `close_segment` reads. */
  function RowsToClose(t: Store, stream: Text): seq<Row> {
    if Head(t.entries, stream).None? then []
    else Range(t.entries, stream, SegmentStart(t, stream), Head(t.entries, stream).value)
  }

  /** The segment it makes of them. */
  function RowToInsert(t: Store, stream: Text, now: Text): SegmentRow
    requires CloseSegment(t, stream, now).1.Ok?
  {
    var rows := RowsToClose(t, stream);
    NewSegment(stream, rows, LeafHashes(rows).value, Head(t.entries, stream).value, TipCheckpoint(t, stream).value, now)
  }

  /** What `close_segment` inserts when it succeeds. */
  lemma {:induction false} CloseInserts(t: Store, stream: Text, now: Text) returns (row: SegmentRow, rows: seq<Row>)
    requires StoreOk(t)
    ensures CloseSegment(t, stream, now).1.Ok? ==>
      && row == RowToInsert(t, stream, now) && rows == RowsToClose(t, stream)
      && Closes(t, stream, row, rows)
      && CloseSegment(t, stream, now).0 == InsertSegment(t, row, rows).0
    ensures CloseSegment(t, stream, now).1.Err? ==> CloseSegment(t, stream, now).0 == t
    ensures CloseSegment(t, stream, now).1.Ok? ==>
      CloseSegment(t, stream, now).1.value.segmentId == NewSegmentId(t)
        && CloseSegment(t, stream, now).1.value.merkleRoot == row.merkleRoot
  {
    hide FilterRange, Range, LeafHashes, MTH, TipCheckpoint, SegmentStart, Head, StreamOk, InsertSegment;
    rows := [];
    row := SegmentRow(0, [], 0, 0, [], [], [], [], None, None);
    if CloseSegment(t, stream, now).1.Ok? {
      var head := Head(t.entries, stream).value;
      rows := RowsToClose(t, stream);
      row := RowToInsert(t, stream, now);
      DenseRange(t.entries, stream, SegmentStart(t, stream), head);
      HeadIsARow(t.entries, stream);
      RangeEndsAt(t.entries, stream, SegmentStart(t, stream), head);
      InsertSegmentId(t, row, rows);
    }
  }

  lemma InsertSegmentId(t: Store, row: SegmentRow, rows: seq<Row>)
    ensures InsertSegment(t, row, rows).1 == NewSegmentId(t)
  {
  }

  lemma {:induction false} CloseKeepsStateOk(s: State, stream: Text, now: Text)
    requires StateOk(s)
    ensures StateOk(s.(store := CloseSegment(s.store, stream, now).0))
  {
    hide StoreOk, CloseSegment, InsertSegment, RecordOk, Closes;
    var row, rows := CloseInserts(s.store, stream, now);
    if CloseSegment(s.store, stream, now).1.Ok? {
      CloseKeepsStoreOk(s.store, stream, row, rows);
      forall stream | HeadGet(s.heads, stream).Some?
        ensures RecordOk(InsertSegment(s.store, row, rows).0, HeadGet(s.heads, stream).value)
      {
        CloseKeepsRecord(s.store, row, rows, HeadGet(s.heads, stream).value);
      }
    }
  }

  // ----- Signing -----

  /** With dense ids: where a segment stands in its stream's list, and that its checkpoint hash is the
      fold up to it. */
  lemma {:induction false} HashIsFold(t: Store, id: nat)
    requires IdsDense(t) && 1 <= id <= |t.segments|
    ensures SegmentGet(t.segments, id) == Some(t.segments[id - 1])
    ensures var stream := t.segments[id - 1].streamId;
      var list := FilterStream(t.segments, stream);
      var k := Position(list, id);
      && k < |list| && list[k] == t.segments[id - 1]
      && ComputeCheckpointHash(t, stream, id) == CheckpointFold(t.entries, list[..k + 1])
  {
    hide FilterStream, SegmentGet, CheckpointFold, ComputeCheckpointHash;
    var row := t.segments[id - 1];
    var stream := row.streamId;
    var list := FilterStream(t.segments, stream);
    DenseSegmentGet(t.segments, 0, id);
    DenseSegmentsList(t, stream);
    SegmentsListMembers(t.segments, stream, row);
    var j :| 0 <= j < |list| && list[j] == row;
    ListIsIndexed(t.segments, stream, j);
    RecursionIsFold(t, stream, j);
  }

  /** In a well-formed store that hash is also defined. */
  lemma {:induction false} SegmentIsListed(t: Store, id: nat)
    requires StoreOk(t) && 1 <= id <= |t.segments|
    ensures SegmentGet(t.segments, id) == Some(t.segments[id - 1])
    ensures var stream := t.segments[id - 1].streamId;
      var list := FilterStream(t.segments, stream);
      var k := Position(list, id);
      && k < |list| && list[k] == t.segments[id - 1]
      && CheckpointFold(t.entries, list[..k + 1]).Ok?
      && ComputeCheckpointHash(t, stream, id) == CheckpointFold(t.entries, list[..k + 1])
  {
    hide FilterStream, SegmentGet, CheckpointFold, ComputeCheckpointHash, SegmentOk, SignatureOk, Position, ChainValid;
    HashIsFold(t, id);
    var stream := t.segments[id - 1].streamId;
    var list := FilterStream(t.segments, stream);
    assert StreamOk(t, stream);
    FoldIsDefined(t.entries, t.segmentEntries, stream, list, Position(list, id));
  }

  lemma {:induction false} UnknownSegment(t: Store, id: nat)
    requires IdsDense(t) && !(1 <= id <= |t.segments|)
    ensures SegmentGet(t.segments, id) == None
  {
    DenseSegmentGet(t.segments, 0, id);
  }

  lemma {:induction false} SignKeepsStateOk(s: State, p: Process, name: Text, id: nat, entropy: Bytes, now: Text)
    requires StateOk(s)
    ensures StateOk(Apply(s, DoSign(p, name, id, entropy, now)))
  {
    hide StoreOk, FilterStream, CheckpointFold, ComputeCheckpointHash, SegmentGet, WithSignature, RecordOk, Hex,
         HeadUpsert;
    var t := s.store;
    if 1 <= id <= |t.segments| {
      SegmentIsListed(t, id);
      var row := t.segments[id - 1];
      var hash := ComputeCheckpointHash(t, row.streamId, id).value;
      if SignCheckpoint(name, hash, entropy).Some? {
        var (signature, identity) := SignCheckpoint(name, hash, entropy).value;
        SignedVerifies(name, hash, entropy);
        SignKeepsStoreOk(t, id, signature, identity);
        SignKeepsHeads(s, p, id, signature, identity, hash, now);
      }
    } else {
      StoreSegmentsOk(t, []);
      UnknownSegment(t, id);
    }
  }

  lemma {:induction false} SignKeepsHeads(s: State, p: Process, id: nat, signature: Bytes, identity: Text,
          hash: Digest, now: Text)
    requires StateOk(s) && SignsFold(s.store, id, signature, identity)
    requires ComputeCheckpointHash(s.store, s.store.segments[id - 1].streamId, id) == Ok(hash)
    ensures var row := s.store.segments[id - 1];
      var record := HeadRecord(row.streamId, id, row.seqEnd, Hex(hash), now);
      HeadsOk(s.store.(segments := WithSignature(s.store.segments, id, signature, identity)),
              if p.tracksHeads then HeadUpsert(s.heads, record) else s.heads)
  {
    hide StoreOk, FilterStream, CheckpointFold, ComputeCheckpointHash, WithSignature, RecordOk, Hex, HeadUpsert;
    StoreSegmentsOk(s.store, s.store.segments[id - 1].streamId);
    var row := s.store.segments[id - 1];
    var record := HeadRecord(row.streamId, id, row.seqEnd, Hex(hash), now);
    var heads := if p.tracksHeads then HeadUpsert(s.heads, record) else s.heads;
    forall stream | HeadGet(heads, stream).Some?
      ensures RecordOk(s.store.(segments := WithSignature(s.store.segments, id, signature, identity)),
                       HeadGet(heads, stream).value)
    {
      UpsertSetsOneStream(s.heads, record, stream);
      SignKeepsHead(s, p, id, signature, identity, hash, now, stream);
    }
  }

  /** Signing keeps the record of each stream true, or replaces it with a true one. */
  lemma {:induction false} SignKeepsHead(s: State, p: Process, id: nat, signature: Bytes, identity: Text, hash: Digest,
                                         now: Text, stream: Text)
    requires IdsDense(s.store) && 1 <= id <= |s.store.segments|
    requires ComputeCheckpointHash(s.store, s.store.segments[id - 1].streamId, id) == Ok(hash)
    requires HeadGet(s.heads, stream).Some? ==> RecordOk(s.store, HeadGet(s.heads, stream).value)
    ensures var row := s.store.segments[id - 1];
      var record := HeadRecord(row.streamId, id, row.seqEnd, Hex(hash), now);
      var heads := if p.tracksHeads then HeadUpsert(s.heads, record) else s.heads;
      HeadGet(heads, stream).Some? ==>
        RecordOk(s.store.(segments := WithSignature(s.store.segments, id, signature, identity)),
                 HeadGet(heads, stream).value)
  {
    hide FilterStream, CheckpointFold, ComputeCheckpointHash, WithSignature, RecordOk, Hex, HeadUpsert;
    var t := s.store;
    var row := t.segments[id - 1];
    UpsertSetsOneStream(s.heads, HeadRecord(row.streamId, id, row.seqEnd, Hex(hash), now), stream);
    if p.tracksHeads && stream == row.streamId {
      NewRecordOk(t, id, signature, identity, hash, now);
    } else if HeadGet(s.heads, stream).Some? {
      SignKeepsRecord(t, id, signature, identity, HeadGet(s.heads, stream).value);
    }
  }

  lemma {:induction false} NewRecordOk(t: Store, id: nat, signature: Bytes, identity: Text, hash: Digest, now: Text)
    requires IdsDense(t) && 1 <= id <= |t.segments|
    requires ComputeCheckpointHash(t, t.segments[id - 1].streamId, id) == Ok(hash)
    ensures var row := t.segments[id - 1];
      RecordOk(t.(segments := WithSignature(t.segments, id, signature, identity)),
               HeadRecord(row.streamId, id, row.seqEnd, Hex(hash), now))
  {
    hide FilterStream, CheckpointFold, ComputeCheckpointHash, WithSignature, Hex;
    HashIsFold(t, id);
    var stream := t.segments[id - 1].streamId;
    var list := FilterStream(t.segments, stream);
    var list' := FilterStream(WithSignature(t.segments, id, signature, identity), stream);
    var k := Position(list, id);
    SignedList(t, id, signature, identity, stream);
    SignKeepsPosition(list, list', id);
    assert list'[k] == Signed(list[k], id, signature, identity);
    FoldIgnoresSignatures(t.entries, list[..k + 1], list'[..k + 1]);
  }

  // ----- All steps -----

  lemma {:induction false} StreamsKeepStateOk(s: State, streams: seq<StreamRow>)
    requires StateOk(s)
    ensures StateOk(s.(store := s.store.(streams := streams)))
  {
    hide ListOk, FilterStream, CheckpointFold, ChainValid;
    var t, t' := s.store, s.store.(streams := streams);
    forall stream ensures StreamOk(t', stream) {
      assert StreamOk(t, stream);
    }
    forall stream | HeadGet(s.heads, stream).Some? ensures RecordOk(t', HeadGet(s.heads, stream).value) {
      assert RecordOk(t, HeadGet(s.heads, stream).value);
    }
    assert forall stream :: ChainValid(t.entries, stream) ==> ChainValid(t'.entries, stream);
  }

  lemma {:induction false} ApplyKeepsStateOk(s: State, step: Step)
    requires StateOk(s)
    ensures StateOk(Apply(s, step))
  {
    hide StateOk, AppendRow, CloseSegment, SignSegment, SealedDraft, UpsertStream, WithDeprecation, StreamGet,
         ResolveTier, OpenSegmentId;
    match step
    case DoAppend(p, d) => AppendRowKeepsStateOk(s, p, d);
    case DoAppendEncrypted(p, d, nonce) =>
      if p.masterKey.Some? && ResolveTier(s.store, d.streamId).Ok? {
        AppendRowKeepsStateOk(s, p, SealedDraft(p.masterKey.value, d, ResolveTier(s.store, d.streamId).value,
                                                OpenSegmentId(s.store, d.streamId), nonce));
      }
    case DoClose(stream, now) => CloseKeepsStateOk(s, stream, now);
    case DoSign(p, name, id, entropy, now) => SignKeepsStateOk(s, p, name, id, entropy, now);
    case DoCreateStream(name, tier, description, now) =>
      StreamsKeepStateOk(s, CreateStream(s.store, name, tier, description, now).streams);
    case DoDeprecate(name, now) =>
      StreamsKeepStateOk(s, DeprecateStream(s.store, name, now).0.streams);
  }

  lemma {:induction false} RunKeepsStateOk(s: State, steps: seq<Step>)
    requires StateOk(s)
    ensures StateOk(Run(s, steps))
  {
    if steps != [] {
      RunKeepsStateOk(s, Front(steps));
      ApplyKeepsStateOk(Run(s, Front(steps)), Last(steps));
    }
  }

  /** Every reachable state is well formed. */
  lemma {:induction false} ReachableStateOk(steps: seq<Step>)
    ensures StateOk(Run(INITIAL, steps))
  {
    InitialStateOk();
    RunKeepsStateOk(INITIAL, steps);
  }
}
