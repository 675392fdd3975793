/** The checkpoint chain and the rollback check in every reachable state, and what an accepted
    rollback check binds in a store nothing else is known about. What it leaves open, and what closes
    the gap, is in RewrittenHistory.dfy. */
module CheckpointTheorems {
  import opened Basics
  import opened Records
  import opened Encoder
  import opened Crypto
  import opened Tables
  import opened Checkpoints
  import opened HeadFiles
  import opened Engine
  import opened Invariants
  import opened Preservation
  import opened Runs

  // ----- Signatures and the checkpoint chain -----

  ghost predicate AllSigned(list: seq<SegmentRow>) {
    forall i | 0 <= i < |list| :: list[i].signature.Some?
  }

  /** A segment's signature verifies, over the fold up to it, exactly when it has one. */
  lemma {:induction false} SignatureVerifiesIff(t: Store, stream: Text, k: nat)
    requires SegmentsOk(t, stream) && k < |FilterStream(t.segments, stream)|
    ensures var list := FilterStream(t.segments, stream);
      && CheckpointFold(t.entries, list[..k + 1]).Ok?
      && ComputeCheckpointHash(t, stream, list[k].segmentId) == CheckpointFold(t.entries, list[..k + 1])
      && VerifySegmentSignature(t, list[k].segmentId)
         == if list[k].signature.Some? then CheckpointFold(t.entries, list[..k + 1]) else Err(Invalid(Unsigned))
  {
    hide FilterStream, CheckpointFold, ComputeCheckpointHash, SegmentGet, SegmentOk, ChainValid, VerifyCheckpoint;
    var list := FilterStream(t.segments, stream);
    DenseSegmentsList(t, stream);
    ListIsIndexed(t.segments, stream, k);
    RecursionIsFold(t, stream, k);
    FoldIsDefined(t.entries, t.segmentEntries, stream, list, k);
    OneOfList(t.entries, t.segmentEntries, stream, list, k);
  }

  lemma {:induction false} StoredPredecessor(t: Store, stream: Text, k: nat)
    requires SegmentsOk(t, stream) && k < |FilterStream(t.segments, stream)|
    ensures var list := FilterStream(t.segments, stream);
      && CheckpointFold(t.entries, list[..k]).Ok?
      && list[k].prevCheckpointHash == CheckpointFold(t.entries, list[..k]).value
  {
    hide FilterStream, CheckpointFold, FilterRange, FilterSegment, LeafHashes, LeafEntries;
    OneOfList(t.entries, t.segmentEntries, stream, FilterStream(t.segments, stream), k);
  }

  lemma {:induction false} CheckSegmentsUnfolds(t: Store, list: seq<SegmentRow>, k: nat)
    requires k < |list|
    ensures CheckSegments(t, list[..k + 1])
      == match CheckSegments(t, list[..k]) { case Err(e) => Err(e) case Ok(prev) => CheckSegment(t, list[k], prev) }
  {
    hide CheckSegment;
    assert Front(list[..k + 1]) == list[..k];
  }

  lemma {:induction false} CheckSegmentsFollowsFold(t: Store, stream: Text, k: nat)
    requires SegmentsOk(t, stream) && k <= |FilterStream(t.segments, stream)|
    ensures var list := FilterStream(t.segments, stream);
      CheckSegments(t, list[..k])
      == if AllSigned(list[..k]) then CheckpointFold(t.entries, list[..k]) else Err(Invalid(Unsigned))
  {
    hide FilterStream, CheckpointFold, CheckSegments, SegmentsOk, VerifySegmentSignature, ComputeCheckpointHash,
         AllSigned;
    var list := FilterStream(t.segments, stream);
    if k == 0 {
      EmptyFold(t.entries);
      EmptyCheck(t);
      assert list[..0] == [];
    } else {
      CheckSegmentsFollowsFold(t, stream, k - 1);
      CheckSegmentsUnfolds(t, list, k - 1);
      StoredPredecessor(t, stream, k - 1);
      SignatureVerifiesIff(t, stream, k - 1);
      AllSignedUnfolds(list, k - 1);
    }
  }

  lemma {:induction false} AllSignedUnfolds(list: seq<SegmentRow>, k: nat)
    requires k < |list|
    ensures AllSigned(list[..k + 1]) <==> AllSigned(list[..k]) && list[k].signature.Some?
  {
    assert list[..k + 1][k] == list[k];
    assert forall i | 0 <= i < k :: list[..k + 1][i] == list[..k][i];
  }

  lemma EmptyCheck(t: Store)
    ensures CheckSegments(t, []) == Ok(ZERO_HASH) && AllSigned([])
  {
  }

  /** In every reachable state `verify_checkpoint_chain` returns the number of segments if the stream
      has segments and all are signed, and otherwise reports what is missing: every stored link
      equals its recomputation, whenever and by whomever the segments were closed and signed. */
  lemma {:induction false} CheckpointChainVerifiesIff(s: State, stream: Text)
    requires SegmentsOk(s.store, stream)
    ensures var list := SegmentsList(s.store.segments, stream);
      VerifyCheckpointChain(s.store, stream)
      == if list == [] then Err(StreamNotFound(stream))
         else if AllSigned(list) then Ok(|list|)
         else Err(Invalid(Unsigned))
  {
    hide FilterStream, CheckpointFold, CheckSegments, StreamOk, SegmentsList, AllSigned;
    var list := FilterStream(s.store.segments, stream);
    DenseSegmentsList(s.store, stream);
    CheckSegmentsFollowsFold(s.store, stream, |list|);
    assert list[..|list|] == list;
    if list != [] {
      SignatureVerifiesIff(s.store, stream, |list| - 1);
    }
  }

  lemma StoreIdsDense(t: Store)
    requires StoreOk(t)
    ensures IdsDense(t) && Dense(t.entries)
  {
  }

  // ----- The rollback check -----

  /** A record of a reachable head file names a segment of its stream, not above the last one, whose
      recomputed hash is the recorded one and whose signature verifies. */
  lemma {:induction false} RecordIsTrue(s: State, stream: Text) returns (k: nat)
    requires StreamStateOk(s, stream) && HeadGet(s.heads, stream).Some?
    ensures var record := HeadGet(s.heads, stream).value;
      var list := SegmentsList(s.store.segments, stream);
      && k < |list| && list[k].segmentId == record.segmentId <= Last(list).segmentId
      && list[k].seqEnd == record.seqEnd
      && list == FilterStream(s.store.segments, stream)
      && StoredHash(record).Ok?
      && ComputeCheckpointHash(s.store, stream, record.segmentId) == StoredHash(record)
      && VerifySegmentSignature(s.store, record.segmentId) == StoredHash(record)
  {
    hide FilterStream, CheckpointFold, StreamOk, SegmentsList, Hex, ParseHex, VerifySegmentSignature,
         ComputeCheckpointHash;
    var record := HeadGet(s.heads, stream).value;
    HeadGetIsOfStream(s.heads, stream);
    DenseSegmentsList(s.store, stream);
    DenseFilterStream(s.store.segments, stream);
    var list := FilterStream(s.store.segments, stream);
    k := Position(list, record.segmentId);
    SignatureVerifiesIff(s.store, stream, k);
    HexReadsBack(CheckpointFold(s.store.entries, list[..k + 1]).value);
  }

  /** In every reachable state the rollback check accepts, for every process and stream. */
  lemma {:induction false} RollbackCheckAccepts(s: State, p: Process, stream: Text)
    requires StreamStateOk(s, stream)
    ensures CheckRollback(s.store, s.heads, p, stream) == Ok(())
  {
    hide StreamStateOk, ComputeCheckpointHash, VerifySegmentSignature, StoredHash, SegmentsList, HeadGet;
    if HeadGet(s.heads, stream).Some? {
      var k := RecordIsTrue(s, stream);
    }
  }

  /** An accepted rollback check with a record found a segment whose recomputed hash is the recorded
      one, in any store. */
  lemma {:induction false} AcceptedRollbackComputes(t: Store, heads: seq<HeadRecord>, p: Process, stream: Text)
    requires p.tracksHeads && HeadGet(heads, stream).Some? && CheckRollback(t, heads, p, stream).Ok?
    ensures var record := HeadGet(heads, stream).value;
      && ComputeFields(t, stream, record.segmentId).Ok?
      && StoredHash(record).Ok?
      && ComputeCheckpointHash(t, stream, record.segmentId) == StoredHash(record)
  {
    hide ComputeFields, VerifySegmentSignature, StoredHash, SegmentsList, HeadGet;
  }

  lemma {:induction false} HashNeedsFields(t: Store, stream: Text, id: nat)
    requires ComputeCheckpointHash(t, stream, id).Ok?
    ensures ComputeFields(t, stream, id).Ok?
  {
    hide ComputeFields;
  }

  /** The integers and lengths of every checkpoint up to this one fit the Rust types that hold them. */
  ghost predicate FieldsInRange(t: Store, stream: Text, id: nat) {
    ComputeFields(t, stream, id).Ok? ==> forall f | f in FieldsUpTo(t, stream, id) :: CheckpointInRange(f)
  }

  /** Rollback binding. A store about which nothing is known but that the rollback check accepts it
      holds the same checkpoint fields, from the stream's first segment up to the recorded one, as the
      store the record was written for; or `FieldsBreak` of the two is genuine. */
  lemma {:induction false} RollbackCheckBinds(s: State, t: Store, heads: seq<HeadRecord>, p: Process, stream: Text)
    requires StateOk(s) && p.tracksHeads
    requires HeadGet(heads, stream).Some? && HeadGet(heads, stream) == HeadGet(s.heads, stream)
    requires CheckRollback(t, heads, p, stream).Ok?
    requires FieldsInRange(s.store, stream, HeadGet(heads, stream).value.segmentId)
    requires FieldsInRange(t, stream, HeadGet(heads, stream).value.segmentId)
    ensures var id := HeadGet(heads, stream).value.segmentId;
      && ComputeFields(s.store, stream, id).Ok? && ComputeFields(t, stream, id).Ok?
      && (FieldsUpTo(t, stream, id) == FieldsUpTo(s.store, stream, id)
          || FieldsBreak(FieldsUpTo(t, stream, id), FieldsUpTo(s.store, stream, id)).Genuine())
  {
    hide StateOk, ComputeCheckpointHash, ComputeFields, VerifySegmentSignature, StoredHash, SegmentsList, HeadGet,
         FieldsUpTo, FieldsBreak, CheckRollback, CheckpointInRange, FilterStream;
    var id := HeadGet(heads, stream).value.segmentId;
    StateStreamsOk(s, stream);
    var k := RecordIsTrue(s, stream);
    HashNeedsFields(s.store, stream, id);
    AcceptedRollbackComputes(t, heads, p, stream);
    CheckpointHashBinds(t, stream, id, s.store, stream, id);
  }
}
