/** What binds the entries of a store of unknown origin to those of the store whose head was recorded:
    the rollback check for the checkpoints, the entry chain for the entries, and either the last entry
    hash or an inclusion proof to tie the two together. */
module TamperEvidence {
  import opened Basics
  import opened Records
  import opened Encoder
  import opened Tables
  import opened MerkleSpec
  import opened MerkleBinding
  import opened Merkle
  import opened Chain
  import opened Checkpoints
  import opened HeadFiles
  import opened Engine
  import opened FileLog
  import opened Invariants
  import opened Preservation
  import opened Runs
  import opened ChainTheorems
  import opened SegmentTheorems
  import opened InclusionTheorems
  import opened CheckpointTheorems
  import opened PayloadTheorems

  // ----- By the last entry hash -----

  /** The last of the fields up to a segment are those of the segment's own row. */
  lemma {:induction false} LastFieldsAreOwn(t: Store, stream: Text, id: nat)
    requires ComputeFields(t, stream, id).Ok?
    ensures SegmentGet(t.segments, id).Some? && FieldsUpTo(t, stream, id) != []
    ensures var f, row := Last(FieldsUpTo(t, stream, id)), SegmentGet(t.segments, id).value;
      f.lastEntryHash == row.lastEntryHash && f.merkleRoot == row.merkleRoot && |row.merkleRoot| == HASH_LEN
  {
    hide FieldsUpTo, PreviousCheckpointHash, SegmentGet, Get;
    FieldsUpToAreChained(t, stream, id);
  }

  /** The rows of the honest store up to the end of a segment. */
  lemma {:induction false} HonestRowsUpTo(s: State, stream: Text, k: nat)
    requires StateOk(s) && k < |FilterStream(s.store.segments, stream)|
    ensures var seg := FilterStream(s.store.segments, stream)[k];
      var rows := Range(s.store.entries, stream, 1, seg.seqEnd);
      && SegmentGet(s.store.segments, seg.segmentId) == Some(seg)
      && rows != [] && Last(rows).entryHash == seg.lastEntryHash && Last(rows).seqno == seg.seqEnd
      && VerifyChain(s.store.entries, stream, 1, seg.seqEnd).Ok?
  {
    hide FilterStream, Range, VerifyChain, StoreOk, HeadsOk, SegmentGet, FilterSegment, LeafHashes, LeafEntries,
         EntrySeqnos, MTH;
    var t := s.store;
    var seg := FilterStream(t.segments, stream)[k];
    StoreIdsDense(t);
    DenseFilterStream(t.segments, stream);
    DenseSegmentGet(t.segments, 0, seg.segmentId);
    SegmentDescribesRows(s, stream, k);
    var own := Range(t.entries, stream, seg.seqStart, seg.seqEnd);
    RangeAllInRange(t.entries, stream, seg.seqStart, seg.seqEnd);
    assert own[0] in t.entries;
    RangeSplits(t.entries, stream, 1, seg.seqStart - 1, seg.seqEnd);
    VerifyChainAcceptsReachable(s, stream, 1, seg.seqEnd);
  }

  /** What the recorded segment's row says in the accepted store is what it says in the honest one. */
  lemma {:induction false} RecordedRowIsBound(s: State, t: Store, heads: seq<HeadRecord>, p: Process, stream: Text)
    returns (k: nat)
    requires StateOk(s) && p.tracksHeads
    requires HeadGet(heads, stream).Some? && HeadGet(heads, stream) == HeadGet(s.heads, stream)
    requires CheckRollback(t, heads, p, stream).Ok?
    requires FieldsInRange(s.store, stream, HeadGet(heads, stream).value.segmentId)
    requires FieldsInRange(t, stream, HeadGet(heads, stream).value.segmentId)
    ensures var record := HeadGet(heads, stream).value;
      var list := FilterStream(s.store.segments, stream);
      && k < |list| && list[k].segmentId == record.segmentId && list[k].seqEnd == record.seqEnd
      && ComputeFields(s.store, stream, record.segmentId).Ok? && ComputeFields(t, stream, record.segmentId).Ok?
      && SegmentGet(t.segments, record.segmentId).Some?
      && (FieldsBreak(FieldsUpTo(t, stream, record.segmentId), FieldsUpTo(s.store, stream, record.segmentId)).Genuine()
          || (var row := SegmentGet(t.segments, record.segmentId).value;
              row.lastEntryHash == list[k].lastEntryHash && row.merkleRoot == list[k].merkleRoot))
  {
    hide StateOk, ComputeFields, FieldsUpTo, FieldsBreak, CheckRollback, CheckpointInRange, FilterStream, SegmentGet,
         HeadGet, SegmentsList, StoredHash, VerifySegmentSignature, ComputeCheckpointHash, Range, VerifyChain;
    var record := HeadGet(heads, stream).value;
    StateStreamsOk(s, stream);
    k := RecordIsTrue(s, stream);
    RollbackCheckBinds(s, t, heads, p, stream);
    LastFieldsAreOwn(s.store, stream, record.segmentId);
    LastFieldsAreOwn(t, stream, record.segmentId);
    HonestRowsUpTo(s, stream, k);
  }

  /** History binding, exactly. If a store of unknown origin passes the rollback check and its own chain
      of the stream verifies from seqno 1 to the recorded end, then its rows up to that end are the
      honest ones, field by field, if and only if the last of them carries the entry hash that its own
      recorded segment names; or `FieldsBreak` or `RowsBreak` of the two stores is genuine. None of the
      log's checkers makes this comparison. */
  lemma {:induction false} AcceptedHistoryIsBoundIff(s: State, t: Store, heads: seq<HeadRecord>, p: Process,
          stream: Text)
    requires StateOk(s) && p.tracksHeads
    requires HeadGet(heads, stream).Some? && HeadGet(heads, stream) == HeadGet(s.heads, stream)
    requires CheckRollback(t, heads, p, stream).Ok?
    requires VerifyChain(t.entries, stream, 1, HeadGet(heads, stream).value.seqEnd).Ok?
    requires FieldsInRange(s.store, stream, HeadGet(heads, stream).value.segmentId)
    requires FieldsInRange(t, stream, HeadGet(heads, stream).value.segmentId)
    requires RowsInRange(s.store.entries) && RowsInRange(t.entries)
    ensures var record := HeadGet(heads, stream).value;
      var rows, honest := Range(t.entries, stream, 1, record.seqEnd), Range(s.store.entries, stream, 1, record.seqEnd);
      && ComputeFields(s.store, stream, record.segmentId).Ok? && ComputeFields(t, stream, record.segmentId).Ok?
      && rows != [] && SegmentGet(t.segments, record.segmentId).Some?
      && (|| (rows == honest <==> Last(rows).entryHash == SegmentGet(t.segments, record.segmentId).value.lastEntryHash)
          || FieldsBreak(FieldsUpTo(t, stream, record.segmentId),
                         FieldsUpTo(s.store, stream, record.segmentId)).Genuine()
          || RowsBreak(rows, honest).Genuine())
  {
    hide StateOk, ComputeFields, FieldsUpTo, FieldsBreak, RowsBreak, CheckRollback, CheckpointInRange, FilterStream,
         Range, VerifyChain, SegmentGet, HeadGet, EntryInRange;
    var record := HeadGet(heads, stream).value;
    var k := RecordedRowIsBound(s, t, heads, p, stream);
    HonestRowsUpTo(s, stream, k);
    AcceptedFromGenesisIsLinked(t.entries, stream, record.seqEnd);
    if Last(Range(t.entries, stream, 1, record.seqEnd)).entryHash
      == Last(Range(s.store.entries, stream, 1, record.seqEnd)).entryHash {
      VerifyChainBinds(t.entries, s.store.entries, stream, stream, record.seqEnd, record.seqEnd);
    }
  }

  // ----- By an inclusion proof -----

  lemma {:induction false} LeavesOfAt(entries: seq<Row>, seqnos: seq<nat>, j: nat)
    requires LeavesOf(entries, seqnos).Ok? && j < |seqnos|
    ensures Get(entries, seqnos[j]).Some?
      && LeavesOf(entries, seqnos).value[j] == Get(entries, seqnos[j]).value.entryHash
  {
    hide Get;
    if j < |seqnos| - 1 {
      LeavesOfAt(entries, Front(seqnos), j);
    }
  }

  /** A proof that verifies against a root shows that the root is that of the leaves it was built from,
      and which of them is the entry's. */
  lemma {:induction false} VerifiedProofHasRoot(t: Store, q: nat, root: Digest) returns (leaves: seq<Digest>, i: nat)
    requires ProveInclusion(t, q).Ok? && InclusionVerdict(ProveInclusion(t, q).value, root) == Ok(())
    ensures LeavesOf(t.entries, EntrySeqnos(t.segmentEntries, ProveInclusion(t, q).value.segmentId)) == Ok(leaves)
    ensures i < |leaves| && MTH(leaves) == root
    ensures Get(t.entries, q).Some? && leaves[i] == Get(t.entries, q).value.entryHash
  {
    hide EntrySeqnos, SegmentForSeqno, MTH, Path, Get, LeavesOf, FoldPath;
    var seqnos := EntrySeqnos(t.segmentEntries, SegmentForSeqno(t.segmentEntries, q).value);
    leaves := LeavesOf(t.entries, seqnos).value;
    i := LastIndexOf(seqnos, q).value;
    PathFoldsToMTH(i, leaves);
    LeavesOfAt(t.entries, seqnos, i);
  }

  // ----- Entries as leaves -----

  function MessagesOf(rows: seq<Row>): (msgs: seq<Bytes>)
    ensures |msgs| == |rows| && forall j | 0 <= j < |rows| :: msgs[j] == RowMessage(rows[j])
  {
    if rows == [] then [] else MessagesOf(Front(rows)) + [RowMessage(Last(rows))]
  }

  /** The entry's encoding has the length of what a tree node hashes. */
  predicate NodeSized(row: Row) {
    |RowMessage(row)| == 2 * HASH_LEN
  }

  ghost predicate NoneNodeSized(rows: seq<Row>) {
    forall j | 0 <= j < |rows| :: !NodeSized(rows[j])
  }

  /** Sixteen bytes in its other fields keep a chained entry from having that length; a session id in the
      text form of a UUID, of 36 bytes, is more than enough. */
  lemma {:induction false} LongEntriesAreNotNodeSized(row: Row)
    requires |row.prevEntryHash| == HASH_LEN
    requires |row.streamId| + |row.sessionId| + |row.bootId| + |row.timestamp| + |row.eventType| + |row.producer|
             + |row.payloadEncoding| + |row.payload| >= 16
    ensures !NodeSized(row)
  {
    hide EncodeEntry;
    EntryLength(RowToEntry(row));
  }

  /** The honest rows of a segment are leaves over their own encodings. */
  lemma {:induction false} HonestLeaves(s: State, stream: Text, k: nat)
    requires StateOk(s) && k < |FilterStream(s.store.segments, stream)|
    requires var seg := FilterStream(s.store.segments, stream)[k];
      NoneNodeSized(Range(s.store.entries, stream, seg.seqStart, seg.seqEnd))
    ensures var seg := FilterStream(s.store.segments, stream)[k];
      var rows := Range(s.store.entries, stream, seg.seqStart, seg.seqEnd);
      && rows != [] && LeafHashes(rows).Ok? && seg.merkleRoot == MTH(LeafHashes(rows).value)
      && LeavesOfMessages(LeafHashes(rows).value, MessagesOf(rows))
  {
    hide StateOk, FilterStream, Range, LeafHashes, MTH, FilterSegment, LeafEntries, EntrySeqnos, RowMessage;
    var seg := FilterStream(s.store.segments, stream)[k];
    var rows := Range(s.store.entries, stream, seg.seqStart, seg.seqEnd);
    SegmentDescribesRows(s, stream, k);
    RangeAllInRange(s.store.entries, stream, seg.seqStart, seg.seqEnd);
    forall j | 0 <= j < |rows| ensures rows[j].entryHash == RowHash(rows[j]) {
      assert rows[j] in s.store.entries;
      var i :| 0 <= i < |s.store.entries| && s.store.entries[i] == rows[j];
      EntriesHashTheirFields(s, i);
    }
  }

  /** What someone holds who gets a proof of another entry accepted against the root of these rows. */
  function ProofBreak(r: Row, proof: InclusionProof, rows: seq<Row>): Break
    requires rows != [] && LeafHashes(rows).Ok?
  {
    Descent(RowMessage(r), proof.path, LeafHashes(rows).value, MessagesOf(rows))
  }

  /** Soundness of `verify_inclusion_proof`. Let any proof, wherever it comes from, verify against the root
      an honest segment was closed with, and carry the hash of some entry. Then that hash is the hash of a
      row of the segment, or `ProofBreak` is genuine; it is only needed that neither the entry nor a row of
      the segment is node sized. */
  lemma {:induction false} VerifiedEntryIsARow(s: State, stream: Text, k: nat, r: Row, proof: InclusionProof)
    returns (i: nat)
    requires StateOk(s) && k < |FilterStream(s.store.segments, stream)|
    requires var seg := FilterStream(s.store.segments, stream)[k];
      && |seg.merkleRoot| == HASH_LEN && InclusionVerdict(proof, seg.merkleRoot) == Ok(())
      && NoneNodeSized(Range(s.store.entries, stream, seg.seqStart, seg.seqEnd))
    requires proof.entryHash == RowHash(r) && !NodeSized(r)
    ensures var seg := FilterStream(s.store.segments, stream)[k];
      var rows := Range(s.store.entries, stream, seg.seqStart, seg.seqEnd);
      && rows != [] && LeafHashes(rows).Ok?
      && ((i < |rows| && rows[i].entryHash == RowHash(r)) || ProofBreak(r, proof, rows).Genuine())
  {
    hide StateOk, FilterStream, Range, LeafHashes, MTH, FoldPath, Descent, RowMessage;
    var seg := FilterStream(s.store.segments, stream)[k];
    var rows := Range(s.store.entries, stream, seg.seqStart, seg.seqEnd);
    HonestLeaves(s, stream, k);
    var leaves := LeafHashes(rows).value;
    AcceptedEntryIsALeaf(RowMessage(r), proof.path, leaves, MessagesOf(rows));
    i := 0;
    if RowHash(r) in leaves {
      i :| 0 <= i < |leaves| && leaves[i] == RowHash(r);
    }
  }

  /** The leaves behind an accepted proof. Where the proof comes from a store of unknown origin whose own
      leaves for it are hashed entries, none of them node sized, those leaves are the honest ones in order,
      however many the store claims; or `TreeCollision` of the two lists is genuine. */
  lemma {:induction false} VerifiedProofBindsLeaves(s: State, stream: Text, k: nat, t: Store, q: nat, msgs: seq<Bytes>)
    returns (leaves: seq<Digest>)
    requires StateOk(s) && k < |FilterStream(s.store.segments, stream)|
    requires ProveInclusion(t, q).Ok?
    requires var seg := FilterStream(s.store.segments, stream)[k];
      && |seg.merkleRoot| == HASH_LEN && InclusionVerdict(ProveInclusion(t, q).value, seg.merkleRoot) == Ok(())
      && NoneNodeSized(Range(s.store.entries, stream, seg.seqStart, seg.seqEnd))
    requires var built := LeavesOf(t.entries, EntrySeqnos(t.segmentEntries, ProveInclusion(t, q).value.segmentId));
      built.Ok? && LeavesOfMessages(built.value, msgs)
    ensures var seg := FilterStream(s.store.segments, stream)[k];
      var rows := Range(s.store.entries, stream, seg.seqStart, seg.seqEnd);
      && LeavesOf(t.entries, EntrySeqnos(t.segmentEntries, ProveInclusion(t, q).value.segmentId)) == Ok(leaves)
      && leaves != [] && rows != [] && |msgs| == |leaves| && LeafHashes(rows).Ok?
      && (leaves == LeafHashes(rows).value
          || TreeCollision(leaves, msgs, LeafHashes(rows).value, MessagesOf(rows)).Genuine())
  {
    hide StateOk, FilterStream, EntrySeqnos, MTH, Get, LeavesOf, LeafHashes, Range, ProveInclusion, InclusionVerdict,
         TreeCollision, RowMessage;
    var seg := FilterStream(s.store.segments, stream)[k];
    var rows := Range(s.store.entries, stream, seg.seqStart, seg.seqEnd);
    HonestLeaves(s, stream, k);
    var i: nat;
    leaves, i := VerifiedProofHasRoot(t, q, seg.merkleRoot);
    RootBindsMessages(leaves, msgs, LeafHashes(rows).value, MessagesOf(rows));
  }

  /** An interior node passes for an entry: with the empty path, the hash of two leaves is accepted against
      their root. So an accepted `entry_hash` by itself need not be the hash of any entry. */
  lemma {:induction false} NodePassesForEntry(a: Digest, b: Digest, seqno: nat, segmentId: nat, root: Digest)
    ensures InclusionVerdict(InclusionProof(seqno, NodeHash(a, b), segmentId, root, []), MTH([a, b])) == Ok(())
  {
    NodeIsAccepted(a, b);
  }

  /** In a store with unique seqnos, a range that ends at a row of the stream ends in what `Get` finds. */
  lemma {:induction false} RangeEndsInGet(entries: seq<Row>, stream: Text, end: nat)
    requires UniqueSeqnos(entries) && end >= 1 && Range(entries, stream, end, end) != []
    ensures Range(entries, stream, 1, end) != []
    ensures Get(entries, end) == Some(Last(Range(entries, stream, 1, end)))
      && Last(Range(entries, stream, 1, end)).seqno == end
  {
    hide Range, Get, UniqueSeqnos;
    RangeSplits(entries, stream, 1, end - 1, end);
    var own := Range(entries, stream, end, end);
    RangeAllInRange(entries, stream, end, end);
    assert Last(own) == own[|own| - 1];
    UniqueGet(entries, Last(own));
  }

  lemma {:induction false} UniqueGet(entries: seq<Row>, r: Row)
    requires UniqueSeqnos(entries) && r in entries
    ensures Get(entries, r.seqno) == Some(r)
  {
    var i :| 0 <= i < |entries| && entries[i] == r;
    if i > 0 {
      assert entries[0].seqno != entries[i].seqno;
      assert forall a, b | 0 <= a < b < |entries[1..]| ::
        entries[1..][a] == entries[a + 1] && entries[1..][b] == entries[b + 1];
      assert entries[1..][i - 1] == r;
      UniqueGet(entries[1..], r);
    }
  }

  /** The honest chain up to the i-th row of a segment. */
  lemma {:induction false} HonestRowsUpToLeaf(s: State, stream: Text, k: nat, i: nat)
    requires StateOk(s) && k < |FilterStream(s.store.segments, stream)|
    requires var seg := FilterStream(s.store.segments, stream)[k];
      i < |Range(s.store.entries, stream, seg.seqStart, seg.seqEnd)|
    ensures var seg := FilterStream(s.store.segments, stream)[k];
      var r := Range(s.store.entries, stream, seg.seqStart, seg.seqEnd)[i];
      && 1 <= r.seqno && VerifyChain(s.store.entries, stream, 1, r.seqno).Ok?
      && Range(s.store.entries, stream, 1, r.seqno) != [] && Last(Range(s.store.entries, stream, 1, r.seqno)) == r
  {
    hide FilterStream, Range, VerifyChain, StoreOk, HeadsOk;
    var entries := s.store.entries;
    var seg := FilterStream(s.store.segments, stream)[k];
    var rows := Range(entries, stream, seg.seqStart, seg.seqEnd);
    var r := rows[i];
    StoreIdsDense(s.store);
    RangeAllInRange(entries, stream, seg.seqStart, seg.seqEnd);
    assert r in entries;
    var j :| 0 <= j < |entries| && entries[j] == r;
    DenseIsUnique(entries);
    RangeMembers(entries, stream, r.seqno, r.seqno, r);
    RangeEndsInGet(entries, stream, r.seqno);
    UniqueGet(entries, r);
    VerifyChainAcceptsReachable(s, stream, 1, r.seqno);
  }

  lemma DenseIsUnique(entries: seq<Row>)
    requires Dense(entries)
    ensures UniqueSeqnos(entries)
  {
  }

  /** History binding by the log's own calls. A store of unknown origin with unique seqnos passes the
      rollback check; `verify_chain` accepts the stream from seqno 1 to the recorded end, and at that end
      alone; and some inclusion proof that carries the end entry's hash verifies against the root of the
      store's own recorded segment. Then all its rows of the stream up to the recorded end are the honest
      ones, field by field, provided that neither the end entry nor an honest entry of that segment is node
      sized; or one of three explicit breaks is genuine: of the checkpoints, of the proof, or of the rows. */
  lemma {:induction false} ProvenHistoryIsBound(s: State, t: Store, heads: seq<HeadRecord>, p: Process, stream: Text,
          proof: InclusionProof)
    returns (end': nat)
    requires StateOk(s) && p.tracksHeads
    requires HeadGet(heads, stream).Some? && HeadGet(heads, stream) == HeadGet(s.heads, stream)
    requires CheckRollback(t, heads, p, stream).Ok? && UniqueSeqnos(t.entries)
    requires FieldsInRange(s.store, stream, HeadGet(heads, stream).value.segmentId)
    requires FieldsInRange(t, stream, HeadGet(heads, stream).value.segmentId)
    requires RowsInRange(s.store.entries) && RowsInRange(t.entries)
    requires var end := HeadGet(heads, stream).value.seqEnd;
      VerifyChain(t.entries, stream, 1, end).Ok? && VerifyChain(t.entries, stream, end, end).Ok?
    requires ProvesEnd(t, HeadGet(heads, stream).value, proof)
      && NoneNodeSized(SegmentRange(s.store, HeadGet(heads, stream).value))
    ensures var record := HeadGet(heads, stream).value;
      var honest := SegmentRange(s.store, record);
      && ComputeFields(s.store, stream, record.segmentId).Ok? && ComputeFields(t, stream, record.segmentId).Ok?
      && honest != [] && LeafHashes(honest).Ok? && Get(t.entries, record.seqEnd).Some?
      && (|| Range(t.entries, stream, 1, record.seqEnd) == Range(s.store.entries, stream, 1, record.seqEnd)
          || FieldsBreak(FieldsUpTo(t, stream, record.segmentId),
                         FieldsUpTo(s.store, stream, record.segmentId)).Genuine()
          || ProofBreak(Get(t.entries, record.seqEnd).value, proof, honest).Genuine()
          || RowsBreak(Range(t.entries, stream, 1, record.seqEnd), Range(s.store.entries, stream, 1, end')).Genuine())
  {
    hide StateOk, ComputeFields, FieldsUpTo, FieldsBreak, RowsBreak, ProofBreak, CheckRollback, CheckpointInRange,
         FilterStream, Range, VerifyChain, SegmentGet, HeadGet, EntryInRange, InclusionVerdict, LeafHashes, Get,
         UniqueSeqnos, NodeSized, RowHash;
    var record := HeadGet(heads, stream).value;
    var k := RecordedRowIsBound(s, t, heads, p, stream);
    HonestRowsUpTo(s, stream, k);
    StreamOfListed(s, stream, k);
    end' := 0;
    var seg := FilterStream(s.store.segments, stream)[k];
    HonestLeaves(s, stream, k);
    if SegmentGet(t.segments, record.segmentId).value.merkleRoot == seg.merkleRoot {
      EndHashesItsFields(t.entries, stream, record.seqEnd);
      var i := VerifiedEntryIsARow(s, stream, k, Get(t.entries, record.seqEnd).value, proof);
      var rows := Range(s.store.entries, stream, seg.seqStart, seg.seqEnd);
      if i < |rows| && rows[i].entryHash == proof.entryHash {
        end' := ChainToLeaf(s, stream, k, t, record.seqEnd, i, LeafHashes(rows).value);
      }
    }
  }

  /** The proof carries the hash of the entry at the recorded end, which is not node sized, and verifies
      against the root of the store's own recorded segment. */
  ghost predicate ProvesEnd(t: Store, record: HeadRecord, proof: InclusionProof) {
    && Get(t.entries, record.seqEnd).Some? && !NodeSized(Get(t.entries, record.seqEnd).value)
    && proof.entryHash == Get(t.entries, record.seqEnd).value.entryHash
    && VerifiesAtRecord(t, record, proof)
  }

  ghost predicate VerifiesAtRecord(t: Store, record: HeadRecord, proof: InclusionProof) {
    && SegmentGet(t.segments, record.segmentId).Some?
    && var root := SegmentGet(t.segments, record.segmentId).value.merkleRoot;
       |root| == HASH_LEN && InclusionVerdict(proof, root) == Ok(())
  }

  /** An entry that `verify_chain` accepts alone is what `Get` finds and hashes to its own fields. */
  lemma {:induction false} EndHashesItsFields(entries: seq<Row>, stream: Text, end: nat)
    requires UniqueSeqnos(entries) && VerifyChain(entries, stream, end, end).Ok?
    ensures Get(entries, end).Some? && Get(entries, end).value.entryHash == RowHash(Get(entries, end).value)
  {
    hide Range, ExpectedPrev, CheckRows, Get, UniqueSeqnos, RowHash;
    VerifyChainAccepts(entries, stream, end, end);
    var own := Range(entries, stream, end, end);
    RangeAllInRange(entries, stream, end, end);
    UniqueGet(entries, own[0]);
    assert LinkedAt(own, ExpectedPrev(entries, stream, own[0].seqno).value, 0);
  }

  /** The rows within the bounds of the recorded segment. */
  function SegmentRange(t: Store, record: HeadRecord): seq<Row> {
    match SegmentGet(t.segments, record.segmentId)
    case None => []
    case Some(seg) => Range(t.entries, seg.streamId, seg.seqStart, seg.seqEnd)
  }

  lemma {:induction false} StreamOfListed(s: State, stream: Text, k: nat)
    requires StateOk(s) && k < |FilterStream(s.store.segments, stream)|
    ensures FilterStream(s.store.segments, stream)[k].streamId == stream
  {
    hide FilterStream, StoreOk, HeadsOk;
    StoreIdsDense(s.store);
    DenseFilterStream(s.store.segments, stream);
  }

  /** If the end entry carries the hash of the i-th honest leaf, both chains up to these entries are one,
      and the entry is the segment's own end; or `RowsBreak` of the two is genuine. */
  lemma {:induction false} ChainToLeaf(s: State, stream: Text, k: nat, t: Store, end: nat, i: nat, honest: seq<Digest>)
    returns (end': nat)
    requires StateOk(s) && k < |FilterStream(s.store.segments, stream)| && UniqueSeqnos(t.entries)
    requires RowsInRange(s.store.entries) && RowsInRange(t.entries)
    requires VerifyChain(t.entries, stream, 1, end).Ok? && VerifyChain(t.entries, stream, end, end).Ok?
    requires var seg := FilterStream(s.store.segments, stream)[k];
      LeafHashes(Range(s.store.entries, stream, seg.seqStart, seg.seqEnd)) == Ok(honest)
    requires i < |honest| && Get(t.entries, end).Some? && Get(t.entries, end).value.entryHash == honest[i]
    ensures Range(t.entries, stream, 1, end) == Range(s.store.entries, stream, 1, end)
      || RowsBreak(Range(t.entries, stream, 1, end), Range(s.store.entries, stream, 1, end')).Genuine()
  {
    hide StateOk, RowsBreak, FilterStream, Range, VerifyChain, EntryInRange, LeafHashes, Get, UniqueSeqnos;
    var seg := FilterStream(s.store.segments, stream)[k];
    var r := Range(s.store.entries, stream, seg.seqStart, seg.seqEnd)[i];
    end' := r.seqno;
    HonestRowsUpToLeaf(s, stream, k, i);
    AcceptedHasRows(t.entries, stream, end, end);
    AcceptedHasRows(t.entries, stream, 1, end);
    RangeEndsInGet(t.entries, stream, end);
    VerifyChainBinds(t.entries, s.store.entries, stream, stream, end, end');
  }

  lemma {:induction false} AcceptedHasRows(entries: seq<Row>, stream: Text, from: nat, to: nat)
    requires VerifyChain(entries, stream, from, to).Ok?
    ensures Range(entries, stream, from, to) != [] && from <= to
  {
    hide Range, ExpectedPrev, CheckRows;
  }

  /** The inclusion proof of a segment's end names the segment and verifies against its root. */
  lemma {:induction false} EndIsProven(s: State, stream: Text, k: nat)
    requires StateOk(s) && k < |FilterStream(s.store.segments, stream)|
    ensures var seg := FilterStream(s.store.segments, stream)[k];
      && ProveInclusion(s.store, seg.seqEnd).Ok? && ProveInclusion(s.store, seg.seqEnd).value.segmentId == seg.segmentId
      && |seg.merkleRoot| == HASH_LEN
      && InclusionVerdict(ProveInclusion(s.store, seg.seqEnd).value, seg.merkleRoot) == Ok(())
  {
    hide StoreOk, HeadsOk, FilterStream, ProveInclusion, InclusionVerdict, CoveredTo, SegmentGet, CheckpointFold,
         ComputeCheckpointHash, Range;
    var list := FilterStream(s.store.segments, stream);
    var seg := list[k];
    EndIsARow(s, stream, k);
    CoveredIsLast(s, stream);
    InclusionProofVerifies(s, seg.seqEnd);
    var id := ProveInclusion(s.store, seg.seqEnd).value.segmentId;
    SegmentIsListed(s.store, id);
    var j := Position(list, id);
    CoveredByExactlyOne(s, seg.seqEnd);
    assert list[j].seqStart <= seg.seqEnd <= list[j].seqEnd && list[k].seqStart <= seg.seqEnd <= list[k].seqEnd;
    assert j == k;
  }

  lemma {:induction false} EndIsARow(s: State, stream: Text, k: nat)
    requires StateOk(s) && k < |FilterStream(s.store.segments, stream)|
    ensures var seg := FilterStream(s.store.segments, stream)[k];
      && 1 <= seg.seqStart <= seg.seqEnd <= |s.store.entries| && s.store.entries[seg.seqEnd - 1].streamId == stream
  {
    hide FilterStream, ListOk, ChainValid, HeadsOk, SegmentOk;
    var list := FilterStream(s.store.segments, stream);
    assert StreamOk(s.store, stream);
    OneOfList(s.store.entries, s.store.segmentEntries, stream, list, k);
    SegmentEndsAtARow(s.store.entries, s.store.segmentEntries, stream, list, k);
  }

  /** The honest store itself passes every call that `ProvenHistoryIsBound` asks for, with its own proof. */
  lemma {:induction false} HonestHistoryIsProven(s: State, p: Process, stream: Text)
    requires StateOk(s) && HeadGet(s.heads, stream).Some?
    ensures CheckRollback(s.store, s.heads, p, stream).Ok? && UniqueSeqnos(s.store.entries)
    ensures var record := HeadGet(s.heads, stream).value;
      && VerifyChain(s.store.entries, stream, 1, record.seqEnd).Ok?
      && VerifyChain(s.store.entries, stream, record.seqEnd, record.seqEnd).Ok?
      && ProveInclusion(s.store, record.seqEnd).Ok? && Get(s.store.entries, record.seqEnd).Some?
      && ProveInclusion(s.store, record.seqEnd).value.entryHash == Get(s.store.entries, record.seqEnd).value.entryHash
      && VerifiesAtRecord(s.store, record, ProveInclusion(s.store, record.seqEnd).value)
  {
    hide StoreOk, HeadsOk, FilterStream, Range, VerifyChain, CheckRollback, SegmentGet, HeadGet, ProveInclusion,
         InclusionVerdict, EntrySeqnos, SegmentsList, StoredHash, VerifySegmentSignature, ComputeCheckpointHash, Get,
         CoveredTo;
    var record := HeadGet(s.heads, stream).value;
    StateStreamsOk(s, stream);
    var k := RecordIsTrue(s, stream);
    RollbackCheckAccepts(s, p, stream);
    StoreIdsDense(s.store);
    DenseIsUnique(s.store.entries);
    HonestRowsUpTo(s, stream, k);
    EndIsProven(s, stream, k);
    EndIsARow(s, stream, k);
    InclusionProofVerifies(s, record.seqEnd);
    DenseGet(s.store.entries, 0, record.seqEnd);
    RangeMembers(s.store.entries, stream, record.seqEnd, record.seqEnd, s.store.entries[record.seqEnd - 1]);
    EndHasItsSeqno(s, record.seqEnd);
    VerifyChainAcceptsReachable(s, stream, record.seqEnd, record.seqEnd);
  }

  lemma {:induction false} EndHasItsSeqno(s: State, q: nat)
    requires StateOk(s) && 1 <= q <= |s.store.entries|
    ensures s.store.entries[q - 1].seqno == q && s.store.entries[q - 1] in s.store.entries
  {
    hide HeadsOk, StreamOk, ChainValid;
  }
}
