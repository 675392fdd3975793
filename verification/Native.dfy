/** `NativeSecureLog` over the file store, step by step. Every method computes what its function in
    the engine says, on the store and the head file as they were, and keeps reachable states
    well formed. */
module Native {
  import opened Basics
  import opened Records
  import opened Encoder
  import opened Crypto
  import opened Tables
  import opened MerkleSpec
  import opened Merkle
  import opened Chain
  import opened Checkpoints
  import opened HeadFiles
  import opened Engine
  import opened FileLog
  import opened FileStores
  import Runs

  class NativeSecureLog {
    const store: FileStore
    const sessionId: Text
    const bootId: Text
    const masterKey: Option<Digest>
    const headFile: HeadFile?

    constructor (store: FileStore, sessionId: Text, bootId: Text, masterKey: Option<Digest>, headFile: HeadFile?)
      ensures this.store == store && this.headFile == headFile
      ensures Self() == Process(sessionId, bootId, masterKey, headFile != null)
    {
      this.store, this.sessionId, this.bootId := store, sessionId, bootId;
      this.masterKey, this.headFile := masterKey, headFile;
    }

    function Self(): Process {
      Process(sessionId, bootId, masterKey, headFile != null)
    }

    function Heads(): seq<HeadRecord>
      reads headFile
    {
      if headFile == null then [] else headFile.records
    }

    ghost function Now(): Runs.State
      reads store, headFile
    {
      Runs.State(store.State(), Heads())
    }

    ghost predicate Sound()
      reads store, headFile
    {
      Runs.StateOk(Now())
    }

    // ----- Appending -----

    /** From the lookup of the predecessor on, `append_inner` and `append_encrypted` are one sequence. */
    method AppendSealed(d: Draft) returns (r: Result<AppendResult>)
      requires store.Valid()
      modifies store, store.disk
      ensures store.Valid()
      ensures (store.State(), r) == AppendRow(old(store.State()), Self(), d)
    {
      hide EncodeEntry, HasSeqno, LastRow, GlobalHead, Replay, Written;
      var prevHash := ZERO_HASH;
      var prev := LastRow(store.entries, d.streamId);
      if prev.Some? {
        var digest := DigestFromVec(prev.value.entryHash);
        if digest.Err? {
          return Err(digest.error);
        }
        prevHash := digest.value;
      }
      var head := GlobalHead(store.entries);
      var nextSeqno := if head.Some? then head.value + 1 else 1;
      var fields := EntryFields(ENTRY_VERSION, d.streamId, sessionId, bootId, nextSeqno, d.timestamp, d.eventType,
                                d.severity, d.producer, d.payloadEncoding, d.payload, prevHash);
      var entryHash := Sha256(EncodeEntry(fields));
      var row := Row(nextSeqno, fields.streamId, fields.sessionId, fields.bootId, fields.timestamp, fields.eventType,
                     fields.severity, fields.producer, fields.payloadEncoding, fields.payload,
                     fields.prevEntryHash, entryHash);
      assert row == SealRow(Self(), d, nextSeqno, prevHash);
      var inserted := store.Insert(row);
      if inserted.Err? {
        return Err(inserted.error);
      }
      if inserted.value != nextSeqno {
        return Err(Storage(WrongSeqno));
      }
      r := Ok(AppendResult(nextSeqno, entryHash));
    }

    /** `append_inner`, behind `append` and `append_with_encoding`. */
    method AppendInner(d: Draft) returns (r: Result<AppendResult>)
      requires store.Valid()
      modifies store, store.disk
      ensures store.Valid()
      ensures (store.State(), r) == Append(old(store.State()), Self(), d)
      ensures old(Sound()) ==> Sound() && (r.Ok? <==> RejectIfDeprecated(old(store.State()), d.streamId).Ok?)
    {
      hide AppendRow, StreamGet, Replay, Written, Runs.StateOk, SealRow, LinkHash;
      ghost var was := Now();
      if Sound() {
        Runs.ApplyKeepsStateOk(was, Runs.DoAppend(Self(), d));
        SoundAppendSucceeds(was, Self(), d);
      }
      var rejected := RejectIfDeprecated(store.State(), d.streamId);
      if rejected.Err? {
        return Err(rejected.error);
      }
      r := AppendSealed(d);
    }

    /** `append_encrypted`. */
    method SealAndAppend(d: Draft, nonce: Bytes) returns (r: Result<AppendResult>)
      requires store.Valid() && |nonce| == NONCE_LEN
      modifies store, store.disk
      ensures store.Valid()
      ensures (store.State(), r) == AppendEncrypted(old(store.State()), Self(), d, nonce)
      ensures old(Sound()) ==> Sound()
    {
      hide AppendRow, StreamGet, Replay, Written, Runs.StateOk, Sealed, SegmentKey, StreamKey, AeadAad, MinimizedTag,
           ResolveTier, SegmentsList;
      ghost var was := Now();
      if Sound() {
        Runs.ApplyKeepsStateOk(was, Runs.DoAppendEncrypted(Self(), d, nonce));
      }
      var rejected := RejectIfDeprecated(store.State(), d.streamId);
      if rejected.Err? {
        return Err(rejected.error);
      }
      if masterKey.None? {
        return Err(Invalid(MissingMasterKey));
      }
      var segments := SegmentsList(store.segments, d.streamId);
      var segmentForEntry := if segments == [] then 1 else Last(segments).segmentId + 1;
      var tier := ResolveTier(store.State(), d.streamId);
      if tier.Err? {
        return Err(tier.error);
      }
      var key := SegmentKey(StreamKey(masterKey.value, d.streamId, tier.value), segmentForEntry);
      var sealed := SealPayload(key, nonce, AeadAad(d.streamId, tier.value, segmentForEntry), d.payload);
      var eventType, producer := d.eventType, d.producer;
      if tier.value.HighlyRestricted? {
        eventType := MinimizeMetadata(masterKey.value, d.streamId, EVENT_TYPE, d.eventType);
        producer := MinimizeMetadata(masterKey.value, d.streamId, PRODUCER, d.producer);
      }
      r := AppendSealed(d.(eventType := eventType, producer := producer, payload := sealed,
                           payloadEncoding := AEAD_NAME));
    }

    // ----- The entry chain -----

    /** `verify_chain`. */
    method CheckChain(stream: Text, from: nat, to: nat) returns (r: Result<()>)
      ensures r == VerifyChain(store.entries, stream, from, to)
    {
      hide Range, RowHash;
      if from > to {
        return Err(Invalid(ReversedRange));
      }
      var rows := Range(store.entries, stream, from, to);
      if rows == [] {
        return Err(StreamNotFound(stream));
      }
      var previousEntryHash := ZERO_HASH;
      if rows[0].seqno > 1 {
        var before := Range(store.entries, stream, 1, rows[0].seqno - 1);
        if before != [] {
          var digest := DigestFromVec(Last(before).entryHash);
          if digest.Err? {
            return Err(digest.error);
          }
          previousEntryHash := digest.value;
        }
      }
      ghost var expected := previousEntryHash;
      assert ExpectedPrev(store.entries, stream, rows[0].seqno) == Ok(expected);
      var i := 0;
      assert CheckRows(rows[..0], expected) == Ok(expected);
      while i < |rows|
        invariant i <= |rows|
        invariant CheckRows(rows[..i], expected) == Ok(previousEntryHash)
      {
        var row := rows[i];
        assert Front(rows[..i + 1]) == rows[..i];
        CheckRowsStops(rows, i, expected);
        var storedPrev := DigestFromVec(row.prevEntryHash);
        if storedPrev.Err? {
          return Err(storedPrev.error);
        }
        if storedPrev.value != previousEntryHash {
          return Err(ChainBroken(row.seqno, PrevHashMismatch));
        }
        var recomputed := RowHash(row);
        var storedHash := DigestFromVec(row.entryHash);
        if storedHash.Err? {
          return Err(storedHash.error);
        }
        if recomputed != storedHash.value {
          return Err(ChainBroken(row.seqno, ContentMismatch));
        }
        previousEntryHash := storedHash.value;
        i := i + 1;
      }
      assert rows[..i] == rows;
      r := Ok(());
    }

    // ----- Segments -----

    /** `close_segment`. */
    method Close(stream: Text, now: Text) returns (r: Result<SegmentInfo>)
      requires store.Valid()
      modifies store, store.disk
      ensures store.Valid()
      ensures (store.State(), r) == CloseSegment(old(store.State()), stream, now)
      ensures old(Sound()) ==> Sound()
    {
      hide Range, Head, SegmentLastSeqno, MTH, LeafHashes, TipCheckpoint, LeafEntries, Leaves, LeafPairs, Replay,
           Written, Runs.StateOk;
      ghost var was := Now();
      if Sound() {
        Runs.ApplyKeepsStateOk(was, Runs.DoClose(stream, now));
      }
      var t := store.State();
      var lastCovered := SegmentLastSeqno(store.segments, stream);
      var seqStart := if lastCovered.Some? then lastCovered.value + 1 else 1;
      var head := Head(store.entries, stream);
      if head.None? || head.value < seqStart {
        return Err(EmptySegment(stream));
      }
      var rows := Range(store.entries, stream, seqStart, head.value);
      if rows == [] {
        return Err(EmptySegment(stream));
      }
      var indexed := IndexLeaves(rows);
      if indexed.Err? {
        return Err(indexed.error);
      }
      var (leaves, entriesIndex) := indexed.value;
      var merkleRoot, rounds := BuildRoot(leaves);
      var prevSegments := SegmentsList(store.segments, stream);
      var prevCheckpointHash := ZERO_HASH;
      TipUnfolds(t, stream);
      if prevSegments != [] {
        var computed := ComputeCheckpointHashFor(stream, Last(prevSegments).segmentId);
        if computed.Err? {
          return Err(computed.error);
        }
        prevCheckpointHash := computed.value;
      }
      var row := SegmentRow(0, stream, rows[0].seqno, head.value, merkleRoot, Last(leaves), prevCheckpointHash, now,
                            None, None);
      SegmentIsLogged(t, row, rows);
      Runs.InsertSegmentId(t, row, rows);
      var segmentId := store.SegmentInsert(row, entriesIndex);
      r := Ok(SegmentInfo(segmentId, stream, row.seqStart, row.seqEnd, merkleRoot, Last(leaves), prevCheckpointHash,
                          now, [], None));
    }

    /** The loop of `close_segment` that builds the leaf list and the leaf index. */
    static method IndexLeaves(rows: seq<Row>) returns (r: Result<(seq<Digest>, seq<(nat, nat)>)>)
      ensures LeafHashes(rows).Err? ==> r == Err(LeafHashes(rows).error)
      ensures LeafHashes(rows).Ok? ==> r == Ok((LeafHashes(rows).value, LeafPairs(rows)))
    {
      var leaves: seq<Digest>, entriesIndex: seq<(nat, nat)> := [], [];
      var i := 0;
      while i < |rows|
        invariant i <= |rows|
        invariant LeafHashes(rows[..i]) == Ok(leaves) && entriesIndex == LeafPairs(rows[..i])
      {
        assert Front(rows[..i + 1]) == rows[..i];
        LeafHashesStop(rows, i);
        var digest := DigestFromVec(rows[i].entryHash);
        if digest.Err? {
          return Err(digest.error);
        }
        leaves := leaves + [digest.value];
        entriesIndex := entriesIndex + [(rows[i].seqno, i)];
        i := i + 1;
      }
      assert rows[..i] == rows;
      r := Ok((leaves, entriesIndex));
    }

    /** `inclusion_proof`. */
    method Prove(seqno: nat) returns (r: Result<InclusionProof>)
      ensures r == ProveInclusion(store.State(), seqno)
    {
      hide EntrySeqnos, SegmentForSeqno, MTH, Path, Get;
      var segment := SegmentForSeqno(store.segmentEntries, seqno);
      if segment.None? {
        return Err(EntryNotFound(seqno));
      }
      var seqnos := EntrySeqnos(store.segmentEntries, segment.value);
      var leaves: seq<Digest> := [];
      var leafIndex: Option<nat> := None;
      var i := 0;
      while i < |seqnos|
        invariant i <= |seqnos|
        invariant LeavesOf(store.entries, seqnos[..i]) == Ok(leaves)
        invariant leafIndex == LastIndexOf(seqnos[..i], seqno)
      {
        assert Front(seqnos[..i + 1]) == seqnos[..i];
        LeavesOfStop(store.entries, seqnos, i);
        var row := Get(store.entries, seqnos[i]);
        if row.None? {
          return Err(EntryNotFound(seqnos[i]));
        }
        var digest := DigestFromVec(row.value.entryHash);
        if digest.Err? {
          return Err(digest.error);
        }
        leaves := leaves + [digest.value];
        if seqnos[i] == seqno {
          leafIndex := Some(i);
        }
        i := i + 1;
      }
      assert seqnos[..i] == seqnos;
      if leafIndex.None? {
        return Err(EntryNotFound(seqno));
      }
      var root, path := BuildProof(leaves, leafIndex.value);
      r := Ok(InclusionProof(seqno, leaves[leafIndex.value], segment.value, root, path));
    }

    // ----- Checkpoints -----

    /** `previous_checkpoint_hash`. */
    method PreviousCheckpoint(stream: Text, id: nat) returns (r: Result<Digest>)
      ensures r == PreviousCheckpointHash(store.State(), stream, id)
      decreases Position(SegmentsList(store.segments, stream), id), 0
    {
      hide SegmentsList, ComputeCheckpointHash;
      var segments := SegmentsList(store.segments, stream);
      var previous: Option<SegmentRow> := None;
      var i := 0;
      while i < |segments|
        invariant i <= |segments| && i <= Position(segments, id)
        invariant previous == if i == 0 then None else Some(segments[i - 1])
      {
        if segments[i].segmentId == id {
          break;
        }
        previous := Some(segments[i]);
        i := i + 1;
      }
      assert i == Position(segments, id);
      if previous.None? {
        return Ok(ZERO_HASH);
      }
      PositionDrops(segments, i - 1);
      r := ComputeCheckpointHashFor(stream, previous.value.segmentId);
    }

    /** `compute_checkpoint_hash_for`. */
    method ComputeCheckpointHashFor(stream: Text, id: nat) returns (r: Result<Digest>)
      ensures r == ComputeCheckpointHash(store.State(), stream, id)
      decreases Position(SegmentsList(store.segments, stream), id), 1
    {
      hide SegmentsList, SegmentGet, Get, CheckpointHash, PreviousCheckpointHash;
      var row := SegmentGet(store.segments, id);
      if row.None? {
        return Err(SegmentNotFound(id));
      }
      var info := SegmentRowToInfo(row.value);
      if info.Err? {
        return Err(info.error);
      }
      var prev := PreviousCheckpoint(stream, id);
      if prev.Err? {
        return prev;
      }
      var last := Get(store.entries, info.value.seqEnd);
      if last.None? {
        return Err(EntryNotFound(info.value.seqEnd));
      }
      var fields := BuildFields(info.value, prev.value, last.value.bootId, last.value.sessionId, ZERO_HASH);
      r := Ok(CheckpointHash(fields));
    }

    /** `sign_segment`. */
    method Sign(name: Text, id: nat, entropy: Bytes, now: Text) returns (r: Result<(Digest, Bytes)>)
      requires store.Valid()
      modifies store, store.disk, headFile
      ensures store.Valid()
      ensures (store.State(), Heads(), r)
        == SignSegment(old(store.State()), old(Heads()), Self(), name, id, entropy, now)
      ensures old(Sound()) ==> Sound()
    {
      hide SegmentGet, ComputeCheckpointHash, WithSignature, HeadUpsert, Hex, Replay, Written, Runs.StateOk;
      ghost var was := Now();
      if Sound() {
        Runs.ApplyKeepsStateOk(was, Runs.DoSign(Self(), name, id, entropy, now));
      }
      var segment := SegmentGet(store.segments, id);
      if segment.None? {
        return Err(SegmentNotFound(id));
      }
      var hash := ComputeCheckpointHashFor(segment.value.streamId, id);
      if hash.Err? {
        return Err(hash.error);
      }
      var signed := SignCheckpoint(name, hash.value, entropy);
      if signed.None? {
        return Err(Invalid(SignFailed));
      }
      var (signature, identity) := signed.value;
      var stored := store.SegmentSetSignature(id, signature, identity);
      if headFile != null {
        headFile.Upsert(HeadRecord(segment.value.streamId, id, segment.value.seqEnd, Hex(hash.value), now));
      }
      r := Ok((hash.value, signature));
    }

    /** `verify_segment_signature`. */
    method CheckSignature(id: nat) returns (r: Result<Digest>)
      ensures r == VerifySegmentSignature(store.State(), id)
    {
      hide SegmentGet, ComputeCheckpointHash;
      var segment := SegmentGet(store.segments, id);
      if segment.None? {
        return Err(SegmentNotFound(id));
      }
      if segment.value.signature.None? {
        return Err(Invalid(Unsigned));
      }
      if segment.value.signerIdentity.None? {
        return Err(Invalid(MissingSigner));
      }
      var hash := ComputeCheckpointHashFor(segment.value.streamId, id);
      if hash.Err? {
        return hash;
      }
      var ok := VerifyCheckpoint(segment.value.signerIdentity.value, hash.value, segment.value.signature.value);
      if ok.None? {
        return Err(Invalid(VerifyFailed));
      }
      if !ok.value {
        return Err(ChainBroken(segment.value.seqEnd, SignatureMismatch));
      }
      r := hash;
    }

    /** `verify_checkpoint_chain`. */
    method CheckCheckpointChain(stream: Text) returns (r: Result<nat>)
      ensures r == VerifyCheckpointChain(store.State(), stream)
    {
      hide SegmentsList, VerifySegmentSignature;
      var segments := SegmentsList(store.segments, stream);
      if segments == [] {
        return Err(StreamNotFound(stream));
      }
      var prevCkpt := ZERO_HASH;
      var i := 0;
      assert CheckSegments(store.State(), segments[..0]) == Ok(ZERO_HASH);
      while i < |segments|
        invariant i <= |segments|
        invariant CheckSegments(store.State(), segments[..i]) == Ok(prevCkpt)
      {
        var segment := segments[i];
        assert Front(segments[..i + 1]) == segments[..i];
        CheckSegmentsStop(store.State(), segments, i);
        var storedPrev := DigestFromVec(segment.prevCheckpointHash);
        if storedPrev.Err? {
          return Err(storedPrev.error);
        }
        if storedPrev.value != prevCkpt {
          return Err(ChainBroken(segment.seqEnd, CheckpointDrift));
        }
        var hash := CheckSignature(segment.segmentId);
        if hash.Err? {
          return Err(hash.error);
        }
        prevCkpt := hash.value;
        i := i + 1;
      }
      assert segments[..i] == segments;
      r := Ok(|segments|);
    }

    /** `check_rollback`. */
    method CheckForRollback(stream: Text) returns (r: Result<()>)
      ensures r == CheckRollback(store.State(), Heads(), Self(), stream)
    {
      hide SegmentsList, VerifySegmentSignature, ComputeCheckpointHash, HeadGet, StoredHash;
      if headFile == null || HeadGet(headFile.records, stream).None? {
        return Ok(());
      }
      var record := HeadGet(headFile.records, stream).value;
      var segments := SegmentsList(store.segments, stream);
      var highest := if segments == [] then 0 else Last(segments).segmentId;
      if highest < record.segmentId {
        return Err(ChainBroken(record.seqEnd, RolledBack));
      }
      var computed := ComputeCheckpointHashFor(stream, record.segmentId);
      if computed.Err? {
        return Err(computed.error);
      }
      var stored := StoredHash(record);
      if stored.Err? {
        return Err(stored.error);
      }
      if computed.value != stored.value {
        return Err(ChainBroken(record.seqEnd, CheckpointMismatch));
      }
      var verified := CheckSignature(record.segmentId);
      if verified.Err? {
        return Err(verified.error);
      }
      r := Ok(());
    }

    // ----- Payloads and streams -----

    /** `open_payload`. */
    method Open(seqno: nat) returns (r: Result<Bytes>)
      ensures r == OpenPayload(store.State(), Self(), seqno)
    {
      hide Get, SegmentForSeqno, SegmentsList, ResolveTier, OpenSealed, SegmentKey, StreamKey, AeadAad;
      var entry := Get(store.entries, seqno);
      if entry.None? {
        return Err(EntryNotFound(seqno));
      }
      GetFindsSeqno(store.entries, seqno);
      if entry.value.payloadEncoding == ENCODER_CBOR {
        return Ok(entry.value.payload);
      }
      if entry.value.payloadEncoding != AEAD_NAME {
        return Err(Invalid(UnknownEncoding));
      }
      if masterKey.None? {
        return Err(Invalid(MissingMasterKey));
      }
      var found := SegmentForSeqno(store.segmentEntries, seqno);
      var list := SegmentsList(store.segments, entry.value.streamId);
      var segment := if found.Some? then found.value else if list == [] then 1 else Last(list).segmentId + 1;
      var tier := ResolveTier(store.State(), entry.value.streamId);
      if tier.Err? {
        return Err(tier.error);
      }
      var key := SegmentKey(StreamKey(masterKey.value, entry.value.streamId, tier.value), segment);
      r := OpenSealed(entry.value.payload, key, AeadAad(entry.value.streamId, tier.value, segment));
    }

    /** `create_stream`. */
    method Create(name: Text, tier: Text, description: Option<Text>, now: Text)
      requires store.Valid()
      modifies store, store.disk
      ensures store.Valid()
      ensures store.State() == CreateStream(old(store.State()), name, tier, description, now)
      ensures old(Sound()) ==> Sound()
    {
      hide UpsertStream, Replay, Written, Runs.StateOk;
      ghost var was := Now();
      if Sound() {
        Runs.ApplyKeepsStateOk(was, Runs.DoCreateStream(name, tier, description, now));
      }
      store.StreamUpsert(StreamRow(name, tier, description, now, None));
    }

    /** `deprecate_stream`. */
    method Deprecate(name: Text, now: Text) returns (r: Result<()>)
      requires store.Valid()
      modifies store, store.disk
      ensures store.Valid()
      ensures (store.State(), r) == DeprecateStream(old(store.State()), name, now)
      ensures old(Sound()) ==> Sound()
    {
      hide WithDeprecation, StreamGet, Replay, Written, Runs.StateOk;
      ghost var was := Now();
      if Sound() {
        Runs.ApplyKeepsStateOk(was, Runs.DoDeprecate(name, now));
      }
      r := store.StreamDeprecate(name, now);
    }
  }

  // ----- Loops that stop at the first error -----

  lemma {:induction false} SoundAppendSucceeds(s: Runs.State, p: Process, d: Draft)
    requires Runs.StateOk(s)
    ensures Append(s.store, p, d).1.Ok? <==> RejectIfDeprecated(s.store, d.streamId).Ok?
  {
    hide AppendRow, SealRow, LinkHash, RejectIfDeprecated;
    Runs.AppendRowAdds(s.store, p, d);
  }

  lemma {:induction false} CheckRowsStops(rows: seq<Row>, i: nat, prev: Digest)
    requires i < |rows|
    ensures CheckRows(rows[..i + 1], prev).Err? ==> CheckRows(rows, prev) == CheckRows(rows[..i + 1], prev)
  {
    hide CheckRow;
    assert rows == rows[..i + 1] + rows[i + 1..];
    CheckRowsComposes(rows[..i + 1], rows[i + 1..], prev);
  }

  lemma {:induction false} LeafHashesStop(rows: seq<Row>, i: nat)
    requires i < |rows|
    ensures LeafHashes(rows[..i + 1]).Err? ==> LeafHashes(rows) == LeafHashes(rows[..i + 1])
    decreases |rows|
  {
    if i == |rows| - 1 {
      assert rows[..i + 1] == rows;
    } else {
      assert Front(rows)[..i + 1] == rows[..i + 1];
      LeafHashesStop(Front(rows), i);
    }
  }

  lemma {:induction false} LeavesOfStop(entries: seq<Row>, seqnos: seq<nat>, i: nat)
    requires i < |seqnos|
    ensures LeavesOf(entries, seqnos[..i + 1]).Err? ==> LeavesOf(entries, seqnos) == LeavesOf(entries, seqnos[..i + 1])
    decreases |seqnos|
  {
    hide Get;
    if i == |seqnos| - 1 {
      assert seqnos[..i + 1] == seqnos;
    } else {
      assert Front(seqnos)[..i + 1] == seqnos[..i + 1];
      LeavesOfStop(entries, Front(seqnos), i);
    }
  }

  lemma {:induction false} CheckSegmentsStop(t: Store, list: seq<SegmentRow>, i: nat)
    requires i < |list|
    ensures CheckSegments(t, list[..i + 1]).Err? ==> CheckSegments(t, list) == CheckSegments(t, list[..i + 1])
    decreases |list|
  {
    hide CheckSegment;
    if i == |list| - 1 {
      assert list[..i + 1] == list;
    } else {
      assert Front(list)[..i + 1] == list[..i + 1];
      CheckSegmentsStop(t, Front(list), i);
    }
  }

  lemma {:induction false} TipUnfolds(t: Store, stream: Text)
    ensures var list := SegmentsList(t.segments, stream);
      TipCheckpoint(t, stream)
        == if list == [] then Ok(ZERO_HASH) else ComputeCheckpointHash(t, stream, Last(list).segmentId)
  {
    hide SegmentsList, ComputeCheckpointHash;
  }

  lemma {:induction false} GetFindsSeqno(entries: seq<Row>, seqno: nat)
    requires Get(entries, seqno).Some?
    ensures Get(entries, seqno).value.seqno == seqno
  {
    if entries[0].seqno != seqno {
      GetFindsSeqno(entries[1..], seqno);
    }
  }

  /** Opening a new log file gives the initial state, from which every log built on it stays sound. */
  lemma {:induction false} FreshStoreIsInitial()
    ensures Replay(Seeded([])) == Runs.INITIAL.store && Written(Seeded([]))
    ensures Runs.StateOk(Runs.INITIAL)
  {
    Runs.InitialStateOk();
    SeedIsWritten([]);
    ReplayGrows([], PutStream(SEED));
    assert [] + [PutStream(SEED)] == [PutStream(SEED)];
  }
}
