/** What an operation returned can be read back, and is what the caller passed in. */
module OperationTheorems {
  import opened Basics
  import opened Records
  import opened Encoder
  import opened Crypto
  import opened Tables
  import opened MerkleSpec
  import opened Chain
  import opened Checkpoints
  import opened HeadFiles
  import opened Engine
  import opened Invariants
  import opened Preservation
  import opened Runs
  import opened SegmentTheorems
  import opened InclusionTheorems
  import opened CheckpointTheorems
  import opened StreamTheorems

  // ----- Entries -----

  /** No run changes or removes an entry. */
  lemma {:induction false} EntriesAreKept(s: State, steps: seq<Step>)
    requires StateOk(s)
    ensures s.store.entries <= Run(s, steps).store.entries
  {
    hide StateOk, Apply, LeafEntries;
    if steps != [] {
      EntriesAreKept(s, Front(steps));
      RunKeepsStateOk(s, Front(steps));
      var more, id, rows := StepGrows(Run(s, Front(steps)), Last(steps));
    }
  }

  lemma {:induction false} SealedFields(p: Process, d: Draft, seqno: nat, prev: Digest)
    ensures RowToEntry(SealRow(p, d, seqno, prev))
      == EntryFields(version := 1, streamId := d.streamId, sessionId := p.sessionId, bootId := p.bootId, seqno := seqno,
                     timestamp := d.timestamp, eventType := d.eventType, severity := d.severity, producer := d.producer,
                     payloadEncoding := d.payloadEncoding, payload := d.payload, prevEntryHash := prev)
  {
    hide RowHash;
  }

  /** An append returns the next global seqno, and after any further run the entry with that seqno
      holds what the caller passed, the process's ids and the stream's previous tip, and hashes to
      the returned digest. */
  lemma {:induction false} AppendReadsBack(s: State, p: Process, d: Draft, steps: seq<Step>)
    requires StateOk(s) && Append(s.store, p, d).1.Ok?
    ensures LinkHash(s.store.entries, d.streamId).Ok?
    ensures var res := Append(s.store, p, d).1.value;
      var read := Get(Run(Apply(s, DoAppend(p, d)), steps).store.entries, res.seqno);
      && res.seqno == |s.store.entries| + 1
      && read.Some?
      && RowToEntry(read.value)
         == EntryFields(version := 1, streamId := d.streamId, sessionId := p.sessionId, bootId := p.bootId,
                        seqno := res.seqno, timestamp := d.timestamp, eventType := d.eventType,
                        severity := d.severity, producer := d.producer, payloadEncoding := d.payloadEncoding,
                          payload := d.payload,
                        prevEntryHash := LinkHash(s.store.entries, d.streamId).value)
      && Sha256(EncodeEntry(RowToEntry(read.value))) == res.entryHash == read.value.entryHash
  {
    hide StateOk, SealRow, LinkHash, AppendRow, Run, RejectIfDeprecated, Get, EncodeEntry, RowToEntry;
    StateIsStoreOk(s);
    AppendRowAdds(s.store, p, d);
    var link := LinkHash(s.store.entries, d.streamId).value;
    SealedFields(p, d, |s.store.entries| + 1, link);
    SealedRowHashes(p, d, |s.store.entries| + 1, link);
    var s1 := Apply(s, DoAppend(p, d));
    ApplyKeepsStateOk(s, DoAppend(p, d));
    EntriesAreKept(s1, steps);
    RunKeepsStateOk(s1, steps);
    DenseOfState(Run(s1, steps));
    DenseGet(Run(s1, steps).store.entries, 0, |s.store.entries| + 1);
  }

  // ----- Segments -----

  /** A successful close returns exactly what reading the new segment gives, dated as asked and not
      yet signed, and it ends at the stream's head. */
  lemma {:induction false} CloseReadsBack(s: State, stream: Text, now: Text)
    requires StateOk(s) && CloseSegment(s.store, stream, now).1.Ok?
    ensures var info := CloseSegment(s.store, stream, now).1.value;
      var stored := SegmentGet(CloseSegment(s.store, stream, now).0.segments, info.segmentId);
      && stored.Some? && SegmentRowToInfo(stored.value) == Ok(info)
      && info.segmentId == |s.store.segments| + 1 && info.streamId == stream && info.closedAt == now
      && stored.value.signature.None?
      && Head(s.store.entries, stream) == Some(info.seqEnd)
  {
    hide StateOk, Head, Range, LeafHashes, TipCheckpoint, SegmentStart, MTH, LeafEntries, SegmentGet;
    DenseOfState(s);
    var t' := CloseSegment(s.store, stream, now).0;
    ApplyKeepsStateOk(s, DoClose(stream, now));
    DenseOfState(Apply(s, DoClose(stream, now)));
    DenseSegmentGet(t'.segments, 0, |s.store.segments| + 1);
  }

  /** A close that does not succeed in a reachable state is refused as empty and changes nothing. */
  lemma {:induction false} CloseRefusesEmpty(s: State, stream: Text, now: Text)
    requires StateOk(s) && CloseSegment(s.store, stream, now).1.Err?
    ensures CloseSegment(s.store, stream, now) == (s.store, Err(EmptySegment(stream)))
  {
    hide Range, LeafHashes, TipCheckpoint, SegmentStart, Head, StoreOk, HeadsOk, MTH, InsertSegment, StreamOk;
    StateStreamsOk(s, stream);
    TipIsDefined(s.store, stream);
    if Head(s.store.entries, stream).Some? {
      RangeLeavesAreDigests(s, stream, SegmentStart(s.store, stream), Head(s.store.entries, stream).value);
    }
  }

  /** In a reachable state `inclusion_proof` reports every seqno that has no covering segment as unknown. */
  lemma {:induction false} UncoveredHasNoProof(s: State, seqno: nat)
    requires StateOk(s)
    requires 1 <= seqno <= |s.store.entries| ==> seqno > CoveredTo(s.store, s.store.entries[seqno - 1].streamId)
    ensures ProveInclusion(s.store, seqno) == Err(EntryNotFound(seqno))
  {
    hide StateOk, LeavesOf, EntrySeqnos, SegmentForSeqno, CoveredTo, MTH, Path, FilterStream;
    if 1 <= seqno <= |s.store.entries| {
      LookupFindsCover(s, seqno);
    } else {
      SegmentForSeqnoFinds(s.store.segmentEntries, seqno);
      LeavesNameEntries(s, seqno);
    }
  }

  lemma {:induction false} LeavesNameEntries(s: State, seqno: nat)
    requires StateOk(s) && !(1 <= seqno <= |s.store.entries|)
    ensures forall i | 0 <= i < |s.store.segmentEntries| :: s.store.segmentEntries[i].seqno != seqno
  {
    hide StateOk, FilterStream;
    forall i | 0 <= i < |s.store.segmentEntries| ensures s.store.segmentEntries[i].seqno != seqno {
      LeafBelongsToItsSegment(s, i);
    }
  }

  // ----- Checkpoints -----

  /** What the checkpoint of a closed segment commits to: its id and bounds, the Merkle root of its
      entries' hashes, the last of those hashes, the checkpoint before it, and the session and boot of
      its last entry. */
  lemma {:induction false} CheckpointCommitsTo(s: State, stream: Text, k: nat)
    requires StateOk(s) && k < |FilterStream(s.store.segments, stream)|
    ensures var list := FilterStream(s.store.segments, stream);
      var seg := list[k];
      var rows := Range(s.store.entries, stream, seg.seqStart, seg.seqEnd);
      && rows != [] && LeafHashes(rows).Ok? && CheckpointFold(s.store.entries, list[..k]).Ok?
      && ComputeFields(s.store, stream, seg.segmentId)
         == Ok(CheckpointFields(
                 version := 1, streamId := stream, segmentId := seg.segmentId,
                 seqStart := rows[0].seqno, seqEnd := Last(rows).seqno,
                 merkleRoot := MTH(LeafHashes(rows).value), lastEntryHash := Last(rows).entryHash,
                 prevCheckpointHash := CheckpointFold(s.store.entries, list[..k]).value,
                 bootId := Last(rows).bootId, sessionId := Last(rows).sessionId,
                 policyHash := ZERO_HASH, timestamp := seg.closedAt))
  {
    hide StoreOk, HeadsOk, FilterStream, Range, LeafHashes, MTH, CheckpointFold, ComputeFields, SegmentsList, Get,
         FilterSegment, LeafEntries, EntrySeqnos;
    var t := s.store;
    var list := FilterStream(t.segments, stream);
    StoreIdsDense(t);
    DenseSegmentsList(t, stream);
    DenseFilterStream(t.segments, stream);
    RecursionIsFold(t, stream, k);
    SegmentDescribesRows(s, stream, k);
    StoreSegmentsOk(t, stream);
    StoredPredecessor(t, stream, k);
    var rows := Range(t.entries, stream, list[k].seqStart, list[k].seqEnd);
    RangeRowsAreStored(t.entries, stream, list[k].seqStart, list[k].seqEnd);
    assert Last(rows) == rows[|rows| - 1] && LeafHashes(rows).value[|rows| - 1] == Last(rows).entryHash;
  }

  /** What `sign_segment` returned is the segment's checkpoint hash and the signer's signature of it under
      the given name; it is stored with the identity the signer gave, changes nothing else, and verifies
      right after; and with a head file the stream's record names this segment and this hash. */
  lemma {:induction false} SignedSegmentVerifies(s: State, p: Process, name: Text, id: nat, entropy: Bytes, now: Text)
    requires StateOk(s) && SignSegment(s.store, s.heads, p, name, id, entropy, now).2.Ok?
    ensures var (t, heads, res) := SignSegment(s.store, s.heads, p, name, id, entropy, now);
      && VerifySegmentSignature(t, id) == Ok(res.value.0)
      && 1 <= id <= |s.store.segments| && SegmentGet(t.segments, id).Some?
      && (var row := SegmentGet(t.segments, id).value;
          && row == s.store.segments[id - 1].(signature := row.signature, signerIdentity := row.signerIdentity)
          && ComputeCheckpointHash(s.store, row.streamId, id) == Ok(res.value.0)
          && row.signature == Some(res.value.1) && row.signerIdentity.Some?
          && SignCheckpoint(name, res.value.0, entropy) == Some((res.value.1, row.signerIdentity.value)))
      && t == s.store.(segments := t.segments) && |t.segments| == |s.store.segments|
      && (forall i | 0 <= i < |t.segments| && i != id - 1 :: t.segments[i] == s.store.segments[i])
      && (!p.tracksHeads ==> heads == s.heads)
      && (p.tracksHeads ==>
           var row := SegmentGet(t.segments, id).value;
           HeadGet(heads, row.streamId) == Some(HeadRecord(row.streamId, id, row.seqEnd, Hex(res.value.0), now)))
  {
    hide StateOk, StoreOk, FilterStream, CheckpointFold, ComputeCheckpointHash, SegmentGet, WithSignature, Hex,
         HeadUpsert, Position;
    var t := s.store;
    StateIsStoreOk(s);
    StateIsStoreOk(Apply(s, DoSign(p, name, id, entropy, now))) by {
      ApplyKeepsStateOk(s, DoSign(p, name, id, entropy, now));
    }
    if !(1 <= id <= |t.segments|) {
      Runs.UnknownSegment(t, id);
    } else {
      SegmentIsListed(t, id);
      var row := t.segments[id - 1];
      var hash := ComputeCheckpointHash(t, row.streamId, id).value;
      var (signature, identity) := SignCheckpoint(name, hash, entropy).value;
      SignedRowIs(t, id, signature, identity);
      SignedHashIs(t, id, signature, identity);
      OtherRowsStay(t, id, signature, identity);
      SignedVerifies(name, hash, entropy);
      UpsertSetsOneStream(s.heads, HeadRecord(row.streamId, id, row.seqEnd, Hex(hash), now), row.streamId);
    }
  }

  lemma {:induction false} SignedRowIs(t: Store, id: nat, signature: Bytes, identity: Text)
    requires StoreOk(t) && 1 <= id <= |t.segments|
    ensures SegmentGet(WithSignature(t.segments, id, signature, identity), id)
      == Some(t.segments[id - 1].(signature := Some(signature), signerIdentity := Some(identity)))
  {
    hide WithSignature, SegmentGet, ChainValid, StreamOk;
    SignKeepsIds(t, id, signature, identity);
    DenseSegmentsList(t, []);
    WithSignatureAt(t.segments, id, signature, identity, id - 1);
    DenseSegmentGet(WithSignature(t.segments, id, signature, identity), 0, id);
  }

  lemma {:induction false} OtherRowsStay(t: Store, id: nat, signature: Bytes, identity: Text)
    requires StoreOk(t) && 1 <= id <= |t.segments|
    ensures forall i | 0 <= i < |t.segments| && i != id - 1 ::
      WithSignature(t.segments, id, signature, identity)[i] == t.segments[i]
  {
    hide WithSignature, StreamOk, ChainValid;
    DenseSegmentsList(t, []);
    forall i | 0 <= i < |t.segments| && i != id - 1
      ensures WithSignature(t.segments, id, signature, identity)[i] == t.segments[i]
    {
      WithSignatureAt(t.segments, id, signature, identity, i);
    }
  }

  /** When `sign_segment` fails in a reachable state: an unknown segment, or a signer that fails. Nothing
      changes then. */
  lemma {:induction false} SignFailsIff(s: State, p: Process, name: Text, id: nat, entropy: Bytes, now: Text)
    requires StateOk(s)
    ensures var (t, heads, res) := SignSegment(s.store, s.heads, p, name, id, entropy, now);
      && (!(1 <= id <= |s.store.segments|) ==> res == Err(SegmentNotFound(id)))
      && (1 <= id <= |s.store.segments| ==>
           var hash := ComputeCheckpointHash(s.store, s.store.segments[id - 1].streamId, id);
           && hash.Ok?
           && (res.Ok? <==> SignCheckpoint(name, hash.value, entropy).Some?)
           && (res.Err? ==> res == Err(Invalid(SignFailed))))
      && (res.Err? ==> t == s.store && heads == s.heads)
  {
    hide StoreOk, HeadsOk, FilterStream, CheckpointFold, ComputeCheckpointHash, SegmentGet, WithSignature, Hex,
         HeadUpsert, Position;
    StateStreamsOk(s, []);
    if 1 <= id <= |s.store.segments| {
      SegmentIsListed(s.store, id);
    } else {
      Runs.UnknownSegment(s.store, id);
    }
  }

  /** Signing does not change any checkpoint hash. */
  lemma {:induction false} SignedHashIs(t: Store, id: nat, signature: Bytes, identity: Text)
    requires StoreOk(t) && 1 <= id <= |t.segments|
    ensures var t' := t.(segments := WithSignature(t.segments, id, signature, identity));
      ComputeCheckpointHash(t', t.segments[id - 1].streamId, id)
        == ComputeCheckpointHash(t, t.segments[id - 1].streamId, id)
  {
    hide StoreOk, FilterStream, CheckpointFold, ComputeCheckpointHash, SegmentGet, WithSignature;
    var t' := t.(segments := WithSignature(t.segments, id, signature, identity));
    StoreIdsDense(t);
    SegmentIsListed(t, id);
    var stream := t.segments[id - 1].streamId;
    var list, list' := FilterStream(t.segments, stream), FilterStream(t'.segments, stream);
    var k := Position(list, id);
    SignedList(t, id, signature, identity, stream);
    SignKeepsIds(t, id, signature, identity);
    DenseSegmentsList(t', stream);
    RecursionIsFold(t', stream, k);
    assert SameButSignatures(list[..k + 1], list'[..k + 1]);
    FoldIgnoresSignatures(t.entries, list[..k + 1], list'[..k + 1]);
  }

  // ----- Streams -----

  /** `create_stream` stores name, tier, description and time as given, undeprecated, and touches no other
      stream and no other table. */
  lemma {:induction false} CreateReadsBack(t: Store, name: Text, tier: Text, description: Option<Text>, now: Text,
          other: Text)
    ensures var t' := CreateStream(t, name, tier, description, now);
      && StreamGet(t'.streams, name)
         == Some(StreamRow(name := name, tier := tier, description := description, createdAt := now,
                           deprecatedAt := None))
      && (other != name ==> StreamGet(t'.streams, other) == StreamGet(t.streams, other))
      && t' == t.(streams := t'.streams)
  {
    hide UpsertStream, StreamGet;
    UpsertSetsOne(t.streams, StreamRow(name, tier, description, now, None), name);
    UpsertSetsOne(t.streams, StreamRow(name, tier, description, now, None), other);
  }

  /** `deprecate_stream` sets the deprecation time of a known stream and nothing else; an unknown one is
      refused without any change. */
  lemma {:induction false} DeprecateReadsBack(t: Store, name: Text, now: Text, other: Text)
    ensures var (t', res) := DeprecateStream(t, name, now);
      && (StreamGet(t.streams, name).None? ==> t' == t && res == Err(Storage(UnknownStream)))
      && (StreamGet(t.streams, name).Some? ==>
           && res.Ok?
           && StreamGet(t'.streams, name) == Some(StreamGet(t.streams, name).value.(deprecatedAt := Some(now))))
      && (other != name ==> StreamGet(t'.streams, other) == StreamGet(t.streams, other))
      && t' == t.(streams := t'.streams)
  {
    hide WithDeprecation, StreamGet;
    DeprecationSetsOne(t.streams, name, now, name);
    DeprecationSetsOne(t.streams, name, now, other);
  }

  /** The tier payloads of a stream are sealed under: public for a stream nobody created, and otherwise what
      its stored text is read as; the stream every store is seeded with is public and open. */
  lemma TierAnswers(t: Store, stream: Text)
    ensures StreamGet(t.streams, stream).None? ==> ResolveTier(t, stream) == Ok(Public)
    ensures StreamGet(t.streams, stream).Some? ==>
      var parsed := ParseTier(StreamGet(t.streams, stream).value.tier);
      && (parsed.Some? ==> ResolveTier(t, stream) == Ok(parsed.value))
      && (parsed.None? ==> ResolveTier(t, stream) == Err(Invalid(UnknownTier)))
  {
  }

  lemma {:induction false} DefaultStreamIsPublic()
    ensures ResolveTier(INITIAL.store, Ascii("default")) == Ok(Public) && !IsDeprecated(INITIAL.store, Ascii("default"))
    ensures StreamGet(INITIAL.store.streams, Ascii("default")).Some?
  {
    TierParses(Public);
    hide ParseTier;
  }

  /** Creating a stream sets the tier its later payloads are sealed under. */
  lemma {:induction false} CreateSetsTier(t: Store, name: Text, tier: Tier, description: Option<Text>, now: Text)
    ensures ResolveTier(CreateStream(t, name, TierName(tier), description, now), name) == Ok(tier)
  {
    hide UpsertStream, StreamGet, ParseTier, TierName;
    UpsertSetsOne(t.streams, StreamRow(name, TierName(tier), description, now, None), name);
    TierParses(tier);
  }
}
