/** The records of `model.rs` and `store.rs`. */
module Records {
  import opened Basics

  const ENTRY_VERSION := 1
  const CHECKPOINT_VERSION := 1

  datatype Severity = Emergency | Alert | Critical | Error | Warning | Notice | Info | Debug

  datatype EntryFields = EntryFields(
    version: nat,
    streamId: Text,
    sessionId: Text,
    bootId: Text,
    seqno: nat,
    timestamp: Text,
    eventType: Text,
    severity: Severity,
    producer: Text,
    payloadEncoding: Text,
    payload: Bytes,
    prevEntryHash: Bytes)

  datatype CheckpointFields = CheckpointFields(
    version: nat,
    streamId: Text,
    segmentId: nat,
    seqStart: nat,
    seqEnd: nat,
    merkleRoot: Bytes,
    lastEntryHash: Bytes,
    prevCheckpointHash: Bytes,
    bootId: Text,
    sessionId: Text,
    policyHash: Bytes,
    timestamp: Text)

  /** A row of the `secure_log` table. */
  datatype Row = Row(
    seqno: nat,
    streamId: Text,
    sessionId: Text,
    bootId: Text,
    timestamp: Text,
    eventType: Text,
    severity: Severity,
    producer: Text,
    payloadEncoding: Text,
    payload: Bytes,
    prevEntryHash: Bytes,
    entryHash: Bytes)

  /** A row of the `secure_log_segments` table. */
  datatype SegmentRow = SegmentRow(
    segmentId: nat,
    streamId: Text,
    seqStart: nat,
    seqEnd: nat,
    merkleRoot: Bytes,
    lastEntryHash: Bytes,
    prevCheckpointHash: Bytes,
    closedAt: Text,
    signature: Option<Bytes>,
    signerIdentity: Option<Text>)

  /** A row of the `secure_log_segment_entries` table. */
  datatype SegmentEntry = SegmentEntry(segmentId: nat, seqno: nat, leafIndex: nat)

  datatype StreamRow = StreamRow(
    name: Text,
    tier: Text,
    description: Option<Text>,
    createdAt: Text,
    deprecatedAt: Option<Text>)

  datatype WitnessRow = WitnessRow(
    id: int,
    streamId: Text,
    segmentId: nat,
    seqStart: nat,
    seqEnd: nat,
    checkpointHashHex: Text,
    signatureHex: Text,
    signerIdentity: Text,
    receivedAt: Text)

  /** `SegmentInfo`: a segment whose three digests have the right length. */
  datatype SegmentInfo = SegmentInfo(
    segmentId: nat,
    streamId: Text,
    seqStart: nat,
    seqEnd: nat,
    merkleRoot: Digest,
    lastEntryHash: Digest,
    prevCheckpointHash: Digest,
    closedAt: Text,
    signature: Bytes,
    signerIdentity: Option<Text>)

  datatype AppendResult = AppendResult(seqno: nat, entryHash: Digest)

  datatype ProofStep = ProofStep(siblingHash: Digest, right: bool)

  datatype InclusionProof = InclusionProof(
    seqno: nat,
    entryHash: Digest,
    segmentId: nat,
    merkleRoot: Digest,
    path: seq<ProofStep>)

  function RowToEntry(row: Row): EntryFields {
    EntryFields(ENTRY_VERSION, row.streamId, row.sessionId, row.bootId, row.seqno, row.timestamp,
                row.eventType, row.severity, row.producer, row.payloadEncoding, row.payload,
                row.prevEntryHash)
  }

  function SegmentRowToInfo(row: SegmentRow): Result<SegmentInfo> {
    if |row.merkleRoot| != HASH_LEN || |row.lastEntryHash| != HASH_LEN || |row.prevCheckpointHash| != HASH_LEN then
      Err(Invalid(DigestLength))
    else
      Ok(SegmentInfo(row.segmentId, row.streamId, row.seqStart, row.seqEnd, row.merkleRoot,
                     row.lastEntryHash, row.prevCheckpointHash, row.closedAt,
                     if row.signature.Some? then row.signature.value else [], row.signerIdentity))
  }
}
