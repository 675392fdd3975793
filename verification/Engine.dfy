/** What each operation of `NativeSecureLog` computes and does to the store, as functions of the
    tables. The class in Native.dfy runs the operations step by step against these.

    Timestamps, nonces and signer entropy are inputs; the signer is an arbitrary fixed pair whose
    verification accepts what its signing returned. */
module Engine {
  import opened Basics
  import opened Records
  import opened Encoder
  import opened Crypto
  import opened Tables
  import opened MerkleSpec
  import opened Chain
  import opened Checkpoints
  import opened HeadFiles

  // ----- The signer -----

  datatype SignerPair = SignerPair(
    sign: (Text, Digest, Bytes) -> Option<(Bytes, Text)>,
    verify: (Text, Digest, Bytes) -> Option<bool>)

  ghost predicate VerifyAcceptsSign(s: SignerPair) {
    forall name, message, entropy | s.sign(name, message, entropy).Some? ::
      var (signature, identity) := s.sign(name, message, entropy).value;
      s.verify(identity, message, signature) == Some(true)
  }

  const MUTE_SIGNER := SignerPair((n: Text, m: Digest, e: Bytes) => None, (i: Text, m: Digest, s: Bytes) => None)

  type Signer = s: SignerPair | VerifyAcceptsSign(s) witness MUTE_SIGNER

  const SIGNER: Signer

  /** `sign_checkpoint`: none when the signer fails. */
  function SignCheckpoint(name: Text, message: Digest, entropy: Bytes): Option<(Bytes, Text)> {
    SIGNER.sign(name, message, entropy)
  }

  /** `verify_checkpoint`: none when the verifier fails. */
  function VerifyCheckpoint(identity: Text, message: Digest, signature: Bytes): Option<bool> {
    SIGNER.verify(identity, message, signature)
  }

  lemma {:induction false} SignedVerifies(name: Text, message: Digest, entropy: Bytes)
    requires SignCheckpoint(name, message, entropy).Some?
    ensures var (signature, identity) := SignCheckpoint(name, message, entropy).value;
      VerifyCheckpoint(identity, message, signature) == Some(true)
  {
    assert VerifyAcceptsSign(SIGNER);
  }

  // ----- Store updates -----

  function InsertEntry(t: Store, row: Row): (Store, Result<nat>) {
    if HasSeqno(t.entries, row.seqno) then (t, Err(Storage(UniqueSeqno)))
    else (t.(entries := t.entries + [row]), Ok(row.seqno))
  }

  function NewSegmentId(t: Store): nat {
    if t.nextSegmentId > 1 then t.nextSegmentId else 1
  }

  /** The leaf records of a segment: (segment, seqno, leaf index) in row order. */
  function LeafEntries(id: nat, rows: seq<Row>): (entries: seq<SegmentEntry>)
    ensures |entries| == |rows|
    ensures forall j | 0 <= j < |rows| :: entries[j] == SegmentEntry(id, rows[j].seqno, j)
  {
    if rows == [] then [] else LeafEntries(id, Front(rows)) + [SegmentEntry(id, Last(rows).seqno, |rows| - 1)]
  }

  function InsertSegment(t: Store, row: SegmentRow, rows: seq<Row>): (Store, nat) {
    var id := NewSegmentId(t);
    (t.(segments := t.segments + [row.(segmentId := id)],
        segmentEntries := t.segmentEntries + LeafEntries(id, rows),
        nextSegmentId := id + 1),
     id)
  }

  function WithSignature(segments: seq<SegmentRow>, id: nat, signature: Bytes, identity: Text): (r: seq<SegmentRow>)
    ensures |r| == |segments|
  {
    if segments == [] then []
    else if segments[0].segmentId == id then
      [segments[0].(signature := Some(signature), signerIdentity := Some(identity))] + segments[1..]
    else [segments[0]] + WithSignature(segments[1..], id, signature, identity)
  }

  function UpsertStream(streams: seq<StreamRow>, row: StreamRow): seq<StreamRow> {
    if streams == [] then [row]
    else if streams[0].name == row.name then [row] + streams[1..]
    else [streams[0]] + UpsertStream(streams[1..], row)
  }

  function WithDeprecation(streams: seq<StreamRow>, name: Text, at: Text): seq<StreamRow> {
    if streams == [] then []
    else if streams[0].name == name then [streams[0].(deprecatedAt := Some(at))] + streams[1..]
    else [streams[0]] + WithDeprecation(streams[1..], name, at)
  }

  // ----- Appending -----

  /** What one running process contributes: its session and boot ids, its master key if it has one,
      and whether it keeps a head file. */
  datatype Process = Process(sessionId: Text, bootId: Text, masterKey: Option<Digest>, tracksHeads: bool)

  datatype Draft = Draft(
    streamId: Text,
    eventType: Text,
    severity: Severity,
    producer: Text,
    payload: Bytes,
    payloadEncoding: Text,
    timestamp: Text)

  function RejectIfDeprecated(t: Store, stream: Text): Result<()> {
    match StreamGet(t.streams, stream)
    case Some(row) => if row.deprecatedAt.Some? then Err(Invalid(DeprecatedStream)) else Ok(())
    case None => Ok(())
  }

  /** The digest the next entry of the stream links to. */
  function LinkHash(entries: seq<Row>, stream: Text): Result<Digest> {
    match LastRow(entries, stream)
    case Some(prev) => DigestFromVec(prev.entryHash)
    case None => Ok(ZERO_HASH)
  }

  function NextSeqno(entries: seq<Row>): nat {
    match GlobalHead(entries)
    case Some(h) => h + 1
    case None => 1
  }

  /** The row built from a draft: its entry hash is that of its own fields. */
  function SealRow(p: Process, d: Draft, seqno: nat, prev: Digest): Row {
    var bare := Row(seqno, d.streamId, p.sessionId, p.bootId, d.timestamp, d.eventType, d.severity,
                    d.producer, d.payloadEncoding, d.payload, prev, []);
    bare.(entryHash := RowHash(bare))
  }

  function AppendRow(t: Store, p: Process, d: Draft): (Store, Result<AppendResult>) {
    match LinkHash(t.entries, d.streamId)
    case Err(e) => (t, Err(e))
    case Ok(prev) =>
      var row := SealRow(p, d, NextSeqno(t.entries), prev);
      match InsertEntry(t, row)
      case (t', Err(e)) => (t', Err(e))
      case (t', Ok(seqno)) => (t', Ok(AppendResult(seqno, row.entryHash)))
  }

  /** `append_inner`. */
  function Append(t: Store, p: Process, d: Draft): (Store, Result<AppendResult>) {
    match RejectIfDeprecated(t, d.streamId)
    case Err(e) => (t, Err(e))
    case Ok(_) => AppendRow(t, p, d)
  }

  // ----- Sealed payloads -----

  function ResolveTier(t: Store, stream: Text): Result<Tier> {
    match StreamGet(t.streams, stream)
    case None => Ok(Public)
    case Some(row) =>
      match ParseTier(row.tier)
      case None => Err(Invalid(UnknownTier))
      case Some(tier) => Ok(tier)
  }

  /** The id the stream's open segment is expected to get: one more than its last closed segment. */
  function OpenSegmentId(t: Store, stream: Text): nat {
    var list := SegmentsList(t.segments, stream);
    if list == [] then 1 else Last(list).segmentId + 1
  }

  const EVENT_TYPE: Text := Ascii("event_type")
  const PRODUCER: Text := Ascii("producer")

  function SealedDraft(master: Digest, d: Draft, tier: Tier, segment: nat, nonce: Bytes): Draft {
    var key := SegmentKey(StreamKey(master, d.streamId, tier), segment);
    d.(eventType :=
         if tier.HighlyRestricted? then MinimizedTag(master, d.streamId, EVENT_TYPE, d.eventType) else d.eventType,
       producer :=
         if tier.HighlyRestricted? then MinimizedTag(master, d.streamId, PRODUCER, d.producer) else d.producer,
       payload := Sealed(key, nonce, AeadAad(d.streamId, tier, segment), d.payload),
       payloadEncoding := AEAD_NAME)
  }

  /** `append_encrypted`; the payload of the draft is the plaintext. */
  function AppendEncrypted(t: Store, p: Process, d: Draft, nonce: Bytes): (Store, Result<AppendResult>) {
    match RejectIfDeprecated(t, d.streamId)
    case Err(e) => (t, Err(e))
    case Ok(_) =>
      if p.masterKey.None? then (t, Err(Invalid(MissingMasterKey)))
      else
        match ResolveTier(t, d.streamId)
        case Err(e) => (t, Err(e))
        case Ok(tier) => AppendRow(t, p, SealedDraft(p.masterKey.value, d, tier, OpenSegmentId(t, d.streamId), nonce))
  }

  /** The segment id under which `open_payload` derives the key of an entry. */
  function SegmentOfEntry(t: Store, row: Row): nat {
    match SegmentForSeqno(t.segmentEntries, row.seqno)
    case Some(id) => id
    case None => OpenSegmentId(t, row.streamId)
  }

  function OpenPayload(t: Store, p: Process, seqno: nat): Result<Bytes> {
    match Get(t.entries, seqno)
    case None => Err(EntryNotFound(seqno))
    case Some(row) =>
      if row.payloadEncoding == ENCODER_CBOR then Ok(row.payload)
      else if row.payloadEncoding != AEAD_NAME then Err(Invalid(UnknownEncoding))
      else if p.masterKey.None? then Err(Invalid(MissingMasterKey))
      else
        match ResolveTier(t, row.streamId)
        case Err(e) => Err(e)
        case Ok(tier) =>
          var segment := SegmentOfEntry(t, row);
          OpenSealed(row.payload, SegmentKey(StreamKey(p.masterKey.value, row.streamId, tier), segment),
                     AeadAad(row.streamId, tier, segment))
  }

  // ----- Segments -----

  function LeafHashes(rows: seq<Row>): (r: Result<seq<Digest>>)
    ensures r.Ok? ==> |r.value| == |rows|
    ensures r.Ok? ==> forall j | 0 <= j < |rows| :: r.value[j] == rows[j].entryHash
  {
    if rows == [] then Ok([])
    else
      match LeafHashes(Front(rows))
      case Err(e) => Err(e)
      case Ok(front) =>
        match DigestFromVec(Last(rows).entryHash)
        case Err(e) => Err(e)
        case Ok(d) => Ok(front + [d])
  }

  function SegmentStart(t: Store, stream: Text): (n: nat)
    ensures n >= 1
  {
    match SegmentLastSeqno(t.segments, stream)
    case Some(n) => n + 1
    case None => 1
  }

  function TipCheckpoint(t: Store, stream: Text): Result<Digest> {
    var list := SegmentsList(t.segments, stream);
    if list == [] then Ok(ZERO_HASH) else ComputeCheckpointHash(t, stream, Last(list).segmentId)
  }

  function NewSegment(stream: Text, rows: seq<Row>, leaves: seq<Digest>, end: nat, prev: Digest, now: Text): SegmentRow
    requires rows != [] && |leaves| == |rows|
  {
    SegmentRow(0, stream, rows[0].seqno, end, MTH(leaves), Last(leaves), prev, now, None, None)
  }

  /** `close_segment`. */
  function CloseSegment(t: Store, stream: Text, now: Text): (Store, Result<SegmentInfo>) {
    match Head(t.entries, stream)
    case None => (t, Err(EmptySegment(stream)))
    case Some(head) =>
      var rows := Range(t.entries, stream, SegmentStart(t, stream), head);
      if head < SegmentStart(t, stream) || rows == [] then (t, Err(EmptySegment(stream)))
      else
        match LeafHashes(rows)
        case Err(e) => (t, Err(e))
        case Ok(leaves) =>
          match TipCheckpoint(t, stream)
          case Err(e) => (t, Err(e))
          case Ok(prev) =>
            var row := NewSegment(stream, rows, leaves, head, prev, now);
            var (t', id) := InsertSegment(t, row, rows);
            (t', Ok(SegmentInfo(id, stream, row.seqStart, head, MTH(leaves), Last(leaves), prev, now, [], None)))
  }

  function LeavesOf(entries: seq<Row>, seqnos: seq<nat>): (r: Result<seq<Digest>>)
    ensures r.Ok? ==> |r.value| == |seqnos|
  {
    if seqnos == [] then Ok([])
    else
      match LeavesOf(entries, Front(seqnos))
      case Err(e) => Err(e)
      case Ok(front) =>
        match Get(entries, Last(seqnos))
        case None => Err(EntryNotFound(Last(seqnos)))
        case Some(row) =>
          match DigestFromVec(row.entryHash)
          case Err(e) => Err(e)
          case Ok(d) => Ok(front + [d])
  }

  /** The last index of a seqno in a list. */
  function LastIndexOf(seqnos: seq<nat>, seqno: nat): (r: Option<nat>)
    ensures r.Some? ==> r.value < |seqnos| && seqnos[r.value] == seqno
    ensures r.None? ==> seqno !in seqnos
  {
    if seqnos == [] then None
    else if Last(seqnos) == seqno then Some(|seqnos| - 1)
    else LastIndexOf(Front(seqnos), seqno)
  }

  /** `inclusion_proof`. */
  function ProveInclusion(t: Store, seqno: nat): Result<InclusionProof> {
    match SegmentForSeqno(t.segmentEntries, seqno)
    case None => Err(EntryNotFound(seqno))
    case Some(id) =>
      var seqnos := EntrySeqnos(t.segmentEntries, id);
      match LeavesOf(t.entries, seqnos)
      case Err(e) => Err(e)
      case Ok(leaves) =>
        match LastIndexOf(seqnos, seqno)
        case None => Err(EntryNotFound(seqno))
        case Some(i) => Ok(InclusionProof(seqno, leaves[i], id, MTH(leaves), Path(i, leaves)))
  }

  // ----- Checkpoints -----

  /** `sign_segment`. */
  function SignSegment(t: Store, heads: seq<HeadRecord>, p: Process, name: Text, id: nat, entropy: Bytes, now: Text)
    : (Store, seq<HeadRecord>, Result<(Digest, Bytes)>)
  {
    match SegmentGet(t.segments, id)
    case None => (t, heads, Err(SegmentNotFound(id)))
    case Some(row) =>
      match ComputeCheckpointHash(t, row.streamId, id)
      case Err(e) => (t, heads, Err(e))
      case Ok(hash) =>
        match SignCheckpoint(name, hash, entropy)
        case None => (t, heads, Err(Invalid(SignFailed)))
        case Some((signature, identity)) =>
          (t.(segments := WithSignature(t.segments, id, signature, identity)),
           if p.tracksHeads then HeadUpsert(heads, HeadRecord(row.streamId, id, row.seqEnd, Hex(hash), now)) else heads,
           Ok((hash, signature)))
  }

  /** `verify_segment_signature`. */
  function VerifySegmentSignature(t: Store, id: nat): Result<Digest> {
    match SegmentGet(t.segments, id)
    case None => Err(SegmentNotFound(id))
    case Some(row) =>
      if row.signature.None? then Err(Invalid(Unsigned))
      else if row.signerIdentity.None? then Err(Invalid(MissingSigner))
      else
        match ComputeCheckpointHash(t, row.streamId, id)
        case Err(e) => Err(e)
        case Ok(hash) =>
          match VerifyCheckpoint(row.signerIdentity.value, hash, row.signature.value)
          case None => Err(Invalid(VerifyFailed))
          case Some(ok) => if ok then Ok(hash) else Err(ChainBroken(row.seqEnd, SignatureMismatch))
  }

  /** One round of the loop of `verify_checkpoint_chain`. */
  function CheckSegment(t: Store, row: SegmentRow, prev: Digest): Result<Digest> {
    if |row.prevCheckpointHash| != HASH_LEN then Err(Invalid(DigestLength))
    else if row.prevCheckpointHash != prev then Err(ChainBroken(row.seqEnd, CheckpointDrift))
    else VerifySegmentSignature(t, row.segmentId)
  }

  function CheckSegments(t: Store, list: seq<SegmentRow>): Result<Digest> {
    if list == [] then Ok(ZERO_HASH)
    else
      match CheckSegments(t, Front(list))
      case Err(e) => Err(e)
      case Ok(prev) => CheckSegment(t, Last(list), prev)
  }

  /** `verify_checkpoint_chain`. */
  function VerifyCheckpointChain(t: Store, stream: Text): Result<nat> {
    var list := SegmentsList(t.segments, stream);
    if list == [] then Err(StreamNotFound(stream))
    else
      match CheckSegments(t, list)
      case Err(e) => Err(e)
      case Ok(_) => Ok(|list|)
  }

  /** `check_rollback`. */
  function CheckRollback(t: Store, heads: seq<HeadRecord>, p: Process, stream: Text): Result<()> {
    if !p.tracksHeads || HeadGet(heads, stream).None? then Ok(())
    else
      var record := HeadGet(heads, stream).value;
      var list := SegmentsList(t.segments, stream);
      var highest := if list == [] then 0 else Last(list).segmentId;
      if highest < record.segmentId then Err(ChainBroken(record.seqEnd, RolledBack))
      else
        match ComputeCheckpointHash(t, stream, record.segmentId)
        case Err(e) => Err(e)
        case Ok(computed) =>
          match StoredHash(record)
          case Err(e) => Err(e)
          case Ok(stored) =>
            if computed != stored then Err(ChainBroken(record.seqEnd, CheckpointMismatch))
            else
              match VerifySegmentSignature(t, record.segmentId)
              case Err(e) => Err(e)
              case Ok(_) => Ok(())
  }

  // ----- Streams -----

  const DEFAULT_STREAM: Text := Ascii("default")
  const DEFAULT_DESCRIPTION: Text := Ascii("Default stream created ") + Ascii("automatically at init.")

  /** The stream every store is seeded with. */
  const SEED := StreamRow(DEFAULT_STREAM, PUBLIC, Some(DEFAULT_DESCRIPTION), [], None)

  /** `create_stream`: also clears a deprecation. */
  function CreateStream(t: Store, name: Text, tier: Text, description: Option<Text>, now: Text): Store {
    t.(streams := UpsertStream(t.streams, StreamRow(name, tier, description, now, None)))
  }

  function DeprecateStream(t: Store, name: Text, now: Text): (Store, Result<()>) {
    if StreamGet(t.streams, name).None? then (t, Err(Storage(UnknownStream)))
    else (t.(streams := WithDeprecation(t.streams, name, now)), Ok(()))
  }
}
