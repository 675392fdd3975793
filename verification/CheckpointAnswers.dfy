/** What the checks of checkpoints answer in any store, reachable or not: when a signature, a checkpoint
    chain and a recorded head are accepted, and what is reported otherwise. */
module CheckpointAnswers {
  import opened Basics
  import opened Records
  import opened Sorting
  import opened Tables
  import opened Checkpoints
  import opened HeadFiles
  import opened Engine
  import opened Invariants
  import opened Preservation
  import opened Runs
  import opened CheckpointTheorems

  // ----- One signature -----

  /** The recomputed checkpoint hash of the segment with this id. */
  function HashOfSegment(t: Store, id: nat): Result<Digest> {
    match SegmentGet(t.segments, id)
    case None => Err(SegmentNotFound(id))
    case Some(row) => ComputeCheckpointHash(t, row.streamId, id)
  }

  /** The segment is signed by a named signer whose verification accepts the signature over the
      recomputed hash. */
  predicate SignatureHolds(t: Store, id: nat) {
    var found := SegmentGet(t.segments, id);
    && found.Some? && found.value.signature.Some? && found.value.signerIdentity.Some?
    && HashOfSegment(t, id).Ok?
    && VerifyCheckpoint(found.value.signerIdentity.value, HashOfSegment(t, id).value, found.value.signature.value)
       == Some(true)
  }

  /** `verify_segment_signature` in any store: it returns the recomputed hash exactly when the signature
      holds, and otherwise names what is missing, the failed recomputation, or the signer's verdict. */
  lemma SignatureAnswers(t: Store, id: nat)
    ensures VerifySegmentSignature(t, id).Ok? <==> SignatureHolds(t, id)
    ensures SignatureHolds(t, id) ==> VerifySegmentSignature(t, id) == HashOfSegment(t, id)
    ensures SegmentGet(t.segments, id).None? ==> VerifySegmentSignature(t, id) == Err(SegmentNotFound(id))
    ensures SegmentGet(t.segments, id).Some? ==>
      var row := SegmentGet(t.segments, id).value;
      if row.signature.None? then VerifySegmentSignature(t, id) == Err(Invalid(Unsigned))
      else if row.signerIdentity.None? then VerifySegmentSignature(t, id) == Err(Invalid(MissingSigner))
      else if HashOfSegment(t, id).Err? then VerifySegmentSignature(t, id) == HashOfSegment(t, id)
      else
        var verdict := VerifyCheckpoint(row.signerIdentity.value, HashOfSegment(t, id).value, row.signature.value);
        && (verdict == Some(false) ==>
             VerifySegmentSignature(t, id) == Err(ChainBroken(row.seqEnd, SignatureMismatch)))
        && (verdict == None ==> VerifySegmentSignature(t, id) == Err(Invalid(VerifyFailed)))
  {
  }

  // ----- The checkpoint chain -----

  /** The k-th stored link is the zero digest, or the recomputed hash of the segment before. */
  predicate LinkHolds(t: Store, list: seq<SegmentRow>, k: nat)
    requires k < |list|
  {
    if k == 0 then list[k].prevCheckpointHash == ZERO_HASH
    else HashOfSegment(t, list[k - 1].segmentId) == Ok(list[k].prevCheckpointHash)
  }

  ghost predicate AllHoldBefore(t: Store, list: seq<SegmentRow>, k: nat)
    requires k <= |list|
  {
    forall j | 0 <= j < k :: LinkHolds(t, list, j) && SignatureHolds(t, list[j].segmentId)
  }

  lemma {:induction false} OneMoreHolds(t: Store, list: seq<SegmentRow>, k: nat)
    requires k < |list|
    ensures AllHoldBefore(t, list, k + 1)
      <==> AllHoldBefore(t, list, k) && LinkHolds(t, list, k) && SignatureHolds(t, list[k].segmentId)
  {
    hide LinkHolds, SignatureHolds;
  }

  /** One round of the loop, given the digest the round before left. */
  lemma {:induction false} RoundAcceptsIff(t: Store, list: seq<SegmentRow>, k: nat, prev: Digest)
    requires k < |list|
    requires if k == 0 then prev == ZERO_HASH else HashOfSegment(t, list[k - 1].segmentId) == Ok(prev)
    ensures CheckSegment(t, list[k], prev).Ok? <==> LinkHolds(t, list, k) && SignatureHolds(t, list[k].segmentId)
    ensures CheckSegment(t, list[k], prev).Ok? ==> CheckSegment(t, list[k], prev) == HashOfSegment(t, list[k].segmentId)
  {
    hide VerifySegmentSignature, SignatureHolds, HashOfSegment;
    SignatureAnswers(t, list[k].segmentId);
  }

  lemma {:induction false} PrefixAcceptedIff(t: Store, list: seq<SegmentRow>, k: nat)
    requires k <= |list|
    ensures CheckSegments(t, list[..k]).Ok? <==> AllHoldBefore(t, list, k)
    ensures CheckSegments(t, list[..k]).Ok? ==>
      CheckSegments(t, list[..k]) == if k == 0 then Ok(ZERO_HASH) else HashOfSegment(t, list[k - 1].segmentId)
  {
    hide CheckSegments, CheckSegment, SignatureHolds, HashOfSegment, LinkHolds;
    if k == 0 {
      EmptyCheck(t);
      assert list[..0] == [];
    } else {
      hide AllHoldBefore;
      PrefixAcceptedIff(t, list, k - 1);
      CheckSegmentsUnfolds(t, list, k - 1);
      OneMoreHolds(t, list, k - 1);
      if CheckSegments(t, list[..k - 1]).Ok? {
        RoundAcceptsIff(t, list, k - 1, CheckSegments(t, list[..k - 1]).value);
      }
    }
  }

  lemma {:induction false} ErrorStays(t: Store, list: seq<SegmentRow>, k: nat, n: nat)
    requires k <= n <= |list| && CheckSegments(t, list[..k]).Err?
    ensures CheckSegments(t, list[..n]) == CheckSegments(t, list[..k])
  {
    hide CheckSegments;
    if k < n {
      ErrorStays(t, list, k, n - 1);
      CheckSegmentsUnfolds(t, list, n - 1);
    }
  }

  /** `verify_checkpoint_chain` in any store: it accepts, with the number of segments, exactly when there
      is one, every stored link is the recomputed hash before it, and every signature holds. */
  lemma {:induction false} CheckpointChainAcceptsIff(t: Store, stream: Text)
    ensures var list := SegmentsList(t.segments, stream);
      && (VerifyCheckpointChain(t, stream).Ok? <==> list != [] && AllHoldBefore(t, list, |list|))
      && (VerifyCheckpointChain(t, stream).Ok? ==> VerifyCheckpointChain(t, stream) == Ok(|list|))
      && (list == [] ==> VerifyCheckpointChain(t, stream) == Err(StreamNotFound(stream)))
  {
    hide CheckSegments, SegmentsList, AllHoldBefore;
    var list := SegmentsList(t.segments, stream);
    PrefixAcceptedIff(t, list, |list|);
    assert list[..|list|] == list;
  }

  /** Otherwise it reports the first segment that fails: a link that is no digest or differs from the
      recomputed hash, or else what the signature check returned. */
  lemma {:induction false} CheckpointChainReportsFirst(t: Store, stream: Text, k: nat)
    requires k < |SegmentsList(t.segments, stream)| && AllHoldBefore(t, SegmentsList(t.segments, stream), k)
    ensures var list := SegmentsList(t.segments, stream);
      && (|list[k].prevCheckpointHash| != HASH_LEN ==> VerifyCheckpointChain(t, stream) == Err(Invalid(DigestLength)))
      && (|list[k].prevCheckpointHash| == HASH_LEN && !LinkHolds(t, list, k) ==>
           VerifyCheckpointChain(t, stream) == Err(ChainBroken(list[k].seqEnd, CheckpointDrift)))
      && (LinkHolds(t, list, k) && VerifySegmentSignature(t, list[k].segmentId).Err? ==>
           VerifyCheckpointChain(t, stream) == Err(VerifySegmentSignature(t, list[k].segmentId).error))
  {
    hide CheckSegments, SegmentsList, VerifySegmentSignature, HashOfSegment, SignatureHolds;
    var list := SegmentsList(t.segments, stream);
    PrefixAcceptedIff(t, list, k);
    CheckSegmentsUnfolds(t, list, k);
    if CheckSegments(t, list[..k + 1]).Err? {
      ErrorStays(t, list, k + 1, |list|);
    }
    assert list[..|list|] == list;
  }

  // ----- The recorded head -----

  /** Some segment of the list has an id that is not below the recorded one; ids start at one. */
  ghost predicate Reaches(list: seq<SegmentRow>, id: nat) {
    id == 0 || exists i :: 0 <= i < |list| && list[i].segmentId >= id
  }

  lemma {:induction false} LastIsHighest(t: Store, stream: Text, id: nat)
    ensures var list := SegmentsList(t.segments, stream);
      Reaches(list, id) <==> (if list == [] then 0 else Last(list).segmentId) >= id
  {
    hide FilterStream;
    var list := SegmentsList(t.segments, stream);
    SortSorts(BY_SEGMENT_ID, FilterStream(t.segments, stream));
    if list != [] && Last(list).segmentId >= id {
      assert list[|list| - 1].segmentId >= id;
    }
    if i :| 0 <= i < |list| && list[i].segmentId >= id {
      assert BY_SEGMENT_ID(list[i]) <= BY_SEGMENT_ID(list[|list| - 1]);
    }
  }

  /** `check_rollback` in any store. Without a head file or a record for the stream there is nothing to
      check. With one it accepts exactly when the stream's segments reach the recorded id, the recomputed
      hash of that segment is the recorded one, and its signature holds; what fails first is reported. */
  lemma {:induction false} RollbackAnswers(t: Store, heads: seq<HeadRecord>, p: Process, stream: Text)
    ensures !p.tracksHeads || HeadGet(heads, stream).None? ==> CheckRollback(t, heads, p, stream) == Ok(())
    ensures p.tracksHeads && HeadGet(heads, stream).Some? ==>
      var record := HeadGet(heads, stream).value;
      var list, res := SegmentsList(t.segments, stream), CheckRollback(t, heads, p, stream);
      var hash := ComputeCheckpointHash(t, stream, record.segmentId);
      && (res.Ok? <==>
           && Reaches(list, record.segmentId)
           && hash.Ok? && hash == StoredHash(record)
           && SignatureHolds(t, record.segmentId))
      && (!Reaches(list, record.segmentId) ==> res == Err(ChainBroken(record.seqEnd, RolledBack)))
      && (Reaches(list, record.segmentId) && hash.Ok? && StoredHash(record).Ok? && hash != StoredHash(record) ==>
           res == Err(ChainBroken(record.seqEnd, CheckpointMismatch)))
      && (Reaches(list, record.segmentId) && hash.Ok? && hash == StoredHash(record) && res.Err? ==>
           VerifySegmentSignature(t, record.segmentId) == Err(res.error))
  {
    hide ComputeCheckpointHash, StoredHash, SegmentsList, HeadGet, Reaches, SignatureHolds, VerifySegmentSignature;
    if HeadGet(heads, stream).Some? {
      var id := HeadGet(heads, stream).value.segmentId;
      LastIsHighest(t, stream, id);
      SignatureAnswers(t, id);
    }
  }

  // ----- A signature that was replaced -----

  /** The store with other contents in the two signature columns of one segment. */
  function Resigned(t: Store, id: nat, signature: Option<Bytes>, identity: Option<Text>): Store
    requires 1 <= id <= |t.segments|
  {
    t.(segments := t.segments[id - 1 := t.segments[id - 1].(signature := signature, signerIdentity := identity)])
  }

  lemma {:induction false} FilterKeepsShape(a: seq<SegmentRow>, b: seq<SegmentRow>, stream: Text)
    requires SameButSignatures(a, b)
    ensures SameButSignatures(FilterStream(a, stream), FilterStream(b, stream))
  {
    if a != [] {
      assert forall i | 0 <= i < |Front(a)| :: Front(a)[i] == a[i] && Front(b)[i] == b[i];
      FilterKeepsShape(Front(a), Front(b), stream);
      assert b[|b| - 1] == a[|a| - 1].(signature := b[|b| - 1].signature, signerIdentity := b[|b| - 1].signerIdentity);
    }
  }

  lemma {:induction false} ResignedShape(t: Store, id: nat, signature: Option<Bytes>, identity: Option<Text>)
    requires IdsDense(t) && 1 <= id <= |t.segments|
    ensures var t' := Resigned(t, id, signature, identity);
      IdsDense(t') && SameButSignatures(t.segments, t'.segments)
  {
  }

  /** A replaced signature changes no recomputed hash. */
  lemma {:induction false} ResignedKeepsHash(t: Store, id: nat, signature: Option<Bytes>, identity: Option<Text>,
          i: nat)
    requires IdsDense(t) && 1 <= id <= |t.segments| && 1 <= i <= |t.segments|
    ensures var t' := Resigned(t, id, signature, identity);
      && HashOfSegment(t', i) == HashOfSegment(t, i)
      && HashOfSegment(t, i) == ComputeCheckpointHash(t, t.segments[i - 1].streamId, i)
      && SegmentGet(t'.segments, i) == Some(t'.segments[i - 1]) && SegmentGet(t.segments, i) == Some(t.segments[i - 1])
  {
    hide FilterStream, CheckpointFold, ComputeCheckpointHash, SegmentGet, Position;
    var t' := Resigned(t, id, signature, identity);
    ResignedShape(t, id, signature, identity);
    HashIsFold(t, i);
    HashIsFold(t', i);
    var stream := t.segments[i - 1].streamId;
    var list, list' := FilterStream(t.segments, stream), FilterStream(t'.segments, stream);
    FilterKeepsShape(t.segments, t'.segments, stream);
    SignKeepsPosition(list, list', i);
    var k := Position(list, i);
    assert SameButSignatures(list[..k + 1], list'[..k + 1]);
    FoldIgnoresSignatures(t.entries, list[..k + 1], list'[..k + 1]);
  }

  /** The signer's verification accepts these two columns over the segment's hash. */
  predicate Accepted(t: Store, id: nat, signature: Option<Bytes>, identity: Option<Text>) {
    && signature.Some? && identity.Some? && HashOfSegment(t, id).Ok?
    && VerifyCheckpoint(identity.value, HashOfSegment(t, id).value, signature.value) == Some(true)
  }

  /** Which signatures hold afterwards: the replaced one exactly if the signer accepts it, and the
      others exactly if they are there. */
  lemma {:induction false} ResignedHolds(s: State, id: nat, signature: Option<Bytes>, identity: Option<Text>, i: nat)
    requires StateOk(s) && 1 <= id <= |s.store.segments| && 1 <= i <= |s.store.segments|
    ensures SignatureHolds(Resigned(s.store, id, signature, identity), i)
      <==> if i == id then Accepted(s.store, id, signature, identity) else s.store.segments[i - 1].signature.Some?
  {
    hide HashOfSegment, SegmentGet, VerifyCheckpoint, StoreOk, HeadsOk, VerifySegmentSignature;
    StateStreamsOk(s, []);
    ResignedKeepsHash(s.store, id, signature, identity, i);
    if i != id {
      StoredSignatureHolds(s, i);
    }
  }

  lemma {:induction false} StoredSignatureHolds(s: State, i: nat)
    requires StateOk(s) && 1 <= i <= |s.store.segments|
    ensures SignatureHolds(s.store, i) <==> s.store.segments[i - 1].signature.Some?
    ensures SegmentGet(s.store.segments, i) == Some(s.store.segments[i - 1]) && HashOfSegment(s.store, i).Ok?
  {
    hide StoreOk, HeadsOk, FilterStream, CheckpointFold, ComputeCheckpointHash, SegmentGet, VerifySegmentSignature,
         Position;
    SegmentIsListed(s.store, i);
    var stream := s.store.segments[i - 1].streamId;
    var k := Position(FilterStream(s.store.segments, stream), i);
    StateStreamsOk(s, stream);
    SignatureVerifiesIff(s.store, stream, k);
    SignatureAnswers(s.store, i);
  }

  /** The stream's list afterwards: the same segments in the same places, with their links in order. */
  lemma {:induction false} ResignedList(s: State, id: nat, signature: Option<Bytes>, identity: Option<Text>,
          stream: Text)
    requires StateOk(s) && 1 <= id <= |s.store.segments|
    ensures var t' := Resigned(s.store, id, signature, identity);
      var list, list' := SegmentsList(s.store.segments, stream), SegmentsList(t'.segments, stream);
      && SameButSignatures(list, list')
      && forall j | 0 <= j < |list'| ::
        && LinkHolds(t', list', j)
        && |list'[j].prevCheckpointHash| == HASH_LEN
        && 1 <= list[j].segmentId == list'[j].segmentId <= |s.store.segments|
        && list[j] == s.store.segments[list[j].segmentId - 1]
  {
    hide StoreOk, HeadsOk, FilterStream, SegmentsList, StreamOk, LinkHolds;
    var t := s.store;
    var t' := Resigned(t, id, signature, identity);
    StateStreamsOk(s, stream);
    ResignedShape(t, id, signature, identity);
    DenseSegmentsList(t, stream);
    DenseSegmentsList(t', stream);
    DenseFilterStream(t.segments, stream);
    FilterKeepsShape(t.segments, t'.segments, stream);
    forall j | 0 <= j < |FilterStream(t.segments, stream)|
      ensures LinkHolds(t', FilterStream(t'.segments, stream), j)
      ensures |FilterStream(t'.segments, stream)[j].prevCheckpointHash| == HASH_LEN
    {
      ResignedLink(s, id, signature, identity, stream, j);
    }
  }

  lemma {:induction false} ResignedLink(s: State, id: nat, signature: Option<Bytes>, identity: Option<Text>,
          stream: Text, j: nat)
    requires StateOk(s) && 1 <= id <= |s.store.segments| && j < |FilterStream(s.store.segments, stream)|
    requires var t' := Resigned(s.store, id, signature, identity);
      SameButSignatures(FilterStream(s.store.segments, stream), FilterStream(t'.segments, stream))
    ensures var t' := Resigned(s.store, id, signature, identity);
      var list' := FilterStream(t'.segments, stream);
      LinkHolds(t', list', j) && |list'[j].prevCheckpointHash| == HASH_LEN
  {
    hide StoreOk, HeadsOk, FilterStream, CheckpointFold, ComputeCheckpointHash, SegmentGet, HashOfSegment, StreamOk,
         Resigned, VerifySegmentSignature;
    var t := s.store;
    var list, list' := FilterStream(t.segments, stream),
      FilterStream(Resigned(t, id, signature, identity).segments, stream);
    StateStreamsOk(s, stream);
    StoredPredecessor(t, stream, j);
    assert list'[j].prevCheckpointHash == list[j].prevCheckpointHash;
    if j == 0 {
      assert list[..0] == [];
      EmptyFold(t.entries);
    } else {
      SignatureVerifiesIff(t, stream, j - 1);
      DenseFilterStream(t.segments, stream);
      ResignedKeepsHash(t, id, signature, identity, list[j - 1].segmentId);
      assert list'[j - 1].segmentId == list[j - 1].segmentId;
    }
  }

  /** Whatever is written into the two signature columns of one segment of a reachable store: the
      signature check, the checkpoint chain and the rollback check against a record of that segment accept
      it exactly when the signer's verification does, and the chain also needs the other signatures. */
  lemma {:induction false} ReplacedSignatureIff(s: State, id: nat, signature: Option<Bytes>, identity: Option<Text>,
          p: Process)
    requires StateOk(s) && 1 <= id <= |s.store.segments|
    ensures var t' := Resigned(s.store, id, signature, identity);
      var stream := s.store.segments[id - 1].streamId;
      var list := SegmentsList(s.store.segments, stream);
      && (VerifySegmentSignature(t', id).Ok? <==> Accepted(s.store, id, signature, identity))
      && (VerifyCheckpointChain(t', stream).Ok? <==>
           && Accepted(s.store, id, signature, identity)
           && forall j | 0 <= j < |list| && list[j].segmentId != id :: list[j].signature.Some?)
      && (p.tracksHeads && HeadGet(s.heads, stream).Some? && HeadGet(s.heads, stream).value.segmentId == id ==>
           (CheckRollback(t', s.heads, p, stream).Ok? <==> Accepted(s.store, id, signature, identity)))
  {
    hide StateOk, ComputeCheckpointHash, SegmentGet, SegmentsList, HashOfSegment, SignatureHolds, Accepted, Resigned,
         VerifySegmentSignature, VerifyCheckpointChain, CheckRollback, StoredHash, LinkHolds;
    var t' := Resigned(s.store, id, signature, identity);
    var stream := s.store.segments[id - 1].streamId;
    SignatureAnswers(t', id);
    ResignedHolds(s, id, signature, identity, id);
    ResignedChainIff(s, id, signature, identity);
    if p.tracksHeads && HeadGet(s.heads, stream).Some? && HeadGet(s.heads, stream).value.segmentId == id {
      RollbackAnswers(t', s.heads, p, stream);
      ResignedRecord(s, id, signature, identity);
    }
  }

  lemma {:induction false} ResignedChainIff(s: State, id: nat, signature: Option<Bytes>, identity: Option<Text>)
    requires StateOk(s) && 1 <= id <= |s.store.segments|
    ensures var t' := Resigned(s.store, id, signature, identity);
      var stream := s.store.segments[id - 1].streamId;
      var list := SegmentsList(s.store.segments, stream);
      VerifyCheckpointChain(t', stream).Ok? <==>
      && Accepted(s.store, id, signature, identity)
      && forall j | 0 <= j < |list| && list[j].segmentId != id :: list[j].signature.Some?
  {
    hide StateOk, ComputeCheckpointHash, SegmentGet, SegmentsList, HashOfSegment, SignatureHolds, Accepted, Resigned,
         VerifySegmentSignature, VerifyCheckpointChain, LinkHolds;
    var t' := Resigned(s.store, id, signature, identity);
    var stream := s.store.segments[id - 1].streamId;
    var list, list' := SegmentsList(s.store.segments, stream), SegmentsList(t'.segments, stream);
    CheckpointChainAcceptsIff(t', stream);
    ResignedList(s, id, signature, identity, stream);
    var k := IsListed(s, id);
    forall j | 0 <= j < |list|
      ensures SignatureHolds(t', list'[j].segmentId)
        <==> if list[j].segmentId == id then Accepted(s.store, id, signature, identity) else list[j].signature.Some?
    {
      ResignedHolds(s, id, signature, identity, list[j].segmentId);
    }
  }

  /** A stored segment stands in its stream's list. */
  lemma {:induction false} IsListed(s: State, id: nat) returns (k: nat)
    requires StateOk(s) && 1 <= id <= |s.store.segments|
    ensures var list := SegmentsList(s.store.segments, s.store.segments[id - 1].streamId);
      k < |list| && list[k].segmentId == id
  {
    hide StoreOk, HeadsOk, FilterStream, CheckpointFold, ComputeCheckpointHash, SegmentGet, SegmentsList;
    SegmentIsListed(s.store, id);
    StateStreamsOk(s, []);
    DenseSegmentsList(s.store, s.store.segments[id - 1].streamId);
    k := Position(SegmentsList(s.store.segments, s.store.segments[id - 1].streamId), id);
  }

  /** A head record that names the segment still matches its recomputed hash. */
  lemma {:induction false} ResignedRecord(s: State, id: nat, signature: Option<Bytes>, identity: Option<Text>)
    requires StateOk(s) && 1 <= id <= |s.store.segments|
    requires var found := HeadGet(s.heads, s.store.segments[id - 1].streamId);
      found.Some? && found.value.segmentId == id
    ensures var t' := Resigned(s.store, id, signature, identity);
      var stream := s.store.segments[id - 1].streamId;
      var record := HeadGet(s.heads, stream).value;
      && Reaches(SegmentsList(t'.segments, stream), id)
      && ComputeCheckpointHash(t', stream, id).Ok? && ComputeCheckpointHash(t', stream, id) == StoredHash(record)
      && HashOfSegment(t', id) == HashOfSegment(s.store, id) == StoredHash(record)
      && SegmentGet(t'.segments, id) == Some(t'.segments[id - 1])
      && t'.segments[id - 1].seqEnd == s.store.segments[id - 1].seqEnd
  {
    hide StateOk, ComputeCheckpointHash, SegmentsList, StoredHash, VerifySegmentSignature, LinkHolds, SegmentGet,
         HeadGet;
    var t' := Resigned(s.store, id, signature, identity);
    var stream := s.store.segments[id - 1].streamId;
    StateStreamsOk(s, stream);
    var k := RecordIsTrue(s, stream);
    ResignedList(s, id, signature, identity, stream);
    assert SegmentsList(t'.segments, stream)[k].segmentId >= id;
    ResignedKeepsHash(s.store, id, signature, identity, id);
  }

  /** A replaced signature that the signer rejects is reported as a mismatch at the segment's end, by the
      signature check, by the rollback check against a record of that segment, and by the checkpoint chain
      if the segments before it are signed. */
  lemma {:induction false} RejectedSignatureIsReported(s: State, id: nat, signature: Bytes, identity: Text, p: Process)
    requires StateOk(s) && 1 <= id <= |s.store.segments|
    requires HashOfSegment(s.store, id).Ok? ==>
      VerifyCheckpoint(identity, HashOfSegment(s.store, id).value, signature) == Some(false)
    ensures var t' := Resigned(s.store, id, Some(signature), Some(identity));
      var row := s.store.segments[id - 1];
      var list := SegmentsList(s.store.segments, row.streamId);
      var mismatch := ChainBroken(row.seqEnd, SignatureMismatch);
      && VerifySegmentSignature(t', id) == Err(mismatch)
      && (p.tracksHeads && HeadGet(s.heads, row.streamId).Some?
          && HeadGet(s.heads, row.streamId).value.segmentId == id ==>
           CheckRollback(t', s.heads, p, row.streamId) == Err(mismatch))
      && ((forall j | 0 <= j < |list| && list[j].segmentId < id :: list[j].signature.Some?) ==>
           VerifyCheckpointChain(t', row.streamId) == Err(mismatch))
  {
    hide StateOk, ComputeCheckpointHash, SegmentGet, SegmentsList, HashOfSegment, SignatureHolds,
         VerifySegmentSignature, VerifyCheckpointChain, CheckRollback, StoredHash, LinkHolds;
    var t' := Resigned(s.store, id, Some(signature), Some(identity));
    var stream := s.store.segments[id - 1].streamId;
    StateStreamsOk(s, []);
    StoredSignatureHolds(s, id);
    ResignedKeepsHash(s.store, id, Some(signature), Some(identity), id);
    SignatureAnswers(t', id);
    if p.tracksHeads && HeadGet(s.heads, stream).Some? && HeadGet(s.heads, stream).value.segmentId == id {
      RollbackAnswers(t', s.heads, p, stream);
      ResignedRecord(s, id, Some(signature), Some(identity));
    }
    var list := SegmentsList(s.store.segments, stream);
    if forall j | 0 <= j < |list| && list[j].segmentId < id :: list[j].signature.Some? {
      RejectedInChain(s, id, signature, identity);
    }
  }

  lemma {:induction false} RejectedInChain(s: State, id: nat, signature: Bytes, identity: Text)
    requires StateOk(s) && 1 <= id <= |s.store.segments|
    requires var t' := Resigned(s.store, id, Some(signature), Some(identity));
      VerifySegmentSignature(t', id) == Err(ChainBroken(s.store.segments[id - 1].seqEnd, SignatureMismatch))
    requires var list := SegmentsList(s.store.segments, s.store.segments[id - 1].streamId);
      forall j | 0 <= j < |list| && list[j].segmentId < id :: list[j].signature.Some?
    ensures var t' := Resigned(s.store, id, Some(signature), Some(identity));
      var row := s.store.segments[id - 1];
      VerifyCheckpointChain(t', row.streamId) == Err(ChainBroken(row.seqEnd, SignatureMismatch))
  {
    hide StateOk, ComputeCheckpointHash, SegmentGet, SegmentsList, HashOfSegment, SignatureHolds, Resigned,
         VerifySegmentSignature, VerifyCheckpointChain, LinkHolds;
    var t' := Resigned(s.store, id, Some(signature), Some(identity));
    var stream := s.store.segments[id - 1].streamId;
    var list, list' := SegmentsList(s.store.segments, stream), SegmentsList(t'.segments, stream);
    ResignedList(s, id, Some(signature), Some(identity), stream);
    var k := IsListed(s, id);
    forall j | 0 <= j < k ensures SignatureHolds(t', list'[j].segmentId) {
      ListedBelow(s, stream, j, k);
      ResignedHolds(s, id, Some(signature), Some(identity), list[j].segmentId);
    }
    CheckpointChainReportsFirst(t', stream, k);
  }

  lemma {:induction false} ListedBelow(s: State, stream: Text, j: nat, k: nat)
    requires StateOk(s) && j < k < |SegmentsList(s.store.segments, stream)|
    ensures SegmentsList(s.store.segments, stream)[j].segmentId < SegmentsList(s.store.segments, stream)[k].segmentId
  {
    hide StoreOk, HeadsOk, FilterStream, StreamOk;
    StateStreamsOk(s, stream);
    DenseSegmentsList(s.store, stream);
    DenseFilterStream(s.store.segments, stream);
  }
}
