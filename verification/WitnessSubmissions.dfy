/** Witness submissions: what is sent to an external witness, and the check of what comes back. */
module WitnessSubmissions {
  import opened Basics
  import opened Records
  import opened Encoder
  import opened Crypto
  import opened Tables
  import opened Checkpoints
  import opened HeadFiles
  import opened Engine
  import opened Invariants
  import opened Preservation
  import opened Runs
  import opened InclusionTheorems
  import opened CheckpointTheorems
  import opened PayloadTheorems

  datatype Submission = Submission(
    streamId: Text,
    segmentId: nat,
    seqStart: nat,
    seqEnd: nat,
    checkpointHashHex: Text,
    signatureHex: Text,
    signerIdentity: Text)

  /** The k-th segment is signed, and none after it is. */
  ghost predicate IsLastSigned(list: seq<SegmentRow>, k: nat) {
    k < |list| && list[k].signature.Some? && forall j | k < j < |list| :: list[j].signature.None?
  }

  /** The last signed segment of a list. */
  function LastSigned(list: seq<SegmentRow>): (r: Option<SegmentRow>)
    ensures r.Some? ==> exists k: nat :: IsLastSigned(list, k) && list[k] == r.value
    ensures r.None? ==> forall i | 0 <= i < |list| :: list[i].signature.None?
  {
    if list == [] then None
    else if Last(list).signature.Some? then
      assert IsLastSigned(list, |list| - 1);
      Some(Last(list))
    else
      assert forall k: nat :: IsLastSigned(Front(list), k) ==> IsLastSigned(list, k);
      LastSigned(Front(list))
  }

  /** `build_witness_submission`. */
  function BuildSubmission(t: Store, stream: Text): Result<Submission> {
    match LastSigned(SegmentsList(t.segments, stream))
    case None => Err(Invalid(NoSignedSegment))
    case Some(row) =>
      match ComputeCheckpointHash(t, stream, row.segmentId)
      case Err(e) => Err(e)
      case Ok(hash) =>
        if row.signerIdentity.None? then Err(Invalid(MissingSigner))
        else
          Ok(Submission(row.streamId, row.segmentId, row.seqStart, row.seqEnd, Hex(hash),
                        Hex(row.signature.value), row.signerIdentity.value))
  }

  /** `verify_against_witness`. */
  function VerifyAgainstWitness(t: Store, sub: Submission): Result<bool> {
    match ComputeCheckpointHash(t, sub.streamId, sub.segmentId)
    case Err(e) => Err(e)
    case Ok(hash) =>
      if sub.checkpointHashHex == Hex(hash) then Ok(true) else Err(ChainBroken(sub.seqEnd, WitnessDivergence))
  }

  lemma {:induction false} HexIsInjective(a: Digest, b: Digest)
    requires Hex(a) == Hex(b)
    ensures a == b
  {
    hide Hex, ParseHex;
    HexReadsBack(a);
    HexReadsBack(b);
  }

  /** In any store and for any submission: it is answered true exactly when its text is the lower-case hex
      of the digest the store recomputes at the submitted segment, so a submission of some digest exactly
      when that very digest is recomputed; when another is, or the text is no digest's, it is refused as a
      divergence. The answer false that the documentation describes for an older ancestor is never given:
      the check is at the submission's own segment. */
  lemma {:induction false} WitnessAnswers(t: Store, sub: Submission)
    ensures VerifyAgainstWitness(t, sub) == Ok(true)
      <==> exists d: Digest ::
        ComputeCheckpointHash(t, sub.streamId, sub.segmentId) == Ok(d) && sub.checkpointHashHex == Hex(d)
    ensures forall submitted: Digest | sub.checkpointHashHex == Hex(submitted) ::
      VerifyAgainstWitness(t, sub) == Ok(true) <==>
      ComputeCheckpointHash(t, sub.streamId, sub.segmentId) == Ok(submitted)
    ensures ComputeCheckpointHash(t, sub.streamId, sub.segmentId).Ok? && VerifyAgainstWitness(t, sub) != Ok(true) ==>
      VerifyAgainstWitness(t, sub) == Err(ChainBroken(sub.seqEnd, WitnessDivergence))
    ensures VerifyAgainstWitness(t, sub) != Ok(false)
  {
    hide ComputeCheckpointHash, Hex;
    var local := ComputeCheckpointHash(t, sub.streamId, sub.segmentId);
    forall submitted: Digest | sub.checkpointHashHex == Hex(submitted)
      ensures VerifyAgainstWitness(t, sub) == Ok(true) <==> local == Ok(submitted)
    {
      if local.Ok? && Hex(local.value) == Hex(submitted) {
        HexIsInjective(local.value, submitted);
      }
    }
    if local.Ok? && sub.checkpointHashHex == Hex(local.value) {
      assert local == Ok(local.value);
    }
  }

  // ----- A closed segment's checkpoint hash never changes -----

  lemma {:induction false} FoldSurvivesStep(s: State, step: Step, stream: Text, k: nat)
    requires StateOk(s) && k < |FilterStream(s.store.segments, stream)|
    ensures var list := FilterStream(s.store.segments, stream);
      var list' := FilterStream(Apply(s, step).store.segments, stream);
      && k < |list'| && list'[k].segmentId == list[k].segmentId
      && CheckpointFold(Apply(s, step).store.entries, list'[..k + 1]) == CheckpointFold(s.store.entries, list[..k + 1])
  {
    hide StateOk, Apply, FilterStream, CheckpointFold, SameButSignatures, LeafEntries, Get;
    var list := FilterStream(s.store.segments, stream);
    var list' := FilterStream(Apply(s, step).store.segments, stream);
    StepExtendsList(s, step, stream);
    assert list[..|list|] == list;
    SameButSignaturesComposes(list, list, list') by { SameButSignaturesReflexive(list); }
    PrefixSameButSignatures(list, list', k + 1);
    FoldIgnoresSignatures(s.store.entries, list[..k + 1], list'[..k + 1]);
    var more, id, rows := StepGrows(s, step);
    EndsAreRows(s, stream);
    var kept := list'[..k + 1];
    forall i | 0 <= i < |kept|
      ensures Get(s.store.entries, kept[i].seqEnd) == Get(s.store.entries + more, kept[i].seqEnd)
    {
      GetKeeps(s.store.entries, more, list[i].seqEnd);
    }
    FoldKeeps(s.store.entries, s.store.entries + more, kept);
  }

  lemma {:induction false} PrefixSameButSignatures(list: seq<SegmentRow>, list': seq<SegmentRow>, n: nat)
    requires |list| <= |list'| && SameButSignatures(list, list'[..|list|]) && n <= |list|
    ensures SameButSignatures(list[..n], list'[..n])
  {
    assert forall i | 0 <= i < n :: list'[..n][i] == list'[..|list|][i] && list[..n][i] == list[i];
  }

  lemma {:induction false} EndsAreRows(s: State, stream: Text)
    requires StateOk(s)
    ensures forall i | 0 <= i < |FilterStream(s.store.segments, stream)| ::
      Get(s.store.entries, FilterStream(s.store.segments, stream)[i].seqEnd).Some?
  {
    hide SegmentOk, SignatureOk, FilterStream, ChainValid, HeadsOk, Get;
    var list := FilterStream(s.store.segments, stream);
    assert StreamOk(s.store, stream);
    forall i | 0 <= i < |list| ensures Get(s.store.entries, list[i].seqEnd).Some? {
      OneOfList(s.store.entries, s.store.segmentEntries, stream, list, i);
      SegmentEndsAtARow(s.store.entries, s.store.segmentEntries, stream, list, i);
    }
  }

  lemma {:induction false} FoldSurvivesRun(s: State, steps: seq<Step>, stream: Text, k: nat)
    requires StateOk(s) && k < |FilterStream(s.store.segments, stream)|
    ensures var list := FilterStream(s.store.segments, stream);
      var list' := FilterStream(Run(s, steps).store.segments, stream);
      && k < |list'| && list'[k].segmentId == list[k].segmentId
      && CheckpointFold(Run(s, steps).store.entries, list'[..k + 1]) == CheckpointFold(s.store.entries, list[..k + 1])
  {
    hide StateOk, Apply, FilterStream, CheckpointFold;
    if steps != [] {
      FoldSurvivesRun(s, Front(steps), stream, k);
      RunKeepsStateOk(s, Front(steps));
      FoldSurvivesStep(Run(s, Front(steps)), Last(steps), stream, k);
    }
  }

  /** The checkpoint hash of a closed segment is the same after any further run, whatever is appended,
      closed, signed or signed again. */
  lemma {:induction false} CheckpointHashSurvivesRun(s: State, steps: seq<Step>, stream: Text, k: nat)
    requires StateOk(s) && k < |FilterStream(s.store.segments, stream)|
    ensures var id := FilterStream(s.store.segments, stream)[k].segmentId;
      && ComputeCheckpointHash(s.store, stream, id).Ok?
      && ComputeCheckpointHash(Run(s, steps).store, stream, id) == ComputeCheckpointHash(s.store, stream, id)
  {
    hide StateOk, Run, FilterStream, CheckpointFold, ComputeCheckpointHash, VerifySegmentSignature;
    FoldSurvivesRun(s, steps, stream, k);
    RunKeepsStateOk(s, steps);
    StateIsStoreOk(s);
    StateIsStoreOk(Run(s, steps));
    SignatureVerifiesIff(s.store, stream, k);
    SignatureVerifiesIff(Run(s, steps).store, stream, k);
  }

  // ----- Submissions -----

  /** The submission names the k-th segment, its bounds, the hex of its recomputed hash and of its
      signature, and its signer. */
  ghost predicate Submits(t: Store, stream: Text, list: seq<SegmentRow>, k: nat, sub: Submission)
    requires k < |list|
  {
    && list[k].signature.Some? && list[k].signerIdentity.Some?
    && sub.streamId == stream && sub.segmentId == list[k].segmentId
    && sub.seqStart == list[k].seqStart && sub.seqEnd == list[k].seqEnd
    && ComputeCheckpointHash(t, stream, sub.segmentId).Ok?
    && sub.checkpointHashHex == Hex(ComputeCheckpointHash(t, stream, sub.segmentId).value)
    && sub.signatureHex == Hex(list[k].signature.value) && sub.signerIdentity == list[k].signerIdentity.value
  }

  /** In every reachable state a submission can be built exactly when the stream has a signed segment, and
      it is the one of the last signed segment. */
  lemma {:induction false} SubmissionIsBuiltIff(s: State, stream: Text)
    requires StateOk(s)
    ensures var list := FilterStream(s.store.segments, stream);
      && (BuildSubmission(s.store, stream).Ok? <==> exists k :: 0 <= k < |list| && list[k].signature.Some?)
      && (BuildSubmission(s.store, stream).Err? ==> BuildSubmission(s.store, stream) == Err(Invalid(NoSignedSegment)))
      && (BuildSubmission(s.store, stream).Ok? ==>
           exists k: nat ::
             IsLastSigned(list, k) && Submits(s.store, stream, list, k, BuildSubmission(s.store, stream).value))
  {
    hide FilterStream, ComputeCheckpointHash, SegmentsList, CheckpointFold, StoreOk, HeadsOk, Hex, LastSigned;
    StoreIdsDense(s.store);
    DenseSegmentsList(s.store, stream);
    var list := FilterStream(s.store.segments, stream);
    if LastSigned(list).Some? {
      var row := LastSigned(list).value;
      var k: nat :| IsLastSigned(list, k) && list[k] == row;
      DenseFilterStream(s.store.segments, stream);
      SignedHasIdentity(s.store, stream, k);
      StateStreamsOk(s, stream);
      SignatureVerifiesIff(s.store, stream, k);
      assert Submits(s.store, stream, list, k, BuildSubmission(s.store, stream).value);
    }
  }

  lemma {:induction false} SignedHasIdentity(t: Store, stream: Text, k: nat)
    requires StoreOk(t) && k < |FilterStream(t.segments, stream)| && FilterStream(t.segments, stream)[k].signature.Some?
    ensures FilterStream(t.segments, stream)[k].signerIdentity.Some?
  {
    hide FilterStream, SegmentOk, ChainValid, CheckpointFold;
    assert StreamOk(t, stream);
    OneOfList(t.entries, t.segmentEntries, stream, FilterStream(t.segments, stream), k);
  }

  /** A submission built in any reachable state is confirmed after any further run. */
  lemma {:induction false} SubmissionVerifiesLater(s: State, steps: seq<Step>, stream: Text)
    requires StateOk(s) && BuildSubmission(s.store, stream).Ok?
    ensures VerifyAgainstWitness(Run(s, steps).store, BuildSubmission(s.store, stream).value) == Ok(true)
  {
    hide StateOk, Run, FilterStream, ComputeCheckpointHash, Hex, BuildSubmission;
    SubmissionIsBuiltIff(s, stream);
    var sub := BuildSubmission(s.store, stream).value;
    var list := FilterStream(s.store.segments, stream);
    var k: nat :| IsLastSigned(list, k) && Submits(s.store, stream, list, k, sub);
    CheckpointHashSurvivesRun(s, steps, stream, k);
  }

  /** Witness binding. A store of unknown origin that confirms an honest submission holds the same
      checkpoints up to the submitted segment; or `FieldsBreak` of the two is genuine. */
  lemma {:induction false} ConfirmedSubmissionBinds(s: State, t: Store, stream: Text)
    requires StateOk(s) && BuildSubmission(s.store, stream).Ok?
    requires VerifyAgainstWitness(t, BuildSubmission(s.store, stream).value).Ok?
    requires var id := BuildSubmission(s.store, stream).value.segmentId;
      FieldsInRange(s.store, stream, id) && FieldsInRange(t, stream, id)
    ensures var id := BuildSubmission(s.store, stream).value.segmentId;
      && ComputeFields(s.store, stream, id).Ok? && ComputeFields(t, stream, id).Ok?
      && (FieldsUpTo(t, stream, id) == FieldsUpTo(s.store, stream, id)
          || FieldsBreak(FieldsUpTo(t, stream, id), FieldsUpTo(s.store, stream, id)).Genuine())
  {
    hide StateOk, ComputeCheckpointHash, ComputeFields, FieldsUpTo, FieldsBreak, CheckpointInRange, FilterStream,
         BuildSubmission, Hex;
    SubmissionIsBuiltIff(s, stream);
    var id := BuildSubmission(s.store, stream).value.segmentId;
    var list := FilterStream(s.store.segments, stream);
    var k: nat :| IsLastSigned(list, k) && Submits(s.store, stream, list, k, BuildSubmission(s.store, stream).value);
    HashNeedsFields(s.store, stream, id);
    HashNeedsFields(t, stream, id);
    HexIsInjective(ComputeCheckpointHash(s.store, stream, id).value, ComputeCheckpointHash(t, stream, id).value);
    CheckpointHashBinds(t, stream, id, s.store, stream, id);
  }
}
