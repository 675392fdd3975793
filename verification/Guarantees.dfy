/** What a user of the log can rely on after any run from a fresh store, in one place. */
module Guarantees {
  import opened Basics
  import opened Tables
  import opened Merkle
  import opened Chain
  import opened Engine
  import opened Runs
  import opened ChainTheorems
  import opened SegmentTheorems
  import opened InclusionTheorems
  import opened CheckpointTheorems

  /** After any run: the entry chain of every stream verifies over every range that holds a row of
      it; the checkpoint chain verifies exactly for streams whose segments are all signed; and the
      rollback check accepts. */
  lemma {:induction false} AfterAnyRun(steps: seq<Step>, p: Process, stream: Text, from: nat, to: nat)
    ensures var s := Run(INITIAL, steps);
      var list := SegmentsList(s.store.segments, stream);
      && (VerifyChain(s.store.entries, stream, from, to).Ok?
          <==> from <= to && Range(s.store.entries, stream, from, to) != [])
      && VerifyCheckpointChain(s.store, stream)
         == (if list == [] then Err(StreamNotFound(stream))
             else if AllSigned(list) then Ok(|list|)
             else Err(Invalid(Unsigned)))
      && CheckRollback(s.store, s.heads, p, stream) == Ok(())
  {
    hide INITIAL, StateOk, Run, VerifyChain, VerifyCheckpointChain, CheckRollback, Range, SegmentsList, AllSigned;
    var s := Run(INITIAL, steps);
    ReachableStateOk(steps);
    VerifyChainAcceptsReachable(s, stream, from, to);
    StateStreamsOk(s, stream);
    CheckpointChainVerifiesIff(s, stream);
    RollbackCheckAccepts(s, p, stream);
  }

  ghost predicate IsCovered(t: Store, seqno: nat) {
    1 <= seqno <= |t.entries| && seqno <= CoveredTo(t, t.entries[seqno - 1].streamId)
  }

  /** The proof of this entry exists in the later store, is the one the earlier store gave, carries the
      entry's hash, and verifies against the root stored in the segment row of the earlier store. */
  ghost predicate ProofStands(t: Store, later: Store, seqno: nat) {
    var proof := ProveInclusion(later, seqno);
    && proof.Ok? && proof == ProveInclusion(t, seqno)
    && 1 <= seqno <= |t.entries| && proof.value.entryHash == t.entries[seqno - 1].entryHash
    && 1 <= proof.value.segmentId <= |t.segments|
    && var root := t.segments[proof.value.segmentId - 1].merkleRoot;
       |root| == HASH_LEN && InclusionVerdict(proof.value, root) == Ok(())
  }

  lemma {:induction false} ProofLasts(s: State, more: seq<Step>, seqno: nat)
    requires StateOk(s) && IsCovered(s.store, seqno)
    ensures ProofStands(s.store, Run(s, more).store, seqno)
  {
    hide StateOk, Run, CoveredTo, ProveInclusion, InclusionVerdict;
    InclusionProofVerifies(s, seqno);
    ProofSurvivesRun(s, more, seqno);
  }

  /** After any run, and any further run: an entry that was covered once has an inclusion proof, the
      same one for ever, and it verifies against the root stored in its segment's row. */
  lemma {:induction false} ProofsLast(steps: seq<Step>, more: seq<Step>, seqno: nat)
    requires IsCovered(Run(INITIAL, steps).store, seqno)
    ensures ProofStands(Run(INITIAL, steps).store, Run(Run(INITIAL, steps), more).store, seqno)
  {
    hide StateOk, Run, IsCovered, ProofStands, INITIAL;
    ReachableStateOk(steps);
    ProofLasts(Run(INITIAL, steps), more, seqno);
  }
}
