/** Inclusion proofs in every reachable state, and after any further run. */
module InclusionTheorems {
  import opened Basics
  import opened Records
  import opened Tables
  import opened MerkleSpec
  import opened Merkle
  import opened Crypto
  import opened Checkpoints
  import opened HeadFiles
  import opened Engine
  import opened Invariants
  import opened Preservation
  import opened Runs
  import opened SegmentTheorems

  // ----- Finding the segment of a seqno -----

  lemma {:induction false} SegmentForSeqnoFinds(leaves: seq<SegmentEntry>, seqno: nat)
    ensures SegmentForSeqno(leaves, seqno).Some? ==>
      exists i :: 0 <= i < |leaves| && leaves[i].seqno == seqno
        && leaves[i].segmentId == SegmentForSeqno(leaves, seqno).value
    ensures SegmentForSeqno(leaves, seqno).None? ==> forall i | 0 <= i < |leaves| :: leaves[i].seqno != seqno
  {
    if leaves != [] && leaves[0].seqno != seqno {
      SegmentForSeqnoFinds(leaves[1..], seqno);
      if SegmentForSeqno(leaves, seqno).Some? {
        var i :| 0 <= i < |leaves[1..]| && leaves[1..][i].seqno == seqno
          && leaves[1..][i].segmentId == SegmentForSeqno(leaves, seqno).value;
        assert leaves[i + 1] == leaves[1..][i];
      } else {
        assert forall i | 1 <= i < |leaves| :: leaves[i] == leaves[1..][i - 1];
      }
    } else if leaves != [] {
      assert leaves[0].segmentId == SegmentForSeqno(leaves, seqno).value;
    }
  }

  lemma {:induction false} FilterSegmentMembers(leaves: seq<SegmentEntry>, id: nat, e: SegmentEntry)
    ensures e in FilterSegment(leaves, id) <==> e in leaves && e.segmentId == id
  {
    if leaves != [] {
      FilterSegmentMembers(Front(leaves), id, e);
      assert leaves == Front(leaves) + [Last(leaves)];
    }
  }

  /** A leaf record of a segment belongs to a row of the segment's stream, within its bounds. */
  lemma {:induction false} LeafBelongsToItsSegment(s: State, i: nat)
    requires StateOk(s) && i < |s.store.segmentEntries|
    ensures var e := s.store.segmentEntries[i];
      && 1 <= e.segmentId <= |s.store.segments|
      && var seg := s.store.segments[e.segmentId - 1];
         && 1 <= e.seqno <= |s.store.entries| && s.store.entries[e.seqno - 1].streamId == seg.streamId
         && seg.seqStart <= e.seqno <= seg.seqEnd
  {
    hide FilterStream, FilterSegment, FilterRange, SegmentOk, SignatureOk, ChainValid, HeadsOk;
    var t := s.store;
    var e := t.segmentEntries[i];
    SegmentIsListed(t, e.segmentId);
    var stream := t.segments[e.segmentId - 1].streamId;
    var list := FilterStream(t.segments, stream);
    var k := Position(list, e.segmentId);
    assert StreamOk(t, stream);
    OneOfList(t.entries, t.segmentEntries, stream, list, k);
    FilterSegmentMembers(t.segmentEntries, e.segmentId, e);
    LeafHasRow(t, stream, list, k, e);
  }

  lemma {:induction false} LeafHasRow(t: Store, stream: Text, list: seq<SegmentRow>, k: nat, e: SegmentEntry)
    requires Dense(t.entries) && k < |list| && SegmentOk(t.entries, t.segmentEntries, stream, list, k)
    requires e in FilterSegment(t.segmentEntries, list[k].segmentId)
    ensures 1 <= e.seqno <= |t.entries| && t.entries[e.seqno - 1].streamId == stream
    ensures list[k].seqStart <= e.seqno <= list[k].seqEnd
  {
    hide FilterSegment, FilterRange, LeafHashes, CheckpointFold;
    var rows := SegmentRows(t.entries, stream, list, k);
    var j :| 0 <= j < |rows| && LeafEntries(list[k].segmentId, rows)[j] == e;
    DenseFilterIsSorted(t.entries, stream, SegmentFrom(list, k), list[k].seqEnd);
    RowsWithinBounds(t.entries, t.segmentEntries, stream, list, k, rows[j]);
  }

  lemma {:induction false} RowHasLeaf(t: Store, stream: Text, list: seq<SegmentRow>, k: nat, r: Row)
    requires k < |list| && SegmentOk(t.entries, t.segmentEntries, stream, list, k)
    requires r in SegmentRows(t.entries, stream, list, k)
    ensures exists i :: 0 <= i < |t.segmentEntries| && t.segmentEntries[i].seqno == r.seqno
  {
    hide FilterSegment, FilterRange, LeafHashes, CheckpointFold;
    var rows := SegmentRows(t.entries, stream, list, k);
    var j :| 0 <= j < |rows| && rows[j] == r;
    var e := LeafEntries(list[k].segmentId, rows)[j];
    FilterSegmentMembers(t.segmentEntries, list[k].segmentId, e);
    assert e in t.segmentEntries && e.seqno == r.seqno;
  }

  /** The seqno lookup finds the covering segment, and finds one exactly for covered seqnos. */
  lemma {:induction false} LookupFindsCover(s: State, seqno: nat)
    requires StateOk(s) && 1 <= seqno <= |s.store.entries|
    ensures var stream := s.store.entries[seqno - 1].streamId;
      match SegmentForSeqno(s.store.segmentEntries, seqno)
      case None => seqno > CoveredTo(s.store, stream)
      case Some(id) =>
        && seqno <= CoveredTo(s.store, stream)
        && var list := FilterStream(s.store.segments, stream);
           var k := Position(list, id);
           k < |list| && list[k].seqStart <= seqno <= list[k].seqEnd
  {
    hide StateOk, FilterStream, SegmentForSeqno, CoveredTo;
    SegmentForSeqnoFinds(s.store.segmentEntries, seqno);
    if SegmentForSeqno(s.store.segmentEntries, seqno).Some? {
      var id := SegmentForSeqno(s.store.segmentEntries, seqno).value;
      var i :| 0 <= i < |s.store.segmentEntries| && s.store.segmentEntries[i].seqno == seqno
        && s.store.segmentEntries[i].segmentId == id;
      LeafIsOfCover(s, seqno, i);
    } else {
      CoveredHasLeaf(s, seqno);
    }
  }

  /** A leaf record of a seqno names a segment that covers it. */
  lemma {:induction false} LeafIsOfCover(s: State, seqno: nat, i: nat)
    requires StateOk(s) && 1 <= seqno <= |s.store.entries|
    requires i < |s.store.segmentEntries| && s.store.segmentEntries[i].seqno == seqno
    ensures var stream := s.store.entries[seqno - 1].streamId;
      var list := FilterStream(s.store.segments, stream);
      var k := Position(list, s.store.segmentEntries[i].segmentId);
      && seqno <= CoveredTo(s.store, stream)
      && k < |list| && list[k].seqStart <= seqno <= list[k].seqEnd
  {
    hide StoreOk, HeadsOk, FilterStream, CoveredTo, SegmentGet, CheckpointFold, ComputeCheckpointHash;
    LeafBelongsToItsSegment(s, i);
    SegmentIsListed(s.store, s.store.segmentEntries[i].segmentId);
    CoveredByExactlyOne(s, seqno);
  }

  /** A covered seqno has a leaf record. */
  lemma {:induction false} CoveredHasLeaf(s: State, seqno: nat)
    requires StateOk(s) && 1 <= seqno <= |s.store.entries|
    ensures seqno <= CoveredTo(s.store, s.store.entries[seqno - 1].streamId) ==>
      exists i :: 0 <= i < |s.store.segmentEntries| && s.store.segmentEntries[i].seqno == seqno
  {
    hide FilterStream, SegmentOk, SignatureOk, ChainValid, HeadsOk;
    var t := s.store;
    var stream := t.entries[seqno - 1].streamId;
    var list := FilterStream(t.segments, stream);
    assert StreamOk(t, stream);
    if seqno <= CoveredTo(t, stream) {
      var k := CoveringSegment(t.entries, t.segmentEntries, stream, list, |list|, seqno);
      OneOfList(t.entries, t.segmentEntries, stream, list, k);
      RowHasLeaf(t, stream, list, k, t.entries[seqno - 1]);
    }
  }

  // ----- The proof -----

  lemma {:induction false} LeavesOfRows(entries: seq<Row>, seqnos: seq<nat>, rows: seq<Row>)
    requires |seqnos| == |rows| && LeafHashes(rows).Ok?
    requires forall j | 0 <= j < |rows| :: Get(entries, seqnos[j]) == Some(rows[j])
    ensures LeavesOf(entries, seqnos) == LeafHashes(rows)
  {
    hide Get;
    if rows != [] {
      LeavesOfRows(entries, Front(seqnos), Front(rows));
      assert Get(entries, seqnos[|rows| - 1]) == Some(rows[|rows| - 1]);
    }
  }

  lemma {:induction false} LastIndexOfDistinct(seqnos: seq<nat>, j: nat)
    requires j < |seqnos| && forall i, k | 0 <= i < k < |seqnos| :: seqnos[i] < seqnos[k]
    ensures LastIndexOf(seqnos, seqnos[j]) == Some(j)
  {
    if j < |seqnos| - 1 {
      assert seqnos[j] < seqnos[|seqnos| - 1];
      LastIndexOfDistinct(Front(seqnos), j);
    }
  }

  lemma {:induction false} RangeRowsAreStored(entries: seq<Row>, stream: Text, from: nat, to: nat)
    requires Dense(entries)
    ensures forall j | 0 <= j < |Range(entries, stream, from, to)| ::
      Get(entries, Range(entries, stream, from, to)[j].seqno) == Some(Range(entries, stream, from, to)[j])
    ensures forall i, j | 0 <= i < j < |Range(entries, stream, from, to)| ::
      Range(entries, stream, from, to)[i].seqno < Range(entries, stream, from, to)[j].seqno
  {
    hide Range, FilterRange, Get;
    DenseRange(entries, stream, from, to);
    DenseFilterIsSorted(entries, stream, from, to);
    forall j | 0 <= j < |Range(entries, stream, from, to)|
      ensures Get(entries, Range(entries, stream, from, to)[j].seqno) == Some(Range(entries, stream, from, to)[j])
    {
      DenseGet(entries, 0, Range(entries, stream, from, to)[j].seqno);
    }
  }

  /** The proof `inclusion_proof` returns for the row with index j of a segment. */
  function HonestProof(seg: SegmentRow, rows: seq<Row>, leaves: seq<Digest>, j: nat): InclusionProof
    requires j < |rows| == |leaves|
  {
    InclusionProof(rows[j].seqno, leaves[j], seg.segmentId, MTH(leaves), Path(j, leaves))
  }

  lemma {:induction false} ProofOfRow(s: State, stream: Text, k: nat, j: nat)
    requires StateOk(s) && k < |FilterStream(s.store.segments, stream)|
    requires var seg := FilterStream(s.store.segments, stream)[k];
      && j < |Range(s.store.entries, stream, seg.seqStart, seg.seqEnd)|
      && SegmentForSeqno(s.store.segmentEntries, Range(s.store.entries, stream, seg.seqStart, seg.seqEnd)[j].seqno)
        == Some(seg.segmentId)
    ensures var seg := FilterStream(s.store.segments, stream)[k];
      var rows := Range(s.store.entries, stream, seg.seqStart, seg.seqEnd);
      && LeafHashes(rows).Ok?
      && ProveInclusion(s.store, rows[j].seqno) == Ok(HonestProof(seg, rows, LeafHashes(rows).value, j))
      && seg.merkleRoot == MTH(LeafHashes(rows).value)
  {
    hide FilterStream, Range, LeafHashes, MTH, Path, EntrySeqnos, SegmentForSeqno, LeavesOf, LastIndexOf, StoreOk,
         HeadsOk, Get;
    var t := s.store;
    var seg := FilterStream(t.segments, stream)[k];
    var rows := Range(t.entries, stream, seg.seqStart, seg.seqEnd);
    SegmentDescribesRows(s, stream, k);
    assert Dense(t.entries) by { DenseOfState(s); }
    RangeRowsAreStored(t.entries, stream, seg.seqStart, seg.seqEnd);
    var seqnos := EntrySeqnos(t.segmentEntries, seg.segmentId);
    LeavesOfRows(t.entries, seqnos, rows);
    LastIndexOfDistinct(seqnos, j);
  }

  lemma DenseOfState(s: State)
    requires StateOk(s)
    ensures Dense(s.store.entries) && IdsDense(s.store)
  {
  }

  /** In every reachable state `inclusion_proof` succeeds exactly for the covered seqnos, and then
      names the covering segment, carries the stored entry hash, and verifies against the root that
      was stored when the segment was closed. */
  lemma {:induction false} InclusionProofVerifies(s: State, seqno: nat)
    requires StateOk(s) && 1 <= seqno <= |s.store.entries|
    ensures var row := s.store.entries[seqno - 1];
      && (ProveInclusion(s.store, seqno).Ok? <==> seqno <= CoveredTo(s.store, row.streamId))
      && (ProveInclusion(s.store, seqno).Ok? ==>
           var proof := ProveInclusion(s.store, seqno).value;
           && proof.seqno == seqno && proof.entryHash == row.entryHash
           && 1 <= proof.segmentId <= |s.store.segments|
           && var seg := s.store.segments[proof.segmentId - 1];
              && seg.streamId == row.streamId && seg.seqStart <= seqno <= seg.seqEnd
              && |seg.merkleRoot| == HASH_LEN && proof.merkleRoot == seg.merkleRoot
              && InclusionVerdict(proof, seg.merkleRoot) == Ok(()))
  {
    hide FilterStream, Range, LeafHashes, MTH, Path, SegmentForSeqno, StoreOk, HeadsOk, CoveredTo, FoldPath,
         FilterSegment, EntrySeqnos, LeafEntries;
    var t := s.store;
    var row := t.entries[seqno - 1];
    LookupFindsCover(s, seqno);
    if SegmentForSeqno(t.segmentEntries, seqno).Some? {
      var id := SegmentForSeqno(t.segmentEntries, seqno).value;
      var list := FilterStream(t.segments, row.streamId);
      var k := Position(list, id);
      DenseOfState(s);
      DenseFilterStream(t.segments, row.streamId);
      var rows := Range(t.entries, row.streamId, list[k].seqStart, list[k].seqEnd);
      RangeMembers(t.entries, row.streamId, list[k].seqStart, list[k].seqEnd, row);
      var j :| 0 <= j < |rows| && rows[j] == row;
      ProofOfRow(s, row.streamId, k, j);
      PathFoldsToMTH(j, LeafHashes(rows).value);
    }
  }

  // ----- Stability -----

  lemma {:induction false} GetKeeps(entries: seq<Row>, more: seq<Row>, seqno: nat)
    requires Get(entries, seqno).Some?
    ensures Get(entries + more, seqno) == Get(entries, seqno)
  {
    if entries[0].seqno != seqno {
      GetKeeps(entries[1..], more, seqno);
      assert (entries + more)[1..] == entries[1..] + more;
    }
  }

  lemma {:induction false} LeavesOfKeeps(entries: seq<Row>, more: seq<Row>, seqnos: seq<nat>)
    requires LeavesOf(entries, seqnos).Ok?
    ensures LeavesOf(entries + more, seqnos) == LeavesOf(entries, seqnos)
  {
    hide Get;
    if seqnos != [] {
      LeavesOfKeeps(entries, more, Front(seqnos));
      GetKeeps(entries, more, Last(seqnos));
    }
  }

  lemma {:induction false} SegmentForSeqnoKeeps(leaves: seq<SegmentEntry>, more: seq<SegmentEntry>, seqno: nat)
    requires SegmentForSeqno(leaves, seqno).Some?
    ensures SegmentForSeqno(leaves + more, seqno) == SegmentForSeqno(leaves, seqno)
  {
    if leaves[0].seqno != seqno {
      SegmentForSeqnoKeeps(leaves[1..], more, seqno);
      assert (leaves + more)[1..] == leaves[1..] + more;
    }
  }

  /** How one step can change the entries and the leaf records. */
  lemma {:induction false} StepGrows(s: State, step: Step) returns (more: seq<Row>, id: nat, rows: seq<Row>)
    requires StateOk(s)
    ensures Apply(s, step).store.entries == s.store.entries + more
    ensures id == |s.store.segments| + 1
    ensures Apply(s, step).store.segmentEntries == s.store.segmentEntries + LeafEntries(id, rows)
  {
    hide StateOk, AppendRow, CloseSegment, SealedDraft, UpsertStream, WithDeprecation, ResolveTier, OpenSegmentId,
         SealRow, ComputeCheckpointHash, SegmentGet, HeadUpsert, Hex, LinkHash;
    more, rows, id := [], [], |s.store.segments| + 1;
    assert s.store.entries + [] == s.store.entries && s.store.segmentEntries + [] == s.store.segmentEntries;
    StateIsStoreOk(s);
    match step
    case DoAppend(p, d) =>
      AppendRowAdds(s.store, p, d);
      if RejectIfDeprecated(s.store, d.streamId).Ok? {
        more := [SealRow(p, d, |s.store.entries| + 1, LinkHash(s.store.entries, d.streamId).value)];
      }
    case DoAppendEncrypted(p, d, nonce) =>
      if RejectIfDeprecated(s.store, d.streamId).Ok? && p.masterKey.Some? && ResolveTier(s.store, d.streamId).Ok? {
        var d' := SealedDraft(p.masterKey.value, d, ResolveTier(s.store, d.streamId).value,
                              OpenSegmentId(s.store, d.streamId), nonce);
        AppendRowAdds(s.store, p, d');
        more := [SealRow(p, d', |s.store.entries| + 1, LinkHash(s.store.entries, d'.streamId).value)];
      }
    case DoClose(stream, now) =>
      var row, closed := CloseInserts(s.store, stream, now);
      if CloseSegment(s.store, stream, now).1.Ok? {
        rows := closed;
        DenseOfState(s);
        CloseKeepsIds(s.store, row, rows);
        assert s.store.entries + [] == s.store.entries;
      }
    case DoSign(p, name, id, entropy, now) =>
    case DoCreateStream(name, tier, description, now) =>
    case DoDeprecate(name, now) =>
  }

  lemma StateIsStoreOk(s: State)
    requires StateOk(s)
    ensures StoreOk(s.store)
  {
  }

  /** A proof that exists is returned unchanged after any further step. */
  lemma {:induction false} ProofSurvivesStep(s: State, step: Step, seqno: nat)
    requires StateOk(s) && ProveInclusion(s.store, seqno).Ok?
    ensures ProveInclusion(Apply(s, step).store, seqno) == ProveInclusion(s.store, seqno)
  {
    hide StateOk, Apply, SegmentForSeqno, LeavesOf, FilterSegment, LeafEntries, LastIndexOf, MTH, Path;
    var more, newId, rows := StepGrows(s, step);
    var t := s.store;
    var id := SegmentForSeqno(t.segmentEntries, seqno).value;
    SegmentForSeqnoKeeps(t.segmentEntries, LeafEntries(newId, rows), seqno);
    SegmentForSeqnoFinds(t.segmentEntries, seqno);
    DenseOfState(s);
    OldLeavesKeep(t.segmentEntries, newId, rows, id);
    LeavesOfKeeps(t.entries, more, EntrySeqnos(t.segmentEntries, id));
  }

  /** An inclusion proof, once it exists, is the same after any further run. */
  lemma {:induction false} ProofSurvivesRun(s: State, steps: seq<Step>, seqno: nat)
    requires StateOk(s) && ProveInclusion(s.store, seqno).Ok?
    ensures ProveInclusion(Run(s, steps).store, seqno) == ProveInclusion(s.store, seqno)
  {
    hide StateOk, ProveInclusion, Apply;
    if steps != [] {
      ProofSurvivesRun(s, Front(steps), seqno);
      RunKeepsStateOk(s, Front(steps));
      ProofSurvivesStep(Run(s, Front(steps)), Last(steps), seqno);
    }
  }
}
