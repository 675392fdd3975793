/** From checkpoints to entries. Checkpoints commit to entries only through the two digests stored in
    the segment rows, which the checkers of checkpoints do not compare with the entries. This module
    says exactly what that leaves open, and which of the log's own checks close it. */
module RewrittenHistory {
  import opened Basics
  import opened Records
  import opened Encoder
  import opened Crypto
  import opened Tables
  import opened Chain
  import opened Checkpoints
  import opened HeadFiles
  import opened Engine
  import opened Invariants
  import opened Preservation
  import opened Runs
  import opened ChainTheorems
  import opened SegmentTheorems
  import opened InclusionTheorems
  import opened CheckpointTheorems
  import opened PayloadTheorems
  import opened OperationTheorems

  // ----- What the checkers of checkpoints see of the entries -----

  /** For every segment of the list both tables have an entry at its end, with the same boot and session. */
  ghost predicate SameEnds(a: seq<Row>, b: seq<Row>, list: seq<SegmentRow>) {
    forall i | 0 <= i < |list| :: SameEnd(a, b, list[i].seqEnd)
  }

  predicate SameEnd(a: seq<Row>, b: seq<Row>, end: nat) {
    && Get(a, end).Some? && Get(b, end).Some?
    && Get(a, end).value.bootId == Get(b, end).value.bootId
    && Get(a, end).value.sessionId == Get(b, end).value.sessionId
  }

  lemma {:induction false} FoldSeesOnlyEnds(a: seq<Row>, b: seq<Row>, list: seq<SegmentRow>)
    requires SameEnds(a, b, list)
    ensures CheckpointFold(a, list) == CheckpointFold(b, list)
  {
    hide CheckpointHash, Get;
    if list != [] {
      FoldSeesOnlyEnds(a, b, Front(list));
      assert SameEnd(a, b, list[|list| - 1].seqEnd);
    }
  }

  /** With other entries that end the segments alike, the k-th segment has the hash and the signature
      verdict it had. */
  lemma {:induction false} SegmentSeesOnlyEnds(t: Store, es: seq<Row>, stream: Text, k: nat)
    requires StoreOk(t) && k < |FilterStream(t.segments, stream)|
    requires SameEnds(es, t.entries, FilterStream(t.segments, stream)[..k + 1])
    ensures var id := FilterStream(t.segments, stream)[k].segmentId;
      && ComputeCheckpointHash(t.(entries := es), stream, id) == ComputeCheckpointHash(t, stream, id)
      && VerifySegmentSignature(t.(entries := es), id) == VerifySegmentSignature(t, id)
  {
    hide FilterStream, CheckpointFold, ComputeCheckpointHash, SegmentGet, StoreOk, SameEnds;
    var list := FilterStream(t.segments, stream);
    StoreIdsDense(t);
    DenseSegmentsList(t, stream);
    ListIsIndexed(t.segments, stream, k);
    RecursionIsFold(t, stream, k);
    RecursionIsFold(t.(entries := es), stream, k);
    FoldSeesOnlyEnds(es, t.entries, list[..k + 1]);
  }

  lemma {:induction false} CheckSegmentsSeesOnlyEnds(t: Store, es: seq<Row>, stream: Text, k: nat)
    requires StoreOk(t) && k <= |FilterStream(t.segments, stream)|
    requires SameEnds(es, t.entries, FilterStream(t.segments, stream))
    ensures CheckSegments(t.(entries := es), FilterStream(t.segments, stream)[..k])
      == CheckSegments(t, FilterStream(t.segments, stream)[..k])
  {
    hide FilterStream, CheckSegments, StoreOk, VerifySegmentSignature, ComputeCheckpointHash, SameEnd;
    var list := FilterStream(t.segments, stream);
    if k == 0 {
      assert list[..0] == [];
      EmptyCheck(t);
      EmptyCheck(t.(entries := es));
    } else {
      CheckSegmentsSeesOnlyEnds(t, es, stream, k - 1);
      CheckSegmentsUnfolds(t, list, k - 1);
      CheckSegmentsUnfolds(t.(entries := es), list, k - 1);
      SegmentSeesOnlyEnds(t, es, stream, k - 1);
    }
  }

  /** `verify_checkpoint_chain` answers the same for any entries that end the segments alike. */
  lemma {:induction false} CheckpointChainSeesOnlyEnds(s: State, es: seq<Row>, stream: Text)
    requires StateOk(s) && SameEnds(es, s.store.entries, FilterStream(s.store.segments, stream))
    ensures VerifyCheckpointChain(s.store.(entries := es), stream) == VerifyCheckpointChain(s.store, stream)
  {
    hide FilterStream, CheckSegments, StoreOk, HeadsOk, SegmentsList, SameEnds;
    var list := FilterStream(s.store.segments, stream);
    StoreIdsDense(s.store);
    DenseSegmentsList(s.store, stream);
    CheckSegmentsSeesOnlyEnds(s.store, es, stream, |list|);
    assert list[..|list|] == list;
  }

  /** The list of the stream up to the recorded segment. */
  function RecordedList(s: State, stream: Text): seq<SegmentRow> {
    var list := FilterStream(s.store.segments, stream);
    if HeadGet(s.heads, stream).None? then []
    else
      var k := Position(list, HeadGet(s.heads, stream).value.segmentId);
      if k < |list| then list[..k + 1] else list
  }

  lemma {:induction false} RecordedListEnds(s: State, stream: Text) returns (k: nat)
    requires StateOk(s) && HeadGet(s.heads, stream).Some?
    ensures var list := FilterStream(s.store.segments, stream);
      && k < |list| && RecordedList(s, stream) == list[..k + 1]
      && list[k].segmentId == HeadGet(s.heads, stream).value.segmentId
      && list[k].seqEnd == HeadGet(s.heads, stream).value.seqEnd
  {
    hide FilterStream, StoreOk, CheckpointFold, Hex;
    HeadGetIsOfStream(s.heads, stream);
    assert RecordOk(s.store, HeadGet(s.heads, stream).value);
    k := Position(FilterStream(s.store.segments, stream), HeadGet(s.heads, stream).value.segmentId);
  }

  /** The rollback check accepts any entries that end the recorded segments alike, whatever else they
      hold. */
  lemma {:induction false} RollbackSeesOnlyEnds(s: State, es: seq<Row>, p: Process, stream: Text)
    requires StateOk(s) && SameEnds(es, s.store.entries, RecordedList(s, stream))
    ensures CheckRollback(s.store.(entries := es), s.heads, p, stream) == Ok(())
  {
    hide StateOk, FilterStream, ComputeCheckpointHash, VerifySegmentSignature, StoredHash, SegmentsList, HeadGet,
         SameEnds, RecordedList;
    StateStreamsOk(s, stream);
    RollbackCheckAccepts(s, p, stream);
    if p.tracksHeads && HeadGet(s.heads, stream).Some? {
      var k := RecordedListEnds(s, stream);
      StateIsStoreOk(s);
      SegmentSeesOnlyEnds(s.store, es, stream, k);
    }
  }

  // ----- The exact condition of the rollback check -----

  /** The fields up to the k-th segment are those of the segments one by one. */
  lemma {:induction false} FieldsUpToAt(t: Store, stream: Text, k: nat, i: nat)
    requires UniqueSegmentIds(t.segments) && i <= k < |SegmentsList(t.segments, stream)|
    requires ComputeFields(t, stream, SegmentsList(t.segments, stream)[k].segmentId).Ok?
    ensures var list := SegmentsList(t.segments, stream);
      && |FieldsUpTo(t, stream, list[k].segmentId)| == k + 1
      && ComputeFields(t, stream, list[i].segmentId) == Ok(FieldsUpTo(t, stream, list[k].segmentId)[i])
  {
    hide ComputeFields, SegmentsList;
    ListIsIndexed(t.segments, stream, k);
    if k > 0 {
      PredecessorComputes(t, stream, SegmentsList(t.segments, stream)[k].segmentId);
      FieldsUpToAt(t, stream, k - 1, if i < k then i else k - 1);
    }
  }

  lemma {:induction false} FieldsNameEnds(t: Store, stream: Text, k: nat)
    requires UniqueSegmentIds(t.segments) && k < |SegmentsList(t.segments, stream)|
    requires ComputeFields(t, stream, SegmentsList(t.segments, stream)[k].segmentId).Ok?
    ensures var row := SegmentsList(t.segments, stream)[k];
      var f := ComputeFields(t, stream, row.segmentId).value;
      && Get(t.entries, row.seqEnd).Some?
      && f.bootId == Get(t.entries, row.seqEnd).value.bootId
      && f.sessionId == Get(t.entries, row.seqEnd).value.sessionId
  {
    hide SegmentsList, SegmentGet, PreviousCheckpointHash, Get;
    ListIsIndexed(t.segments, stream, k);
  }

  lemma {:induction false} EqualFieldsEqualEnds(t: Store, es: seq<Row>, stream: Text, k: nat)
    requires UniqueSegmentIds(t.segments) && k < |SegmentsList(t.segments, stream)|
    requires var id := SegmentsList(t.segments, stream)[k].segmentId;
      && ComputeFields(t, stream, id).Ok? && ComputeFields(t.(entries := es), stream, id).Ok?
      && FieldsUpTo(t, stream, id) == FieldsUpTo(t.(entries := es), stream, id)
    ensures SameEnds(es, t.entries, SegmentsList(t.segments, stream)[..k + 1])
  {
    hide SegmentsList, ComputeFields, FieldsUpTo, Get;
    var recorded := SegmentsList(t.segments, stream)[..k + 1];
    forall i | 0 <= i < |recorded| ensures SameEnd(es, t.entries, recorded[i].seqEnd) {
      FieldsUpToAt(t, stream, k, i);
      FieldsUpToAt(t.(entries := es), stream, k, i);
      FieldsNameEnds(t, stream, i);
      FieldsNameEnds(t.(entries := es), stream, i);
    }
  }

  /** Put any entries under the segments of a reachable state. With a record in the head file, the
      rollback check accepts them exactly when they end the recorded segments with entries of the
      same boot and session, or `FieldsBreak` of the two stores is genuine. It sees nothing else of the
      entries. */
  lemma {:induction false} RollbackAcceptsEntriesIff(s: State, es: seq<Row>, p: Process, stream: Text)
    requires StateOk(s) && p.tracksHeads && HeadGet(s.heads, stream).Some?
    requires FieldsInRange(s.store, stream, HeadGet(s.heads, stream).value.segmentId)
    requires FieldsInRange(s.store.(entries := es), stream, HeadGet(s.heads, stream).value.segmentId)
    ensures SameEnds(es, s.store.entries, RecordedList(s, stream)) ==>
      CheckRollback(s.store.(entries := es), s.heads, p, stream) == Ok(())
    ensures CheckRollback(s.store.(entries := es), s.heads, p, stream).Ok? ==>
      var id := HeadGet(s.heads, stream).value.segmentId;
      && ComputeFields(s.store, stream, id).Ok? && ComputeFields(s.store.(entries := es), stream, id).Ok?
      && (SameEnds(es, s.store.entries, RecordedList(s, stream))
          || FieldsBreak(FieldsUpTo(s.store.(entries := es), stream, id), FieldsUpTo(s.store, stream, id)).Genuine())
  {
    hide StateOk, FilterStream, ComputeFields, FieldsUpTo, FieldsBreak, SegmentsList, HeadGet, SameEnds, RecordedList,
         CheckRollback, CheckpointInRange;
    var t := s.store.(entries := es);
    if SameEnds(es, s.store.entries, RecordedList(s, stream)) {
      RollbackSeesOnlyEnds(s, es, p, stream);
    }
    if CheckRollback(t, s.heads, p, stream).Ok? {
      RollbackCheckBinds(s, t, s.heads, p, stream);
      var id := HeadGet(s.heads, stream).value.segmentId;
      if FieldsUpTo(t, stream, id) == FieldsUpTo(s.store, stream, id) {
        var k := RecordedListEnds(s, stream);
        DenseOfState(s);
        DenseSegmentsList(s.store, stream);
        EqualFieldsEqualEnds(s.store, es, stream, k);
      }
    }
  }

  // ----- What passes all checks of chains and checkpoints -----

  /** Any entries with dense seqnos and valid chains that end the segments alike pass `verify_chain` on
      every range with rows, and the checks of checkpoints answer as they did. */
  lemma {:induction false} RewrittenEntriesPass(s: State, es: seq<Row>, p: Process, stream: Text, from: nat, to: nat)
    requires StateOk(s) && Dense(es) && ChainValid(es, stream)
    requires SameEnds(es, s.store.entries, FilterStream(s.store.segments, stream))
    ensures VerifyChain(es, stream, from, to).Ok? <==> from <= to && Range(es, stream, from, to) != []
    ensures VerifyCheckpointChain(s.store.(entries := es), stream) == VerifyCheckpointChain(s.store, stream)
    ensures CheckRollback(s.store.(entries := es), s.heads, p, stream) == Ok(())
  {
    hide StateOk, FilterStream, VerifyChain, VerifyCheckpointChain, CheckRollback, Range, SameEnd, ChainValid;
    DenseChainAccepts(es, stream, from, to);
    CheckpointChainSeesOnlyEnds(s, es, stream);
    RecordedIsPrefix(s, stream);
    var list := FilterStream(s.store.segments, stream);
    assert forall i | 0 <= i < |RecordedList(s, stream)| :: RecordedList(s, stream)[i] == list[i];
    RollbackSeesOnlyEnds(s, es, p, stream);
  }

  lemma {:induction false} RecordedIsPrefix(s: State, stream: Text)
    ensures RecordedList(s, stream) <= FilterStream(s.store.segments, stream)
  {
    hide FilterStream;
  }

  lemma {:induction false} DenseSameEnd(a: seq<Row>, b: seq<Row>, end: nat)
    requires Dense(a) && Dense(b) && 1 <= end <= |a| && end <= |b|
    requires a[end - 1].bootId == b[end - 1].bootId && a[end - 1].sessionId == b[end - 1].sessionId
    ensures SameEnd(a, b, end)
  {
    DenseGet(a, 0, end);
    DenseGet(b, 0, end);
  }

  /** Where the segments of a stream end in a reachable state. */
  lemma {:induction false} EndsInBounds(s: State, stream: Text)
    requires StateOk(s)
    ensures forall i | 0 <= i < |FilterStream(s.store.segments, stream)| ::
      1 <= FilterStream(s.store.segments, stream)[i].seqEnd <= |s.store.entries|
  {
    hide SegmentOk, SignatureOk, FilterStream, ChainValid, HeadsOk;
    var list := FilterStream(s.store.segments, stream);
    assert StreamOk(s.store, stream);
    forall i | 0 <= i < |list| ensures 1 <= list[i].seqEnd <= |s.store.entries| {
      OneOfList(s.store.entries, s.store.segmentEntries, stream, list, i);
      SegmentEndsAtARow(s.store.entries, s.store.segmentEntries, stream, list, i);
    }
  }

  lemma {:induction false} StreamRowsJoin(a: seq<Row>, b: seq<Row>, stream: Text)
    ensures StreamRows(a + b, stream) == StreamRows(a, stream) + StreamRows(b, stream)
  {
    if b == [] {
      assert a + b == a;
    } else {
      assert Front(a + b) == a + Front(b) && Last(a + b) == Last(b);
      StreamRowsJoin(a, Front(b), stream);
    }
  }

  lemma {:induction false} PrefixIsValid(entries: seq<Row>, n: nat, stream: Text)
    requires n <= |entries| && ChainValid(entries, stream)
    ensures ChainValid(entries[..n], stream)
  {
    hide CheckRows, StreamRows;
    assert entries == entries[..n] + entries[n..];
    StreamRowsJoin(entries[..n], entries[n..], stream);
    CheckRowsComposes(StreamRows(entries[..n], stream), StreamRows(entries[n..], stream), ZERO_HASH);
  }

  /** The last entry of a reachable store with other contents: sealed again over the tip before it. */
  function RewriteLast(entries: seq<Row>, p: Process, d: Draft): seq<Row>
    requires entries != [] && LinkHash(Front(entries), d.streamId).Ok?
  {
    Front(entries) + [SealRow(p, d, |entries|, LinkHash(Front(entries), d.streamId).value)]
  }

  lemma {:induction false} RewriteLastIsValid(entries: seq<Row>, p: Process, d: Draft, stream: Text)
    requires entries != [] && Dense(entries) && ChainValid(entries, stream) && ChainValid(entries, d.streamId)
    ensures LinkHash(Front(entries), d.streamId).Ok?
    ensures Dense(RewriteLast(entries, p, d)) && ChainValid(RewriteLast(entries, p, d), stream)
  {
    hide CheckRows, StreamRows, LinkHash, SealRow, RowHash, ChainValid;
    var front := Front(entries);
    PrefixIsValid(entries, |entries| - 1, stream);
    PrefixIsValid(entries, |entries| - 1, d.streamId);
    LinkIsTip(front, d.streamId);
    TipOfValid(front, d.streamId);
    var link := LinkHash(front, d.streamId).value;
    var r := SealRow(p, d, |entries|, link);
    SealedRowHashes(p, d, |entries|, link);
    ChainGrowsIff(front, r, stream);
  }

  lemma TipOfValid(entries: seq<Row>, stream: Text)
    requires ChainValid(entries, stream)
    ensures CheckRows(StreamRows(entries, stream), ZERO_HASH).Ok?
  {
  }

  /** The last entry of any reachable store, covered and signed or not, can be replaced by one with any
      other contents of the same stream, boot and session: the entry chain, the checkpoint chain and
      the rollback check of every stream pass as before. */
  lemma {:induction false} RewrittenLastEntryPasses(s: State, p: Process, d: Draft, p': Process, stream: Text,
          from: nat, to: nat)
    requires StateOk(s) && s.store.entries != [] && d.streamId == Last(s.store.entries).streamId
    requires p.bootId == Last(s.store.entries).bootId && p.sessionId == Last(s.store.entries).sessionId
    ensures LinkHash(Front(s.store.entries), d.streamId).Ok?
    ensures var es := RewriteLast(s.store.entries, p, d);
      && (VerifyChain(es, stream, from, to).Ok? <==> from <= to && Range(es, stream, from, to) != [])
      && VerifyCheckpointChain(s.store.(entries := es), stream) == VerifyCheckpointChain(s.store, stream)
      && CheckRollback(s.store.(entries := es), s.heads, p', stream) == Ok(())
  {
    hide FilterStream, VerifyChain, VerifyCheckpointChain, CheckRollback, Range, SameEnd, ChainValid, LinkHash,
         SealRow, StreamOk, HeadsOk;
    var entries := s.store.entries;
    assert ChainValid(entries, stream) && ChainValid(entries, d.streamId);
    RewriteLastIsValid(entries, p, d, stream);
    var es := RewriteLast(entries, p, d);
    RewriteKeepsEnds(entries, p, d);
    EndsInBounds(s, stream);
    var list := FilterStream(s.store.segments, stream);
    forall i | 0 <= i < |list| ensures SameEnd(es, entries, list[i].seqEnd) {
      DenseSameEnd(es, entries, list[i].seqEnd);
    }
    RewrittenEntriesPass(s, es, p', stream, from, to);
  }

  lemma {:induction false} RewriteKeepsEnds(entries: seq<Row>, p: Process, d: Draft)
    requires entries != [] && LinkHash(Front(entries), d.streamId).Ok?
    requires p.bootId == Last(entries).bootId && p.sessionId == Last(entries).sessionId
    ensures var es := RewriteLast(entries, p, d);
      |es| == |entries| && forall i | 0 <= i < |es| ::
        es[i].bootId == entries[i].bootId && es[i].sessionId == entries[i].sessionId
  {
    hide RowHash, LinkHash;
  }

  /** A concrete case: append, close, sign; then replace the one entry's payload. */
  function ClosedOnce(p: Process, d: Draft, now: Text): State {
    Run(INITIAL, [DoAppend(p, d), DoClose(d.streamId, now)])
  }

  function SignedOnce(p: Process, d: Draft, name: Text, entropy: Bytes, now: Text): State {
    Apply(ClosedOnce(p, d, now), DoSign(p, name, 1, entropy, now))
  }

  /** Whenever signing succeeded, and with a head file: the log has one segment, signed and recorded, the
      other payload's entry chain verifies, its checkpoint chain counts one signed segment as before, and
      the rollback check against the record accepts it. */
  lemma {:induction false} RewrittenPayloadPasses(p: Process, d: Draft, payload: Bytes, name: Text, entropy: Bytes,
          now: Text)
    requires payload != d.payload && p.tracksHeads
    requires var closed := ClosedOnce(p, d, now);
      SignSegment(closed.store, closed.heads, p, name, 1, entropy, now).2.Ok?
    ensures var s := SignedOnce(p, d, name, entropy, now);
      var es := [SealRow(p, d.(payload := payload), 1, ZERO_HASH)];
      && s.store.entries == [SealRow(p, d, 1, ZERO_HASH)] && es != s.store.entries
      && HeadGet(s.heads, d.streamId).Some? && HeadGet(s.heads, d.streamId).value.segmentId == 1
      && VerifyCheckpointChain(s.store, d.streamId) == Ok(1)
      && VerifyChain(es, d.streamId, 1, 1).Ok?
      && VerifyCheckpointChain(s.store.(entries := es), d.streamId) == Ok(1)
      && CheckRollback(s.store.(entries := es), s.heads, p, d.streamId) == Ok(())
  {
    hide StateOk, VerifyChain, VerifyCheckpointChain, CheckRollback, Range, Apply, Run, INITIAL, SealRow, LinkHash,
         FilterStream, HeadGet;
    var s := SignedOnce(p, d, name, entropy, now);
    var stream := d.streamId;
    var es := [SealRow(p, d.(payload := payload), 1, ZERO_HASH)];
    SignedOnceIs(p, d, name, entropy, now);
    SignedOnceIsRecorded(p, d, name, entropy, now);
    SealedRowHashes(p, d, 1, ZERO_HASH);
    SealedRowHashes(p, d.(payload := payload), 1, ZERO_HASH);
    SealedProcess(p, d, 1, ZERO_HASH);
    NoLink(stream);
    assert Front(s.store.entries) == [];
    assert RewriteLast(s.store.entries, p, d.(payload := payload)) == es;
    RewrittenLastEntryPasses(s, p, d.(payload := payload), p, stream, 1, 1);
    RangeMembers(es, stream, 1, 1, es[0]);
  }

  lemma {:induction false} SignedOnceIsRecorded(p: Process, d: Draft, name: Text, entropy: Bytes, now: Text)
    requires p.tracksHeads
    requires var closed := ClosedOnce(p, d, now);
      SignSegment(closed.store, closed.heads, p, name, 1, entropy, now).2.Ok?
    ensures var s := SignedOnce(p, d, name, entropy, now);
      && HeadGet(s.heads, d.streamId).Some? && HeadGet(s.heads, d.streamId).value.segmentId == 1
      && VerifyCheckpointChain(s.store, d.streamId) == Ok(1)
  {
    hide StateOk, VerifyCheckpointChain, VerifySegmentSignature, Run, INITIAL, FilterStream, HeadGet, SegmentGet,
         SignSegment, Hex, SegmentsList;
    var closed := ClosedOnce(p, d, now);
    var s := SignedOnce(p, d, name, entropy, now);
    SignedOnceIs(p, d, name, entropy, now);
    SignedSegmentVerifies(closed, p, name, 1, entropy, now);
    StateStreamsOk(s, d.streamId);
    CheckpointChainVerifiesIff(s, d.streamId);
    DenseOfState(s);
    DenseSegmentsList(s.store, d.streamId);
    DenseFilterStream(s.store.segments, d.streamId);
    DenseSegmentGet(s.store.segments, 0, 1);
    var list := FilterStream(s.store.segments, d.streamId);
    assert list[0] == s.store.segments[0];
  }

  lemma NoLink(stream: Text)
    ensures LinkHash([], stream) == Ok(ZERO_HASH)
  {
  }

  lemma {:induction false} SealedProcess(p: Process, d: Draft, seqno: nat, prev: Digest)
    ensures SealRow(p, d, seqno, prev).bootId == p.bootId && SealRow(p, d, seqno, prev).sessionId == p.sessionId
  {
    hide RowHash;
  }

  lemma {:induction false} SignedOnceIs(p: Process, d: Draft, name: Text, entropy: Bytes, now: Text)
    ensures StateOk(ClosedOnce(p, d, now))
    ensures var s := SignedOnce(p, d, name, entropy, now);
      && StateOk(s) && s.store.entries == [SealRow(p, d, 1, ZERO_HASH)]
      && |s.store.segments| == 1 && |FilterStream(s.store.segments, d.streamId)| == 1
  {
    hide StateOk, Apply, INITIAL, SealRow, LinkHash, RejectIfDeprecated, FilterStream, SameButSignatures;
    var stream := d.streamId;
    InitialStateOk();
    InitialStreams(stream);
    NoEntriesYet();
    NoLink(stream);
    var s1 := Apply(INITIAL, DoAppend(p, d));
    var s2 := Apply(s1, DoClose(stream, now));
    AppendAddsOne(INITIAL, p, d);
    FirstAppend(p, d);
    NoListYet(s1.store, stream);
    SealedRowHashes(p, d, 1, ZERO_HASH);
    CloseAddsOne(s1, stream, now, 1);
    ApplyClose(s1, stream, now);
    CloseExtendsList(s1, stream, now, stream);
    RunTwo(INITIAL, DoAppend(p, d), DoClose(stream, now));
    SignKeepsEntries(s2, p, name, 1, entropy, now, stream);
    ApplyKeepsStateOk(s2, DoSign(p, name, 1, entropy, now));
  }

  lemma {:induction false} RunTwo(s: State, a: Step, b: Step)
    ensures Run(s, [a, b]) == Apply(Apply(s, a), b)
  {
    hide Apply;
    assert Front([a, b]) == [a] && Front([a]) == [];
    assert Run(s, [a]) == Apply(s, a);
  }

  lemma NoListYet(t: Store, stream: Text)
    requires t.segments == []
    ensures FilterStream(t.segments, stream) == [] && CoveredTo(t, stream) == 0
  {
  }

  lemma {:induction false} FirstAppend(p: Process, d: Draft)
    requires RejectIfDeprecated(INITIAL.store, d.streamId).Ok?
    ensures Apply(INITIAL, DoAppend(p, d)).store.entries == [SealRow(p, d, 1, ZERO_HASH)]
    ensures Apply(INITIAL, DoAppend(p, d)).store.segments == []
  {
    hide StateOk, SealRow, LinkHash, RejectIfDeprecated, AppendRow;
    InitialStateOk();
    StateIsStoreOk(INITIAL);
    NoEntriesYet();
    NoLink(d.streamId);
    AppendRowAdds(INITIAL.store, p, d);
  }

  lemma {:induction false} SignKeepsEntries(s: State, p: Process, name: Text, id: nat, entropy: Bytes, now: Text,
          stream: Text)
    requires StateOk(s)
    ensures Apply(s, DoSign(p, name, id, entropy, now)).store.entries == s.store.entries
    ensures |Apply(s, DoSign(p, name, id, entropy, now)).store.segments| == |s.store.segments|
    ensures |FilterStream(Apply(s, DoSign(p, name, id, entropy, now)).store.segments, stream)|
      == |FilterStream(s.store.segments, stream)|
  {
    hide StateOk, SegmentGet, ComputeCheckpointHash, WithSignature, HeadUpsert, Hex, FilterStream;
    DenseOfState(s);
    forall signature, identity
      ensures |FilterStream(WithSignature(s.store.segments, id, signature, identity), stream)|
        == |FilterStream(s.store.segments, stream)|
    {
      SignedList(s.store, id, signature, identity, stream);
    }
  }

  /** Entries beyond the recorded segment can be cut off: what is left passes `verify_chain` on every
      range with rows, and the rollback check. */
  lemma {:induction false} TruncationPasses(s: State, n: nat, p: Process, stream: Text, from: nat, to: nat)
    requires StateOk(s) && n <= |s.store.entries|
    requires HeadGet(s.heads, stream).Some? ==> HeadGet(s.heads, stream).value.seqEnd <= n
    ensures var es := s.store.entries[..n];
      && (VerifyChain(es, stream, from, to).Ok? <==> from <= to && Range(es, stream, from, to) != [])
      && CheckRollback(s.store.(entries := es), s.heads, p, stream) == Ok(())
  {
    hide FilterStream, VerifyChain, CheckRollback, Range, SameEnd, ChainValid, StreamOk, HeadsOk, HeadGet, RecordedList;
    var es := s.store.entries[..n];
    assert ChainValid(s.store.entries, stream);
    PrefixIsValid(s.store.entries, n, stream);
    DenseChainAccepts(es, stream, from, to);
    EndsInBounds(s, stream);
    RecordedIsPrefix(s, stream);
    var recorded := RecordedList(s, stream);
    RecordedWithin(s, stream);
    forall i | 0 <= i < |recorded| ensures SameEnd(es, s.store.entries, recorded[i].seqEnd) {
      assert recorded[i] == FilterStream(s.store.segments, stream)[i];
      DenseSameEnd(es, s.store.entries, recorded[i].seqEnd);
    }
    RollbackSeesOnlyEnds(s, es, p, stream);
  }

  lemma {:induction false} RecordedWithin(s: State, stream: Text)
    requires StateOk(s)
    ensures HeadGet(s.heads, stream).None? ==> RecordedList(s, stream) == []
    ensures HeadGet(s.heads, stream).Some? ==> forall i | 0 <= i < |RecordedList(s, stream)| ::
      RecordedList(s, stream)[i].seqEnd <= HeadGet(s.heads, stream).value.seqEnd
  {
    hide StateOk, FilterStream, HeadGet;
    if HeadGet(s.heads, stream).Some? {
      var k := RecordedListEnds(s, stream);
      var list := FilterStream(s.store.segments, stream);
      forall i | 0 <= i < k + 1 ensures list[i].seqEnd <= list[k].seqEnd {
        EndsIncrease(s, stream, i, k);
      }
    }
  }

  lemma {:induction false} EndsIncrease(s: State, stream: Text, i: nat, k: nat)
    requires StateOk(s) && i <= k < |FilterStream(s.store.segments, stream)|
    ensures FilterStream(s.store.segments, stream)[i].seqEnd <= FilterStream(s.store.segments, stream)[k].seqEnd
  {
    hide SegmentOk, SignatureOk, FilterStream, ChainValid, HeadsOk;
    var list := FilterStream(s.store.segments, stream);
    assert StreamOk(s.store, stream);
    if i < k {
      SegmentsAreOrdered(s, stream, i, k);
      OneOfList(s.store.entries, s.store.segmentEntries, stream, list, k);
      SegmentEndsAtARow(s.store.entries, s.store.segmentEntries, stream, list, k);
    }
  }
}
