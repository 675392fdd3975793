/** What concurrent closing guarantees: the sequential engine's results for streams with one closer at a
    time, and the damage two closers of one stream can do. */
module ConcurrentTheorems {
  import opened Basics
  import opened Records
  import opened Encoder
  import opened Tables
  import opened MerkleSpec
  import opened Checkpoints
  import opened HeadFiles
  import opened Engine
  import opened Invariants
  import opened Preservation
  import opened Runs
  import opened SegmentTheorems
  import opened CheckpointTheorems
  import opened Interleaving
  import opened ConcurrentClosing

  const NEW_WORLD := World(INITIAL, map[], map[])

  lemma NewWorldIsSound(stream: Text)
    ensures Sound(NEW_WORLD, stream) && StartsHeld(NEW_WORLD, stream)
  {
    InitialStateOk();
    StateStreamsOk(INITIAL, stream);
  }

  // ----- One closer per stream -----

  /** After any schedule that starts from a fresh store and in which the stream never has two closers at
      once: its segments partition its covered rows, its checkpoint chain verifies when all of them are
      signed, and the rollback check accepts. Appends may race one another, and the closers of other
      streams too. */
  lemma {:induction false} OneCloserGuarantees(calls: seq<Call>, stream: Text, p: Process)
    requires AlwaysOneCloser(NEW_WORLD, calls, stream)
    ensures var s := DoAll(NEW_WORLD, calls).state;
      var list := SegmentsList(s.store.segments, stream);
      && Flatten(s.store.entries, stream, list) == Range(s.store.entries, stream, 1, CoveredTo(s.store, stream))
      && VerifyCheckpointChain(s.store, stream)
         == (if list == [] then Err(StreamNotFound(stream))
             else if AllSigned(list) then Ok(|list|)
             else Err(Invalid(Unsigned)))
      && CheckRollback(s.store, s.heads, p, stream) == Ok(())
  {
    hide Sound, StartsHeld, AlwaysOneCloser, AlwaysOk, DoAll, StreamStateOk, SegmentsList, Range, Flatten, CoveredTo,
         AllSigned;
    hide VerifyCheckpointChain, CheckRollback;
    var w := DoAll(NEW_WORLD, calls);
    NewWorldIsSound(stream);
    OneCloserSuffices(NEW_WORLD, calls, stream);
    SoundIsOk(w, stream);
    SegmentsPartitionStream(w.state, stream);
    CheckpointChainVerifiesIff(w.state, stream);
    RollbackCheckAccepts(w.state, p, stream);
  }

  // ----- One closer and one appender per stream -----

  function Appending(w: World): Shared {
    Shared(w.state.store.entries, w.appends)
  }

  /** In every state of the schedule the stream has at most one appender. */
  ghost predicate OneAppenderThroughout(w: World, calls: seq<Call>, stream: Text) {
    && OneAppender(Appending(DoAll(w, calls)), stream)
    && (calls != [] ==> OneAppenderThroughout(w, Front(calls), stream))
  }

  lemma {:induction false} CallOnRows(w: World, call: Call)
    ensures Appending(Do(w, call)) == if call.AppendCall? then Perform(Appending(w), call.a) else Appending(w)
  {
    hide Perform, Advance, Apply, SegmentStart, LeafEntries;
    if call.Whole? && (call.step.DoSign? || call.step.DoCreateStream? || call.step.DoDeprecate?) {
      WholeKeepsEntries(w.state, call.step);
    }
  }

  /** Closers and signers leave the argument for one appender as it is. */
  lemma {:induction false} ChainHoldsThroughout(w: World, calls: seq<Call>, stream: Text)
    requires SeqnosOk(Appending(w)) && ChainValid(w.state.store.entries, stream) && LinksHeld(Appending(w), stream)
    requires OneAppenderThroughout(w, calls, stream)
    ensures var after := Appending(DoAll(w, calls));
      SeqnosOk(after) && ChainValid(after.entries, stream) && LinksHeld(after, stream)
  {
    hide Do, Perform, SeqnosOk, ChainValid, LinksHeld, OneAppender, WinLinksToTip;
    if calls != [] {
      var before, call := DoAll(w, Front(calls)), Last(calls);
      ChainHoldsThroughout(w, Front(calls), stream);
      CallOnRows(before, call);
      if call.AppendCall? {
        PerformKeepsSeqnos(Appending(before), call.a);
        PerformKeepsLinks(Appending(before), call.a, stream);
        HeldLinksWin(Appending(before), call.a, stream);
        PerformKeepsChainIff(Appending(before), call.a, stream);
      }
    }
  }

  /** If no stream ever has two appenders or two closers at once, then every interleaving of the store
      calls ends in a state that satisfies the sequential engine's invariant: all that is proved about
      such states (entry chains, segments, proofs, checkpoints, rollback) holds after it. */
  lemma {:induction false} InterleavingKeepsStateOk(calls: seq<Call>)
    requires forall stream :: AlwaysOneCloser(NEW_WORLD, calls, stream)
    requires forall stream :: OneAppenderThroughout(NEW_WORLD, calls, stream)
    ensures StateOk(DoAll(NEW_WORLD, calls).state)
  {
    hide AlwaysOneCloser, OneAppenderThroughout, DoAll, Sound, StartsHeld, ListOk, FilterStream, RecordOk,
         StreamStateOk, SeqnosOk, LinksHeld;
    var s := DoAll(NEW_WORLD, calls).state;
    forall stream ensures StreamStateOk(s, stream) && ChainValid(s.store.entries, stream) {
      NewWorldIsSound(stream);
      OneCloserSuffices(NEW_WORLD, calls, stream);
      SoundIsOk(DoAll(NEW_WORLD, calls), stream);
      NothingAppended(stream);
      ChainHoldsThroughout(NEW_WORLD, calls, stream);
    }
    StreamsMakeState(s);
  }

  lemma NothingAppended(stream: Text)
    ensures SeqnosOk(Appending(NEW_WORLD)) && LinksHeld(Appending(NEW_WORLD), stream)
    ensures ChainValid(NEW_WORLD.state.store.entries, stream)
  {
  }

  lemma {:induction false} StreamsMakeState(s: State)
    requires forall stream :: StreamStateOk(s, stream) && ChainValid(s.store.entries, stream)
    ensures StateOk(s)
  {
    hide ListOk, FilterStream, RecordOk, ChainValid;
    assert StreamStateOk(s, []);
    forall stream ensures StreamOk(s.store, stream) && ChainValid(s.store.entries, stream) {
      assert StreamStateOk(s, stream);
    }
    forall stream | HeadGet(s.heads, stream).Some? ensures RecordOk(s.store, HeadGet(s.heads, stream).value) {
      assert StreamStateOk(s, stream);
    }
  }

  // ----- The calls of one operation together -----

  /** With one appender on the stream, an insert that wins is the sequential append at that moment. */
  lemma {:induction false} WinIsAppend(t: Store, active: map<nat, Phase>, w: nat, stream: Text)
    requires SeqnosOk(Shared(t.entries, active)) && LinksHeld(Shared(t.entries, active), stream)
    requires w in active && active[w].GotSeqno? && active[w].d.streamId == stream
      && !HasSeqno(t.entries, active[w].seqno)
    ensures Perform(Shared(t.entries, active), Insert(w)).entries == AppendRow(t, active[w].p, active[w].d).0.entries
  {
    hide SealRow, LinkHash, HasSeqno;
    InsertWinsIff(Shared(t.entries, active), w);
    DenseHasSeqno(t.entries, active[w].seqno);
    DenseGlobalHead(t.entries);
    LoneAppend(t, active[w].p, active[w].d);
  }

  function Reads(c: nat, stream: Text, now: Text): seq<Call> {
    [ReadCovered(c, stream), ReadEnd(c), ReadRows(c), ReadTip(c, now)]
  }

  lemma {:induction false} DoFour(w: World, a: Call, b: Call, c: Call, d: Call)
    ensures DoAll(w, [a, b, c, d]) == Do(Do(Do(Do(w, a), b), c), d)
  {
    hide Do;
    assert Front([a, b, c, d]) == [a, b, c] && Front([a, b, c]) == [a, b] && Front([a, b]) == [a] && Front([a]) == [];
    assert DoAll(w, [a]) == Do(w, a);
    assert DoAll(w, [a, b]) == Do(DoAll(w, [a]), b);
    assert DoAll(w, [a, b, c]) == Do(DoAll(w, [a, b]), c);
  }

  lemma {:induction false} DoSplits(w: World, a: seq<Call>, b: seq<Call>)
    ensures DoAll(w, a + b) == DoAll(DoAll(w, a), b)
  {
    hide Do;
    if b == [] {
      assert a + b == a;
    } else {
      assert Front(a + b) == a + Front(b);
      DoSplits(w, a, Front(b));
    }
  }

  /** The reads of one closer, with no call in between. */
  lemma {:induction false} ReadsLearn(w: World, c: nat, stream: Text, now: Text)
    requires c !in w.closes
    ensures var t := w.state.store;
      DoAll(w, Reads(c, stream, now))
      == if CloseSegment(t, stream, now).1.Ok? then
           w.(closes := w.closes[c := KnowsTip(stream, SegmentStart(t, stream), RowToInsert(t, stream, now),
                                               RowsToClose(t, stream))])
         else w
  {
    hide Head, SegmentStart, Range, LeafHashes, TipCheckpoint, MTH, InsertSegment, Perform, Apply, DoAll;
    DoFour(w, ReadCovered(c, stream), ReadEnd(c), ReadRows(c), ReadTip(c, now));
    var w1 := Do(w, ReadCovered(c, stream));
    var w2 := Do(w1, ReadEnd(c));
    var w3 := Do(w2, ReadRows(c));
    var w4 := Do(w3, ReadTip(c, now));
    if CloseSegment(w.state.store, stream, now).1.Ok? {
      assert w4.closes == w.closes[c := w4.closes[c]];
    } else {
      assert w4.closes == w.closes;
    }
  }

  /** The five calls of one closer, undisturbed, are the sequential `close_segment`, in any store. */
  lemma {:induction false} UndisturbedIsClose(w: World, c: nat, stream: Text, now: Text)
    requires c !in w.closes
    ensures DoAll(w, Reads(c, stream, now) + [InsertClosed(c)])
      == w.(state := w.state.(store := CloseSegment(w.state.store, stream, now).0))
  {
    hide Head, SegmentStart, Range, LeafHashes, TipCheckpoint, MTH, InsertSegment, Perform, Apply, DoAll;
    ReadsLearn(w, c, stream, now);
    DoSplits(w, Reads(c, stream, now), [InsertClosed(c)]);
    var read := DoAll(w, Reads(c, stream, now));
    DoOne(read, InsertClosed(c));
    assert Do(read, InsertClosed(c)).closes == w.closes;
  }

  lemma {:induction false} DoOne(w: World, a: Call)
    ensures DoAll(w, [a]) == Do(w, a)
  {
    hide Do;
    assert Front([a]) == [];
  }

  // ----- Why one closer per stream is needed -----

  /** Both closers of a stream read before either inserts; the first segment is signed in between. */
  function TwoClosers(stream: Text, now: Text, sign: Step): seq<Call> {
    Reads(1, stream, now) + Reads(2, stream, now) + [InsertClosed(1), Whole(sign), InsertClosed(2)]
  }

  /** The state between the two inserts: one more sequential close, and a signature. */
  function BetweenInserts(s: State, stream: Text, now: Text, sign: Step): State {
    Apply(s.(store := CloseSegment(s.store, stream, now).0), sign)
  }

  lemma {:induction false} TwoClosersOutcome(s: State, stream: Text, now: Text, sign: Step)
    requires CloseSegment(s.store, stream, now).1.Ok? && sign.DoSign?
    ensures var mid := BetweenInserts(s, stream, now, sign);
      DoAll(World(s, map[], map[]), TwoClosers(stream, now, sign))
      == World(mid.(store := InsertSegment(mid.store, RowToInsert(s.store, stream, now),
                                           RowsToClose(s.store, stream)).0), map[], map[])
  {
    hide DoAll, Do, Reads, CloseSegment, RowToInsert, RowsToClose;
    var w := World(s, map[], map[]);
    var ready := KnowsTip(stream, SegmentStart(s.store, stream), RowToInsert(s.store, stream, now),
                          RowsToClose(s.store, stream));
    var first, second := Reads(1, stream, now), Reads(2, stream, now);
    var end := [InsertClosed(1), Whole(sign), InsertClosed(2)];
    ReadsLearn(w, 1, stream, now);
    var w1 := w.(closes := map[1 := ready]);
    assert w.closes[1 := ready] == map[1 := ready];
    ReadsLearn(w1, 2, stream, now);
    var w2 := w1.(closes := map[1 := ready, 2 := ready]);
    assert w1.closes[2 := ready] == map[1 := ready, 2 := ready];
    DoSplits(w, first + second, end);
    DoSplits(w, first, second);
    DoThree(w2, InsertClosed(1), Whole(sign), InsertClosed(2));
    BothInsert(w2, stream, now, sign, s.store);
  }

  lemma {:induction false} DoThree(w: World, a: Call, b: Call, c: Call)
    ensures DoAll(w, [a, b, c]) == Do(Do(Do(w, a), b), c)
  {
    hide Do;
    assert Front([a, b, c]) == [a, b] && Front([a, b]) == [a] && Front([a]) == [];
    assert DoAll(w, [a]) == Do(w, a);
    assert DoAll(w, [a, b]) == Do(DoAll(w, [a]), b);
  }

  lemma {:induction false} BothInsert(w: World, stream: Text, now: Text, sign: Step, t: Store)
    requires t == w.state.store && CloseSegment(t, stream, now).1.Ok? && sign.DoSign?
    requires var ready := KnowsTip(stream, SegmentStart(t, stream), RowToInsert(t, stream, now),
                                   RowsToClose(t, stream));
      w.closes == map[1 := ready, 2 := ready]
    ensures var mid := BetweenInserts(w.state, stream, now, sign);
      Do(Do(Do(w, InsertClosed(1)), Whole(sign)), InsertClosed(2))
      == World(mid.(store := InsertSegment(mid.store, RowToInsert(t, stream, now), RowsToClose(t, stream)).0),
               w.appends, map[])
  {
    hide Head, SegmentStart, Range, LeafHashes, TipCheckpoint, MTH, InsertSegment, Perform, Apply;
    var w1 := Do(w, InsertClosed(1));
    assert w1.state == w.state.(store := CloseSegment(t, stream, now).0);
    var w2 := Do(w1, Whole(sign));
    assert w2.closes == map[2 := w.closes[2]];
    assert w2.closes - {2} == map[];
  }

  /** One more segment behind the stream's own leaves what the checks of the earlier ones return. */
  lemma {:induction false} InsertKeepsChecks(t: Store, row: SegmentRow, rows: seq<Row>, stream: Text, k: nat)
    requires IdsDense(t) && k <= |FilterStream(t.segments, stream)|
    ensures var list := FilterStream(t.segments, stream);
      CheckSegments(InsertSegment(t, row, rows).0, list[..k]) == CheckSegments(t, list[..k])
  {
    hide FilterStream, CheckSegments, VerifySegmentSignature, LeafEntries;
    var list := FilterStream(t.segments, stream);
    if k == 0 {
      assert list[..0] == [];
      EmptyCheck(t);
      EmptyCheck(InsertSegment(t, row, rows).0);
    } else {
      InsertKeepsChecks(t, row, rows, stream, k - 1);
      CheckSegmentsUnfolds(t, list, k - 1);
      CheckSegmentsUnfolds(InsertSegment(t, row, rows).0, list, k - 1);
      InsertKeepsSignatureCheck(t, row, rows, stream, k - 1);
    }
  }

  lemma {:induction false} InsertKeepsSignatureCheck(t: Store, row: SegmentRow, rows: seq<Row>, stream: Text, k: nat)
    requires IdsDense(t) && k < |FilterStream(t.segments, stream)|
    ensures var id := FilterStream(t.segments, stream)[k].segmentId;
      VerifySegmentSignature(InsertSegment(t, row, rows).0, id) == VerifySegmentSignature(t, id)
  {
    hide FilterStream, SegmentGet, ComputeCheckpointHash, CheckpointFold, LeafEntries, VerifyCheckpoint, Position,
         SegmentsList, UniqueSegmentIds, PreviousCheckpointHash, ComputeFields;
    var t' := InsertSegment(t, row, rows).0;
    var list, list' := FilterStream(t.segments, stream), FilterStream(t'.segments, stream);
    CloseKeepsIds(t, row, rows);
    FilterStreamGrows(t.segments, row.(segmentId := NewSegmentId(t)), stream);
    assert list'[k] == list[k] && list'[..k + 1] == list[..k + 1];
    DenseSegmentsList(t, stream);
    DenseSegmentsList(t', stream);
    ListIsIndexed(t.segments, stream, k);
    ListIsIndexed(t'.segments, stream, k);
    RecursionIsFold(t, stream, k);
    RecursionIsFold(t', stream, k);
  }

  lemma {:induction false} CloseAddsSegment(s: State, stream: Text, now: Text)
    requires StateOk(s) && CloseSegment(s.store, stream, now).1.Ok?
    ensures var t' := CloseSegment(s.store, stream, now).0;
      var row := RowToInsert(s.store, stream, now);
      && StateOk(s.(store := t')) && t'.entries == s.store.entries
      && row.streamId == stream && |row.prevCheckpointHash| == HASH_LEN
      && Closes(s.store, stream, row, RowsToClose(s.store, stream))
      && NewSegmentId(s.store) == |s.store.segments| + 1
      && FilterStream(t'.segments, stream)
        == FilterStream(s.store.segments, stream) + [row.(segmentId := |s.store.segments| + 1)]
      && SegmentStart(t', stream) > SegmentStart(s.store, stream)
  {
    hide StoreOk, HeadsOk, Closes, FilterStream, RowToInsert, RowsToClose, CloseSegment, LeafEntries, SegmentStart,
         IdsDense, StreamStateOk;
    var row, rows := CloseInserts(s.store, stream, now);
    CloseKeepsStateOk(s, stream, now);
    StateStreamsOk(s, stream);
    CloseKeepsIds(s.store, row, rows);
    FilterStreamGrows(s.store.segments, row.(segmentId := NewSegmentId(s.store)), stream);
    FreshInsertIsOk(s, stream, row, rows);
    RowIsOfStream(s.store, stream, row, rows);
  }

  lemma {:induction false} RowIsOfStream(t: Store, stream: Text, row: SegmentRow, rows: seq<Row>)
    requires Closes(t, stream, row, rows)
    ensures row.streamId == stream && |row.prevCheckpointHash| == HASH_LEN
  {
    hide FilterRange, LeafHashes, TipCheckpoint, SegmentStart;
  }

  /** In every reachable state: two closers of one stream that both read before either inserts store two
      segments with the same bounds, root and predecessor, so the stream's segments no longer partition
      its rows. */
  lemma {:induction false} TwoClosersOverlap(s: State, stream: Text, now: Text, sign: Step)
    requires StateOk(s) && CloseSegment(s.store, stream, now).1.Ok? && sign.DoSign?
    ensures var n := |FilterStream(s.store.segments, stream)|;
      var after := DoAll(World(s, map[], map[]), TwoClosers(stream, now, sign)).state.store;
      var list := FilterStream(after.segments, stream);
      && |list| == n + 2
      && list[n + 1].seqStart == list[n].seqStart && list[n + 1].seqEnd == list[n].seqEnd
      && list[n + 1].merkleRoot == list[n].merkleRoot && list[n + 1].prevCheckpointHash == list[n].prevCheckpointHash
      && !StreamOk(after, stream)
  {
    hide DoAll, StateOk, StreamOk, FilterStream, TwoClosers, CloseSegment, RowToInsert, RowsToClose, LeafEntries,
         Apply, SegmentStart;
    var row, rows := RowToInsert(s.store, stream, now), RowsToClose(s.store, stream);
    var closed := s.(store := CloseSegment(s.store, stream, now).0);
    var mid := BetweenInserts(s, stream, now, sign);
    TwoClosersOutcome(s, stream, now, sign);
    CloseAddsSegment(s, stream, now);
    StateStreamsOk(closed, stream);
    WholeSpares(closed, sign, stream);
    WholeKeepsEntries(closed, sign);
    SparedStream(closed.store, mid.store, stream);
    FilterStreamGrows(mid.store.segments, row.(segmentId := NewSegmentId(mid.store)), stream);
    StaleInsertIsNotOk(mid.store, stream, SegmentStart(s.store, stream), row, rows);
  }

  /** Signing the segment that was just closed leaves every segment signed, if those before it were. */
  lemma {:induction false} NowAllSigned(s: State, p: Process, name: Text, id: nat, entropy: Bytes, now: Text,
          stream: Text)
    requires StateOk(s)
    requires SignSegment(s.store, s.heads, p, name, id, entropy, now).2.Ok?
    requires var list := FilterStream(s.store.segments, stream);
      list != [] && Last(list).segmentId == id && AllSigned(Front(list))
    ensures AllSigned(FilterStream(Apply(s, DoSign(p, name, id, entropy, now)).store.segments, stream))
  {
    hide StoreOk, HeadsOk, FilterStream, ComputeCheckpointHash, SegmentGet, WithSignature, HeadUpsert, IdsDense,
         StreamOk;
    var list := FilterStream(s.store.segments, stream);
    StateStreamsOk(s, stream);
    var row := SegmentGet(s.store.segments, id).value;
    var hash := ComputeCheckpointHash(s.store, row.streamId, id).value;
    var (signature, identity) := SignCheckpoint(name, hash, entropy).value;
    SignedList(s.store, id, signature, identity, stream);
    forall i | 0 <= i < |list| ensures Signed(list[i], id, signature, identity).signature.Some? {
      if i < |list| - 1 {
        assert list[i] == Front(list)[i];
      }
    }
  }

  /** The fields that the last segment's checkpoint hash is over. */
  lemma {:induction false} LastFields(s: State, stream: Text, n: nat) returns (fields: CheckpointFields)
    requires StateOk(s) && |FilterStream(s.store.segments, stream)| == n + 1
    ensures var last := FilterStream(s.store.segments, stream)[n];
      && ComputeFields(s.store, stream, last.segmentId) == Ok(fields)
      && fields.prevCheckpointHash == last.prevCheckpointHash && fields.seqEnd == last.seqEnd
      && CheckpointFold(s.store.entries, FilterStream(s.store.segments, stream)) == Ok(CheckpointHash(fields))
  {
    hide StoreOk, HeadsOk, FilterStream, CheckpointFold, StreamOk, Get, EncodeCheckpoint, SegmentGet, ComputeFields;
    var list := FilterStream(s.store.segments, stream);
    StateStreamsOk(s, stream);
    DenseSegmentsList(s.store, stream);
    RecursionIsFold(s.store, stream, n);
    StoredPredecessor(s.store, stream, n);
    SignatureVerifiesIff(s.store, stream, n);
    assert list[..n + 1] == list;
    fields := ComputeFields(s.store, stream, list[n].segmentId).value;
  }

  /** A segment that links elsewhere than to its stream's tip is reported as drifted. */
  lemma {:induction false} WrongLinkDrifts(s: State, stream: Text, row: SegmentRow, rows: seq<Row>)
    requires StateOk(s) && AllSigned(FilterStream(s.store.segments, stream))
    requires row.streamId == stream && |row.prevCheckpointHash| == HASH_LEN
    requires CheckpointFold(s.store.entries, FilterStream(s.store.segments, stream)) != Ok(row.prevCheckpointHash)
    ensures VerifyCheckpointChain(InsertSegment(s.store, row, rows).0, stream)
      == Err(ChainBroken(row.seqEnd, CheckpointDrift))
  {
    hide StoreOk, HeadsOk, FilterStream, CheckpointFold, StreamOk, SegmentsList, CheckSegments, AllSigned, LeafEntries,
         VerifySegmentSignature;
    var t := s.store;
    var t' := InsertSegment(t, row, rows).0;
    var list, list' := FilterStream(t.segments, stream), FilterStream(t'.segments, stream);
    StateStreamsOk(s, stream);
    CloseKeepsIds(t, row, rows);
    DenseSegmentsList(t', stream);
    FilterStreamGrows(t.segments, row.(segmentId := NewSegmentId(t)), stream);
    CheckSegmentsFollowsFold(t, stream, |list|);
    InsertKeepsChecks(t, row, rows, stream, |list|);
    CheckSegmentsUnfolds(t', list', |list|);
    assert list[..|list|] == list && list'[..|list|] == list && list'[..|list| + 1] == list';
    FoldIsOk(s, stream);
  }

  lemma {:induction false} FoldIsOk(s: State, stream: Text)
    requires StateOk(s)
    ensures CheckpointFold(s.store.entries, FilterStream(s.store.segments, stream)).Ok?
  {
    hide StoreOk, HeadsOk, FilterStream, CheckpointFold, StreamOk;
    StateStreamsOk(s, stream);
    TipIsDefined(s.store, stream);
    TipIsFold(s.store, stream);
  }

  /** If the first of the two segments is signed, and all before it are, then `verify_checkpoint_chain`
      reports the second one as drifted, unless the first checkpoint's hash is the very digest it stores as
      its predecessor's. */
  lemma {:induction false} TwoClosersDrift(s: State, stream: Text, now: Text, sign: Step)
    returns (fields: CheckpointFields)
    requires StateOk(s) && CloseSegment(s.store, stream, now).1.Ok? && AllSigned(FilterStream(s.store.segments, stream))
    requires sign.DoSign? && sign.id == NewSegmentId(s.store)
    requires SignSegment(CloseSegment(s.store, stream, now).0, s.heads, sign.p, sign.name, sign.id, sign.entropy,
                         sign.now).2.Ok?
    ensures var after := DoAll(World(s, map[], map[]), TwoClosers(stream, now, sign)).state.store;
      && ComputeFields(BetweenInserts(s, stream, now, sign).store, stream, sign.id) == Ok(fields)
      && Ok(fields.prevCheckpointHash) == TipCheckpoint(s.store, stream)
      && (VerifyCheckpointChain(after, stream) == Err(ChainBroken(fields.seqEnd, CheckpointDrift))
          || CheckpointHash(fields) == fields.prevCheckpointHash)
  {
    hide DoAll, StateOk, FilterStream, TwoClosers, CloseSegment, RowToInsert, RowsToClose, Apply, SegmentStart,
         AllSigned, SignSegment, InsertSegment, VerifyCheckpointChain, ComputeFields, CheckpointHash, TipCheckpoint,
         CheckpointFold, Describes;
    var row, rows := RowToInsert(s.store, stream, now), RowsToClose(s.store, stream);
    var closed := s.(store := CloseSegment(s.store, stream, now).0);
    var mid := BetweenInserts(s, stream, now, sign);
    var n := |FilterStream(s.store.segments, stream)|;
    TwoClosersOutcome(s, stream, now, sign);
    CloseAddsSegment(s, stream, now);
    NowAllSigned(closed, sign.p, sign.name, sign.id, sign.entropy, sign.now, stream);
    StateStreamsOk(closed, stream);
    WholeSpares(closed, sign, stream);
    ApplyKeepsStateOk(closed, sign);
    fields := LastFields(mid, stream, n);
    if CheckpointHash(fields) != fields.prevCheckpointHash {
      WrongLinkDrifts(mid, stream, row, rows);
    }
  }
}
