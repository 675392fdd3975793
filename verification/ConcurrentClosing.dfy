/** Closing segments while other calls go on. `close_segment` is five store calls here: the last covered
    seqno, the head, the rows in between, the checkpoint hash of the last segment, and the insert. They
    interleave in any order with the store calls of any number of appends (Interleaving.dfy), with
    other closers, and with signing and stream changes, each of which is one call.

    The checkpoint hash is one call, although it reads once per segment: what it reads, stored
    segments and their last rows, no call ever changes. */
module ConcurrentClosing {
  import opened Basics
  import opened Records
  import opened Tables
  import opened MerkleSpec
  import opened Checkpoints
  import opened HeadFiles
  import opened Engine
  import opened Invariants
  import opened Preservation
  import opened Runs
  import opened SegmentTheorems
  import opened Interleaving

  /** How far a closer has come; `start` is one past the last seqno it saw covered. */
  datatype Closing =
    | KnowsStart(stream: Text, start: nat)
    | KnowsHead(stream: Text, start: nat, head: nat)
    | KnowsRows(stream: Text, start: nat, row: SegmentRow, rows: seq<Row>)
    | KnowsTip(stream: Text, start: nat, row: SegmentRow, rows: seq<Row>)

  /** The shared state, and the appends and closes in progress. */
  datatype World = World(state: State, appends: map<nat, Phase>, closes: map<nat, Closing>)

  datatype Call =
    | AppendCall(a: Action)
    | ReadCovered(c: nat, stream: Text)
    | ReadEnd(c: nat)
    | ReadRows(c: nat)
    | ReadTip(c: nat, now: Text)
    | InsertClosed(c: nat)
    | GiveUp(c: nat)
    | Whole(step: Step)

  /** What a closer knows after a read that it is about to make; none when `close_segment` returns an
      error there. A read that it is not about to make changes nothing. */
  function Advance(t: Store, k: Closing, call: Call): Option<Closing> {
    if call.ReadEnd? && k.KnowsStart? then
      match Head(t.entries, k.stream)
      case None => None
      case Some(head) => if head < k.start then None else Some(KnowsHead(k.stream, k.start, head))
    else if call.ReadRows? && k.KnowsHead? then
      var rows := Range(t.entries, k.stream, k.start, k.head);
      if rows == [] || LeafHashes(rows).Err? then None
      else Some(KnowsRows(k.stream, k.start,
                          NewSegment(k.stream, rows, LeafHashes(rows).value, k.head, ZERO_HASH, []), rows))
    else if call.ReadTip? && k.KnowsRows? then
      match TipCheckpoint(t, k.stream)
      case Err(_) => None
      case Ok(tip) => Some(KnowsTip(k.stream, k.start, k.row.(prevCheckpointHash := tip, closedAt := call.now), k.rows))
    else Some(k)
  }

  function Do(w: World, call: Call): World {
    match call
    case AppendCall(a) =>
      var s := Perform(Shared(w.state.store.entries, w.appends), a);
      w.(state := w.state.(store := w.state.store.(entries := s.entries)), appends := s.active)
    case ReadCovered(c, stream) =>
      if c in w.closes then w
      else w.(closes := w.closes[c := KnowsStart(stream, SegmentStart(w.state.store, stream))])
    case InsertClosed(c) =>
      if c in w.closes && w.closes[c].KnowsTip? then
        w.(state := w.state.(store := InsertSegment(w.state.store, w.closes[c].row, w.closes[c].rows).0),
           closes := w.closes - {c})
      else w
    case GiveUp(c) => w.(closes := w.closes - {c})
    case Whole(step) =>
      if step.DoSign? || step.DoCreateStream? || step.DoDeprecate? then w.(state := Apply(w.state, step)) else w
    case _ =>
      if call.c !in w.closes then w
      else
        match Advance(w.state.store, w.closes[call.c], call)
        case None => w.(closes := w.closes - {call.c})
        case Some(k) => w.(closes := w.closes[call.c := k])
  }

  function DoAll(w: World, calls: seq<Call>): World {
    if calls == [] then w else Do(DoAll(w, Front(calls)), Last(calls))
  }

  // ----- What a closer knows -----

  /** What a closer knows is true of the store, except that the stream may have got segments since it
      read the last covered seqno. */
  ghost predicate Knows(t: Store, k: Closing) {
    && 1 <= k.start <= SegmentStart(t, k.stream)
    && match k
       case KnowsStart(_, _) => true
       case KnowsHead(stream, start, head) =>
         start <= head <= |t.entries| && 1 <= head && t.entries[head - 1].streamId == stream
       case KnowsRows(stream, start, row, rows) => Describes(t.entries, stream, start, row, rows)
       case KnowsTip(stream, start, row, rows) =>
         && Describes(t.entries, stream, start, row, rows)
         && (start == SegmentStart(t, stream) ==> TipCheckpoint(t, stream) == Ok(row.prevCheckpointHash))
  }

  /** The row a closer is about to insert is one of its stream. */
  predicate RowIsOwn(k: Closing) {
    k.KnowsRows? || k.KnowsTip? ==> k.row.streamId == k.stream
  }

  /** The seqnos, one stream's segments and head record, and what its closers know are sound. */
  ghost predicate Sound(w: World, stream: Text) {
    && SeqnosOk(Shared(w.state.store.entries, w.appends))
    && StreamStateOk(w.state, stream)
    && (forall c | c in w.closes :: RowIsOwn(w.closes[c]))
    && forall c | c in w.closes && w.closes[c].stream == stream :: Knows(w.state.store, w.closes[c])
  }

  lemma {:induction false} FilterRangeOfPrefix(entries: seq<Row>, entries': seq<Row>, stream: Text, from: nat, to: nat)
    requires Dense(entries') && entries <= entries' && to <= |entries|
    ensures FilterRange(entries', stream, from, to) == FilterRange(entries, stream, from, to)
    decreases |entries'|
  {
    if entries == entries' {
    } else {
      assert entries' == Front(entries') + [Last(entries')];
      FilterRangeKeeps(Front(entries'), Last(entries'), stream, from, to);
      FilterRangeOfPrefix(entries, Front(entries'), stream, from, to);
    }
  }

  lemma {:induction false} DescriptionEnds(entries: seq<Row>, stream: Text, start: nat, row: SegmentRow, rows: seq<Row>)
    requires Dense(entries) && Describes(entries, stream, start, row, rows)
    ensures start <= row.seqStart <= row.seqEnd <= |entries|
    ensures forall i | 0 <= i < |rows| :: row.seqStart <= rows[i].seqno
  {
    hide FilterRange, LeafHashes, MTH;
    DenseFilterIsSorted(entries, stream, start, row.seqEnd);
    assert rows[|rows| - 1] == Last(rows);
    assert InRange(rows[0], stream, start, row.seqEnd);
  }

  /** What a closer knows stays true while rows are added, the stream's next start does not go back,
      and its tip changes only with the start. */
  lemma {:induction false} KnowsStays(t: Store, t': Store, k: Closing)
    requires Knows(t, k) && Dense(t'.entries) && t.entries <= t'.entries
    requires SegmentStart(t, k.stream) <= SegmentStart(t', k.stream)
    requires SegmentStart(t, k.stream) == SegmentStart(t', k.stream) ==>
      TipCheckpoint(t, k.stream) == TipCheckpoint(t', k.stream)
    ensures Knows(t', k)
  {
    hide FilterRange, SegmentStart, TipCheckpoint, LeafHashes, MTH;
    assert Dense(t.entries);
    if k.KnowsRows? || k.KnowsTip? {
      DescriptionEnds(t.entries, k.stream, k.start, k.row, k.rows);
      FilterRangeOfPrefix(t.entries, t'.entries, k.stream, k.start, k.row.seqEnd);
    }
  }

  lemma {:induction false} KnowsMore(t: Store, k: Closing, call: Call)
    requires SegmentsOk(t, k.stream) && Knows(t, k) && Advance(t, k, call).Some?
    ensures Knows(t, Advance(t, k, call).value)
  {
    hide FilterRange, SegmentStart, TipCheckpoint, LeafHashes, MTH, Head, Range, StreamOk;
    if call.ReadEnd? && k.KnowsStart? {
      HeadIsARow(t.entries, k.stream);
    } else if call.ReadRows? && k.KnowsHead? {
      DenseRange(t.entries, k.stream, k.start, k.head);
      RangeEndsAt(t.entries, k.stream, k.start, k.head);
    }
  }

  // ----- Calls that leave the stream's segments alone -----

  /** The stream's segments differ at most in signatures, and rows were only added. */
  ghost predicate Spares(t: Store, t': Store, stream: Text) {
    && SegmentsOk(t', stream) && t.entries <= t'.entries
    && SameButSignatures(FilterStream(t.segments, stream), FilterStream(t'.segments, stream))
  }

  /** Then its next start and its tip are the same. */
  lemma {:induction false} SparedStream(t: Store, t': Store, stream: Text)
    requires SegmentsOk(t, stream) && Spares(t, t', stream)
    ensures SegmentStart(t', stream) == SegmentStart(t, stream)
    ensures TipCheckpoint(t', stream) == TipCheckpoint(t, stream)
  {
    hide FilterStream, CheckpointFold, TipCheckpoint, SegmentStart, SegmentOk, SignatureOk, Get;
    var list, list' := FilterStream(t.segments, stream), FilterStream(t'.segments, stream);
    SegmentStartFollows(t, stream);
    SegmentStartFollows(t', stream);
    TipIsFold(t, stream);
    TipIsFold(t', stream);
    forall i | 0 <= i < |list| ensures Get(t.entries, list[i].seqEnd) == Get(t'.entries, list[i].seqEnd) {
      OneOfList(t.entries, t.segmentEntries, stream, list, i);
      SegmentEndsAtARow(t.entries, t.segmentEntries, stream, list, i);
      DenseGet(t.entries, 0, list[i].seqEnd);
      DenseGet(t'.entries, 0, list[i].seqEnd);
    }
    FoldKeeps(t.entries, t'.entries, list);
    FoldIgnoresSignatures(t'.entries, list, list');
    if list != [] {
      assert list'[|list| - 1] == list[|list| - 1].(signature := list'[|list| - 1].signature,
                                                    signerIdentity := list'[|list| - 1].signerIdentity);
    }
  }

  lemma {:induction false} AppendCallSpares(s: State, appends: map<nat, Phase>, a: Action, stream: Text)
    requires SeqnosOk(Shared(s.store.entries, appends)) && StreamStateOk(s, stream)
    ensures var after := Perform(Shared(s.store.entries, appends), a);
      var s' := s.(store := s.store.(entries := after.entries));
      SeqnosOk(after) && StreamStateOk(s', stream) && Spares(s.store, s'.store, stream)
  {
    hide Perform, ListOk, FilterStream, RecordOk;
    var t := s.store;
    var after := Perform(Shared(t.entries, appends), a);
    PerformKeepsSeqnos(Shared(t.entries, appends), a);
    if |after.entries| == |t.entries| {
      assert after.entries == t.entries;
    } else {
      var r := after.entries[|t.entries|];
      assert after.entries == t.entries + [r];
      AppendKeepsList(t.entries, r, t.segmentEntries, stream, FilterStream(t.segments, stream));
      if HeadGet(s.heads, stream).Some? {
        HeadGetIsOfStream(s.heads, stream);
        AppendKeepsRecord(t, r, HeadGet(s.heads, stream).value);
      }
    }
  }

  lemma {:induction false} SignSpares(s: State, p: Process, name: Text, id: nat, entropy: Bytes, now: Text,
          stream: Text)
    requires StreamStateOk(s, stream)
    ensures var s' := Apply(s, DoSign(p, name, id, entropy, now));
      StreamStateOk(s', stream) && Spares(s.store, s'.store, stream)
  {
    hide StreamOk, FilterStream, CheckpointFold, ComputeCheckpointHash, SegmentGet, WithSignature, RecordOk, HeadUpsert;
    var t := s.store;
    if 1 <= id <= |t.segments| {
      HashIsFold(t, id);
      var row := t.segments[id - 1];
      if ComputeCheckpointHash(t, row.streamId, id).Ok? {
        var hash := ComputeCheckpointHash(t, row.streamId, id).value;
        if SignCheckpoint(name, hash, entropy).Some? {
          var (signature, identity) := SignCheckpoint(name, hash, entropy).value;
          SignedVerifies(name, hash, entropy);
          SignKeepsStream(t, id, signature, identity, stream);
          SignKeepsIds(t, id, signature, identity);
          SignedList(t, id, signature, identity, stream);
          SignKeepsHead(s, p, id, signature, identity, hash, now, stream);
        }
      }
    } else {
      Runs.UnknownSegment(t, id);
    }
  }

  lemma {:induction false} StreamsSpare(s: State, streams: seq<StreamRow>, stream: Text)
    requires StreamStateOk(s, stream)
    ensures var s' := s.(store := s.store.(streams := streams));
      StreamStateOk(s', stream) && Spares(s.store, s'.store, stream)
  {
    hide ListOk, FilterStream, CheckpointFold;
  }

  lemma {:induction false} WholeSpares(s: State, step: Step, stream: Text)
    requires StreamStateOk(s, stream) && (step.DoSign? || step.DoCreateStream? || step.DoDeprecate?)
    ensures StreamStateOk(Apply(s, step), stream) && Spares(s.store, Apply(s, step).store, stream)
  {
    hide StreamStateOk, Spares, SignSegment, UpsertStream, WithDeprecation, StreamGet;
    match step
    case DoSign(p, name, id, entropy, now) => SignSpares(s, p, name, id, entropy, now, stream);
    case DoCreateStream(name, tier, description, now) =>
      StreamsSpare(s, CreateStream(s.store, name, tier, description, now).streams, stream);
    case DoDeprecate(name, now) => StreamsSpare(s, DeprecateStream(s.store, name, now).0.streams, stream);
    case _ =>
  }

  lemma {:induction false} WholeKeepsEntries(s: State, step: Step)
    requires step.DoSign? || step.DoCreateStream? || step.DoDeprecate?
    ensures Apply(s, step).store.entries == s.store.entries
  {
    hide SegmentGet, ComputeCheckpointHash, SignCheckpoint, WithSignature, UpsertStream, WithDeprecation, StreamGet;
  }

  lemma {:induction false} OtherInsertSpares(s: State, row: SegmentRow, rows: seq<Row>, stream: Text)
    requires StreamStateOk(s, stream) && row.streamId != stream
    ensures var s' := s.(store := InsertSegment(s.store, row, rows).0);
      StreamStateOk(s', stream) && Spares(s.store, s'.store, stream)
  {
    hide StreamOk, FilterStream, RecordOk, LeafEntries;
    CloseKeepsStream(s.store, row, rows, stream);
    CloseKeepsIds(s.store, row, rows);
    FilterStreamGrows(s.store.segments, row.(segmentId := NewSegmentId(s.store)), stream);
    if HeadGet(s.heads, stream).Some? {
      CloseKeepsRecord(s.store, row, rows, HeadGet(s.heads, stream).value);
    }
  }

  // ----- Inserting a segment of the stream -----

  predicate InsertsOn(w: World, call: Call, stream: Text) {
    call.InsertClosed? && call.c in w.closes && w.closes[call.c].KnowsTip? && w.closes[call.c].stream == stream
  }

  /** If the call inserts a segment of the stream, then the stream has got no other one since its closer
      read the last covered seqno. */
  predicate InsertIsFresh(w: World, call: Call, stream: Text) {
    InsertsOn(w, call, stream) ==> w.closes[call.c].start == SegmentStart(w.state.store, stream)
  }

  predicate InsertsAreFresh(w: World, calls: seq<Call>, stream: Text) {
    calls != [] ==>
      && InsertsAreFresh(w, Front(calls), stream)
      && InsertIsFresh(DoAll(w, Front(calls)), Last(calls), stream)
  }

  /** The stream's segments and head record are sound in every state of the schedule. */
  ghost predicate AlwaysOk(w: World, calls: seq<Call>, stream: Text) {
    && StreamStateOk(DoAll(w, calls).state, stream)
    && (calls != [] ==> AlwaysOk(w, Front(calls), stream))
  }

  lemma {:induction false} FreshInsertIsOk(s: State, stream: Text, row: SegmentRow, rows: seq<Row>)
    requires StreamStateOk(s, stream) && Closes(s.store, stream, row, rows)
    ensures var s' := s.(store := InsertSegment(s.store, row, rows).0);
      StreamStateOk(s', stream) && SegmentStart(s'.store, stream) > SegmentStart(s.store, stream)
  {
    hide StreamOk, FilterStream, RecordOk, LeafEntries, SegmentStart, TipCheckpoint, FilterRange, LeafHashes, MTH;
    var t' := InsertSegment(s.store, row, rows).0;
    CloseKeepsStream(s.store, row, rows, stream);
    CloseKeepsIds(s.store, row, rows);
    FilterStreamGrows(s.store.segments, row.(segmentId := NewSegmentId(s.store)), stream);
    SegmentStartFollows(t', stream);
    DescriptionEnds(s.store.entries, stream, SegmentStart(s.store, stream), row, rows);
    if HeadGet(s.heads, stream).Some? {
      CloseKeepsRecord(s.store, row, rows, HeadGet(s.heads, stream).value);
    }
  }

  /** The first row of the stream at or after `start` is not above any later row of it. */
  lemma {:induction false} FirstRowIsLeast(entries: seq<Row>, stream: Text, start: nat, row: SegmentRow,
          rows: seq<Row>, n: nat)
    requires Dense(entries) && Describes(entries, stream, start, row, rows)
    requires 1 <= n <= |entries| && start <= n && entries[n - 1].streamId == stream
    ensures row.seqStart <= n
  {
    hide FilterRange, LeafHashes, MTH;
    DescriptionEnds(entries, stream, start, row, rows);
    if n <= row.seqEnd {
      FilterRangeMembers(entries, stream, start, row.seqEnd, entries[n - 1]);
    }
  }

  /** A segment built from an outdated start overlaps the segments that came in between. */
  lemma {:induction false} StaleInsertIsNotOk(t: Store, stream: Text, start: nat, row: SegmentRow, rows: seq<Row>)
    requires SegmentsOk(t, stream) && Describes(t.entries, stream, start, row, rows)
      && 1 <= start < SegmentStart(t, stream)
    ensures !StreamOk(InsertSegment(t, row, rows).0, stream)
    ensures CoveredTo(t, stream) >= row.seqStart
  {
    hide FilterStream, SegmentStart, FilterRange, LeafHashes, MTH, SegmentOk, SignatureOk, LeafEntries;
    var list := FilterStream(t.segments, stream);
    var t' := InsertSegment(t, row, rows).0;
    SegmentStartFollows(t, stream);
    assert row.streamId == stream;
    OneOfList(t.entries, t.segmentEntries, stream, list, |list| - 1);
    SegmentEndsAtARow(t.entries, t.segmentEntries, stream, list, |list| - 1);
    FirstRowIsLeast(t.entries, stream, start, row, rows, Last(list).seqEnd);
    FilterStreamGrows(t.segments, row.(segmentId := NewSegmentId(t)), stream);
    if StreamOk(t', stream) {
      OneOfList(t'.entries, t'.segmentEntries, stream, FilterStream(t'.segments, stream), |list|);
      SegmentEndsAtARow(t'.entries, t'.segmentEntries, stream, FilterStream(t'.segments, stream), |list|);
    }
  }

  // ----- One call, and whole schedules -----

  /** The entries and segments a call leaves behind. */
  lemma {:induction false} CallSpares(w: World, call: Call, stream: Text)
    requires Sound(w, stream) && !InsertsOn(w, call, stream)
    ensures var w' := Do(w, call);
      && SeqnosOk(Shared(w'.state.store.entries, w'.appends))
      && StreamStateOk(w'.state, stream)
      && Spares(w.state.store, w'.state.store, stream)
  {
    hide StreamStateOk, Spares, Perform, Apply, Advance, LeafEntries, SegmentStart, Knows;
    var s := w.state;
    StreamsSpare(s, s.store.streams, stream);
    assert s == s.(store := s.store.(streams := s.store.streams));
    match call
    case AppendCall(a) => AppendCallSpares(s, w.appends, a, stream);
    case Whole(step) =>
      if step.DoSign? || step.DoCreateStream? || step.DoDeprecate? {
        WholeSpares(s, step, stream);
        WholeKeepsEntries(s, step);
      }
    case InsertClosed(c) =>
      if c in w.closes && w.closes[c].KnowsTip? {
        OtherInsertSpares(s, w.closes[c].row, w.closes[c].rows, stream);
      }
    case _ =>
  }

  /** A closer starts with the start it reads, stays where it is, or learns what `Advance` says. */
  lemma {:induction false} OneCloserAdvances(w: World, call: Call, c: nat)
    requires c in Do(w, call).closes && (c in w.closes ==> RowIsOwn(w.closes[c]))
    ensures var w' := Do(w, call);
      && RowIsOwn(w'.closes[c])
      && (if c !in w.closes then
            w'.state == w.state
              && w'.closes[c] == KnowsStart(w'.closes[c].stream, SegmentStart(w.state.store, w'.closes[c].stream))
          else
            || w'.closes[c] == w.closes[c]
            || (w'.state == w.state && Advance(w.state.store, w.closes[c], call) == Some(w'.closes[c])))
  {
    hide SegmentStart, Perform, Apply, InsertSegment, Head, Range, LeafHashes, TipCheckpoint, MTH;
  }

  /** What one closer of a stream knows after a call, given that the stream's next start has not gone back
      and its tip changed only with the start. */
  lemma {:induction false} CallKeepsKnowledge(w: World, call: Call, stream: Text, c: nat)
    requires Sound(w, stream) && StreamStateOk(Do(w, call).state, stream)
    requires w.state.store.entries <= Do(w, call).state.store.entries
    requires SegmentStart(w.state.store, stream) <= SegmentStart(Do(w, call).state.store, stream)
    requires SegmentStart(w.state.store, stream) == SegmentStart(Do(w, call).state.store, stream) ==>
      TipCheckpoint(w.state.store, stream) == TipCheckpoint(Do(w, call).state.store, stream)
    requires c in Do(w, call).closes
    ensures var w' := Do(w, call);
      RowIsOwn(w'.closes[c]) && (w'.closes[c].stream == stream ==> Knows(w'.state.store, w'.closes[c]))
  {
    hide SegmentStart, TipCheckpoint, Do, Describes, StreamOk, Advance, RecordOk;
    var w' := Do(w, call);
    OneCloserAdvances(w, call, c);
    if w'.closes[c].stream == stream && c in w.closes {
      hide Knows;
      if w'.closes[c] == w.closes[c] {
        KnowsStays(w.state.store, w'.state.store, w.closes[c]);
      } else {
        assert Advance(w.state.store, w.closes[c], call) == Some(w'.closes[c]);
        AdvanceKeepsStream(w.state.store, w.closes[c], call);
        KnowsMore(w.state.store, w.closes[c], call);
      }
    }
  }

  lemma AdvanceKeepsStream(t: Store, k: Closing, call: Call)
    ensures var k' := Advance(t, k, call);
      k'.Some? ==> k'.value.stream == k.stream && k'.value.start == k.start
  {
    hide Head, Range, LeafHashes, TipCheckpoint, MTH;
  }

  /** A call that inserts no segment of the stream keeps it sound, and its next start. */
  lemma {:induction false} CallKeepsSound(w: World, call: Call, stream: Text)
    requires Sound(w, stream) && !InsertsOn(w, call, stream)
    ensures Sound(Do(w, call), stream)
    ensures SegmentStart(Do(w, call).state.store, stream) == SegmentStart(w.state.store, stream)
  {
    hide Do, InsertsOn, StreamOk, SegmentStart, TipCheckpoint, Knows, RowIsOwn, FilterStream;
    CallSpares(w, call, stream);
    SparedStream(w.state.store, Do(w, call).state.store, stream);
    forall c | c in Do(w, call).closes
      ensures RowIsOwn(Do(w, call).closes[c])
      ensures Do(w, call).closes[c].stream == stream ==> Knows(Do(w, call).state.store, Do(w, call).closes[c])
    {
      CallKeepsKnowledge(w, call, stream, c);
    }
  }

  /** An insert on the stream keeps it sound exactly when it is fresh. */
  lemma {:induction false} InsertKeepsSoundIff(w: World, call: Call, stream: Text)
    requires Sound(w, stream) && InsertsOn(w, call, stream)
    ensures StreamStateOk(Do(w, call).state, stream) <==> InsertIsFresh(w, call, stream)
    ensures InsertIsFresh(w, call, stream) ==> Sound(Do(w, call), stream)
    ensures w.state.store.entries == Do(w, call).state.store.entries
  {
    hide StreamOk, SegmentStart, TipCheckpoint, LeafEntries, Describes, FilterStream, RecordOk;
    var k := w.closes[call.c];
    var t := w.state.store;
    assert Knows(t, k);
    if InsertIsFresh(w, call, stream) {
      FreshInsertIsOk(w.state, stream, k.row, k.rows);
      forall c | c in Do(w, call).closes
        ensures RowIsOwn(Do(w, call).closes[c])
        ensures Do(w, call).closes[c].stream == stream ==> Knows(Do(w, call).state.store, Do(w, call).closes[c])
      {
        CallKeepsKnowledge(w, call, stream, c);
      }
    } else {
      StaleInsertIsNotOk(t, stream, k.start, k.row, k.rows);
    }
  }

  /** Under any schedule of any calls: the stream's segments and head record are sound at every moment
      exactly when every insert of a segment of the stream was fresh. */
  lemma {:induction false} AlwaysOkIff(w: World, calls: seq<Call>, stream: Text)
    requires Sound(w, stream)
    ensures AlwaysOk(w, calls, stream) <==> InsertsAreFresh(w, calls, stream)
    ensures InsertsAreFresh(w, calls, stream) ==> Sound(DoAll(w, calls), stream)
  {
    hide Do, InsertsOn, Sound, StreamStateOk;
    if calls == [] {
      SoundIsOk(w, stream);
    } else {
      var before, call := DoAll(w, Front(calls)), Last(calls);
      AlwaysOkIff(w, Front(calls), stream);
      if InsertsAreFresh(w, Front(calls), stream) {
        if InsertsOn(before, call, stream) {
          InsertKeepsSoundIff(before, call, stream);
        } else {
          CallKeepsSound(before, call, stream);
          SoundIsOk(Do(before, call), stream);
        }
      }
    }
  }

  lemma SoundIsOk(w: World, stream: Text)
    requires Sound(w, stream)
    ensures StreamStateOk(w.state, stream) && SegmentsOk(w.state.store, stream)
  {
  }

  // ----- One closer per stream -----

  /** At most one closer is in the middle of closing the stream. */
  ghost predicate OneCloser(w: World, stream: Text) {
    forall b, c | b in w.closes && c in w.closes && w.closes[b].stream == stream && w.closes[c].stream == stream ::
      b == c
  }

  /** So it stays in every state of the schedule. */
  ghost predicate AlwaysOneCloser(w: World, calls: seq<Call>, stream: Text) {
    && OneCloser(DoAll(w, calls), stream)
    && (calls != [] ==> AlwaysOneCloser(w, Front(calls), stream))
  }

  /** Every closer of the stream still holds its next start. */
  ghost predicate StartsHeld(w: World, stream: Text) {
    forall c | c in w.closes && w.closes[c].stream == stream :: w.closes[c].start == SegmentStart(w.state.store, stream)
  }

  lemma HeldStartIsFresh(w: World, call: Call, stream: Text)
    requires StartsHeld(w, stream)
    ensures InsertIsFresh(w, call, stream)
  {
  }

  lemma InsertClosesOne(w: World, c: nat)
    requires c in w.closes && w.closes[c].KnowsTip?
    ensures Do(w, InsertClosed(c)).closes == w.closes - {c}
  {
    hide InsertSegment;
  }

  lemma {:induction false} CallKeepsStarts(w: World, call: Call, stream: Text)
    requires Sound(w, stream) && StartsHeld(w, stream) && OneCloser(w, stream)
    ensures StartsHeld(Do(w, call), stream)
  {
    hide Do, SegmentStart, StreamStateOk, Knows, Advance, SeqnosOk;
    var w' := Do(w, call);
    if InsertsOn(w, call, stream) {
      InsertClosesOne(w, call.c);
    } else {
      CallKeepsSound(w, call, stream);
      forall c | c in w'.closes && w'.closes[c].stream == stream
        ensures w'.closes[c].start == SegmentStart(w'.state.store, stream)
      {
        OneCloserAdvances(w, call, c);
        if c in w.closes {
          AdvanceKeepsStream(w.state.store, w.closes[c], call);
        }
      }
    }
  }

  /** A stream that at every moment has at most one closer stays sound, whatever appenders, signers and
      the closers of other streams do in between, including racing one another. */
  lemma {:induction false} OneCloserSuffices(w: World, calls: seq<Call>, stream: Text)
    requires Sound(w, stream) && StartsHeld(w, stream) && AlwaysOneCloser(w, calls, stream)
    ensures Sound(DoAll(w, calls), stream) && StartsHeld(DoAll(w, calls), stream)
    ensures AlwaysOk(w, calls, stream)
  {
    hide Do, Sound, StreamStateOk, StartsHeld, InsertIsFresh;
    if calls != [] {
      var before, call := DoAll(w, Front(calls)), Last(calls);
      OneCloserSuffices(w, Front(calls), stream);
      AlwaysOkIff(w, Front(calls), stream);
      HeldStartIsFresh(before, call, stream);
      CallKeepsStarts(before, call, stream);
    }
    AlwaysOkIff(w, calls, stream);
  }
}
