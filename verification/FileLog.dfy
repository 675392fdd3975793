/** The operation log of the file store as a value: what each logged operation does to the tables,
    and what holds of every log the store itself writes. */
module FileLog {
  import opened Basics
  import opened Records
  import opened Tables
  import opened WitnessGc
  import opened Engine

  /** One logged operation. */
  datatype Op =
    | PutEntry(row: Row)
    | PutSegment(segment: SegmentRow, leaves: seq<(nat, nat)>)
    | SetSignature(segmentId: nat, signature: Bytes, identity: Text)
    | PutWitness(record: WitnessRow)
    | DropWitness(id: int)
    | PutStream(stream: StreamRow)
    | SetTier(name: Text, tier: Text)
    | SetDeprecated(name: Text, at: Text)

  const BLANK := Store([], [], [], [], [], 0, 0)

  function Max(a: int, b: int): int {
    if a > b then a else b
  }

  function Leaves(id: nat, pairs: seq<(nat, nat)>): seq<SegmentEntry> {
    if pairs == [] then [] else Leaves(id, Front(pairs)) + [SegmentEntry(id, Last(pairs).0, Last(pairs).1)]
  }

  function WithTier(streams: seq<StreamRow>, name: Text, tier: Text): seq<StreamRow> {
    if streams == [] then []
    else if streams[0].name == name then [streams[0].(tier := tier)] + streams[1..]
    else [streams[0]] + WithTier(streams[1..], name, tier)
  }

  /** `Model::apply`. */
  function ApplyOp(t: Store, op: Op): Store {
    match op
    case PutEntry(row) => t.(entries := t.entries + [row])
    case PutSegment(segment, leaves) =>
      t.(segments := t.segments + [segment],
         segmentEntries := t.segmentEntries + Leaves(segment.segmentId, leaves),
         nextSegmentId := Max(t.nextSegmentId, segment.segmentId + 1))
    case SetSignature(id, signature, identity) => t.(segments := WithSignature(t.segments, id, signature, identity))
    case PutWitness(w) => t.(witnesses := t.witnesses + [w], nextWitnessId := Max(t.nextWitnessId, w.id + 1))
    case DropWitness(id) => t.(witnesses := WithoutIds(t.witnesses, {id}))
    case PutStream(row) => t.(streams := UpsertStream(t.streams, row))
    case SetTier(name, tier) => t.(streams := WithTier(t.streams, name, tier))
    case SetDeprecated(name, at) => t.(streams := WithDeprecation(t.streams, name, at))
  }

  /** The fold of `apply` over the log. */
  function Replay(log: seq<Op>): Store {
    if log == [] then BLANK else ApplyOp(Replay(Front(log)), Last(log))
  }

  lemma {:induction false} ReplayGrows(log: seq<Op>, op: Op)
    ensures Replay(log + [op]) == ApplyOp(Replay(log), op)
  {
    hide ApplyOp;
    assert Front(log + [op]) == log;
  }

  // ----- Logs the store writes -----

  function NewWitnessId(t: Store): int {
    Max(t.nextWitnessId, 1)
  }

  /** The operations the store's own methods commit in a state. */
  ghost predicate MayCommit(t: Store, op: Op) {
    match op
    case PutEntry(row) => !HasSeqno(t.entries, row.seqno)
    case PutSegment(segment, leaves) => segment.segmentId == NewSegmentId(t)
    case SetSignature(id, signature, identity) => SegmentGet(t.segments, id).Some?
    case PutWitness(w) => w.id == NewWitnessId(t)
    case DropWitness(id) => true
    case PutStream(row) => true
    case SetTier(name, tier) => StreamGet(t.streams, name).Some?
    case SetDeprecated(name, at) => StreamGet(t.streams, name).Some?
  }

  ghost predicate Written(log: seq<Op>) {
    log == [] || (Written(Front(log)) && MayCommit(Replay(Front(log)), Last(log)))
  }

  /** The next ids lie above every id ever logged, deleted rows included, and never fall. */
  lemma {:induction false} NextIdsAreAbove(log: seq<Op>, i: nat)
    requires i < |log|
    ensures log[i].PutSegment? ==> Replay(log).nextSegmentId > log[i].segment.segmentId
    ensures log[i].PutWitness? ==> Replay(log).nextWitnessId > log[i].record.id
  {
    hide WithSignature, UpsertStream, WithTier, WithDeprecation, WithoutIds, Leaves;
    if i < |log| - 1 {
      NextIdsAreAbove(Front(log), i);
    }
  }

  lemma {:induction false} WrittenPrefix(log: seq<Op>, j: nat)
    requires Written(log) && j <= |log|
    ensures Written(log[..j])
    decreases |log|
  {
    hide MayCommit;
    if j == |log| {
      assert log[..j] == log;
    } else {
      assert Front(log)[..j] == log[..j];
      WrittenPrefix(Front(log), j);
    }
  }

  /** Segment and witness ids are never reused, also after deletions and reloads: in any log the store
      writes, a later inserted row has a larger id than every earlier one. */
  lemma {:induction false} IdsAreNeverReused(log: seq<Op>, i: nat, j: nat)
    requires Written(log) && i < j < |log|
    ensures log[i].PutSegment? && log[j].PutSegment? ==> 1 <= log[i].segment.segmentId < log[j].segment.segmentId
    ensures log[i].PutWitness? && log[j].PutWitness? ==> 1 <= log[i].record.id < log[j].record.id
  {
    hide Replay, HasSeqno;
    WrittenPrefix(log, i + 1);
    WrittenPrefix(log, j + 1);
    assert Front(log[..i + 1]) == log[..i] && Front(log[..j + 1]) == log[..j];
    NextIdsAreAbove(log[..j], i);
  }

  ghost predicate UniqueSeqnos(entries: seq<Row>) {
    forall i, j | 0 <= i < j < |entries| :: entries[i].seqno != entries[j].seqno
  }

  /** In the tables of a log the store writes, seqnos are unique, and so are witness ids, which come
      in increasing order below the next one. */
  lemma {:induction false} WrittenIsUnique(log: seq<Op>)
    requires Written(log)
    ensures UniqueSeqnos(Replay(log).entries)
    ensures UniqueIds(Replay(log).witnesses)
    ensures forall i | 0 <= i < |Replay(log).witnesses| :: Replay(log).witnesses[i].id < Replay(log).nextWitnessId
  {
    hide WithSignature, UpsertStream, WithTier, WithDeprecation, WithoutIds, Leaves, SegmentGet, StreamGet,
         NewSegmentId;
    if log != [] {
      WrittenIsUnique(Front(log));
      var t := Replay(Front(log));
      if Last(log).DropWitness? {
        DropKeepsUnique(t.witnesses, Last(log).id, t.nextWitnessId);
      }
    }
  }

  lemma {:induction false} DropKeepsUnique(ws: seq<WitnessRow>, id: int, bound: int)
    requires UniqueIds(ws) && forall i | 0 <= i < |ws| :: ws[i].id < bound
    ensures UniqueIds(WithoutIds(ws, {id}))
    ensures forall i | 0 <= i < |WithoutIds(ws, {id})| :: WithoutIds(ws, {id})[i].id < bound
  {
    hide WithoutIds;
    WithoutKeepsUnique(ws, {id});
    var rest := WithoutIds(ws, {id});
    forall i | 0 <= i < |rest| ensures rest[i].id < bound {
      WithoutIdsMembers(ws, {id}, rest[i]);
    }
  }

  // ----- The engine's updates are logged operations -----

  /** The leaf pairs of `close_segment`: the seqnos in row order, numbered from zero. */
  function LeafPairs(rows: seq<Row>): (pairs: seq<(nat, nat)>)
    ensures |pairs| == |rows|
  {
    if rows == [] then [] else LeafPairs(Front(rows)) + [(Last(rows).seqno, |rows| - 1)]
  }

  lemma {:induction false} LeavesOfPairs(id: nat, rows: seq<Row>)
    ensures Leaves(id, LeafPairs(rows)) == LeafEntries(id, rows)
  {
    if rows != [] {
      LeavesOfPairs(id, Front(rows));
    }
  }

  lemma {:induction false} SegmentIsLogged(t: Store, row: SegmentRow, rows: seq<Row>)
    ensures ApplyOp(t, PutSegment(row.(segmentId := NewSegmentId(t)), LeafPairs(rows))) == InsertSegment(t, row, rows).0
  {
    hide Leaves, LeafEntries;
    LeavesOfPairs(NewSegmentId(t), rows);
  }

  // ----- Seeding and reopening -----

  /** The log after `init_store`: with the default stream's row appended if its replay has none. */
  function Seeded(log: seq<Op>): seq<Op> {
    if StreamGet(Replay(log).streams, DEFAULT_STREAM).Some? then log else log + [PutStream(SEED)]
  }

  lemma {:induction false} SeedIsWritten(log: seq<Op>)
    requires Written(log)
    ensures Written(log + [PutStream(SEED)])
  {
    hide Replay, SEED;
    assert Front(log + [PutStream(SEED)]) == log;
  }

  lemma {:induction false} UpsertKeepsStreams(streams: seq<StreamRow>, row: StreamRow, name: Text)
    ensures StreamGet(UpsertStream(streams, row), name).Some? <==> StreamGet(streams, name).Some? || row.name == name
  {
    if streams != [] && streams[0].name != row.name {
      UpsertKeepsStreams(streams[1..], row, name);
      assert ([streams[0]] + UpsertStream(streams[1..], row))[1..] == UpsertStream(streams[1..], row);
    }
  }

  lemma {:induction false} TierKeepsStreams(streams: seq<StreamRow>, target: Text, tier: Text, name: Text)
    ensures StreamGet(WithTier(streams, target, tier), name).Some? <==> StreamGet(streams, name).Some?
  {
    if streams != [] && streams[0].name != target {
      TierKeepsStreams(streams[1..], target, tier, name);
    }
  }

  /** Setting a tier changes that column of the one stream. */
  lemma {:induction false} TierSetsOne(streams: seq<StreamRow>, target: Text, tier: Text, name: Text)
    ensures StreamGet(WithTier(streams, target, tier), name)
      == if name == target && StreamGet(streams, name).Some? then Some(StreamGet(streams, name).value.(tier := tier))
         else StreamGet(streams, name)
  {
    if streams != [] && streams[0].name != target {
      TierSetsOne(streams[1..], target, tier, name);
      assert ([streams[0]] + WithTier(streams[1..], target, tier))[1..] == WithTier(streams[1..], target, tier);
    } else if streams != [] {
      assert ([streams[0].(tier := tier)] + streams[1..])[1..] == streams[1..];
    }
  }

  lemma {:induction false} DeprecationKeepsStreams(streams: seq<StreamRow>, target: Text, at: Text, name: Text)
    ensures StreamGet(WithDeprecation(streams, target, at), name).Some? <==> StreamGet(streams, name).Some?
  {
    if streams != [] && streams[0].name != target {
      DeprecationKeepsStreams(streams[1..], target, at, name);
    }
  }

  /** No operation removes a stream. */
  lemma {:induction false} StreamsStay(t: Store, op: Op, name: Text)
    requires StreamGet(t.streams, name).Some?
    ensures StreamGet(ApplyOp(t, op).streams, name).Some?
  {
    hide StreamGet, WithTier, WithDeprecation, UpsertStream, WithSignature, WithoutIds, Leaves;
    match op
    case PutStream(row) => UpsertKeepsStreams(t.streams, row, name);
    case SetTier(target, tier) => TierKeepsStreams(t.streams, target, tier, name);
    case SetDeprecated(target, at) => DeprecationKeepsStreams(t.streams, target, at, name);
    case _ =>
  }

  /** Reopening adds nothing: a log that was opened once and then extended by any operations is left
      as it is by the next `init_store`, whose tables are therefore the last writer's. */
  lemma {:induction false} ReopeningKeepsLog(log: seq<Op>, more: seq<Op>)
    ensures Seeded(Seeded(log) + more) == Seeded(log) + more
  {
    hide SEED, DEFAULT_STREAM, ApplyOp, StreamGet;
    DefaultStays(log, more);
  }

  lemma {:induction false} DefaultStays(log: seq<Op>, more: seq<Op>)
    ensures StreamGet(Replay(Seeded(log) + more).streams, DEFAULT_STREAM).Some?
  {
    hide ApplyOp, StreamGet;
    if more == [] {
      assert Seeded(log) + [] == Seeded(log);
      ReplayGrows(log, PutStream(SEED));
      SeedIsFound(Replay(log));
    } else {
      DefaultStays(log, Front(more));
      assert Seeded(log) + more == (Seeded(log) + Front(more)) + [Last(more)];
      ReplayGrows(Seeded(log) + Front(more), Last(more));
      StreamsStay(Replay(Seeded(log) + Front(more)), Last(more), DEFAULT_STREAM);
    }
  }

  lemma {:induction false} SeedIsFound(t: Store)
    ensures StreamGet(ApplyOp(t, PutStream(SEED)).streams, DEFAULT_STREAM).Some?
  {
    hide UpsertStream, StreamGet;
    UpsertKeepsStreams(t.streams, SEED, DEFAULT_STREAM);
  }
}
