/** The file-backed store: an append-only operation log on disk, and tables in memory that every
    operation updates in place after logging it. */
module FileStores {
  import opened Basics
  import opened Records
  import opened Tables
  import opened WitnessGc
  import opened StreamIds
  import opened Engine
  import opened FileLog

  /** The log file. One operation is written atomically. */
  class LogFile {
    var ops: seq<Op>

    constructor ()
      ensures ops == []
    {
      ops := [];
    }

    method AppendOp(op: Op)
      modifies this
      ensures ops == old(ops) + [op]
    {
      ops := ops + [op];
    }
  }

  function FirstSegment(segments: seq<SegmentRow>, id: nat): (i: nat)
    ensures i <= |segments|
  {
    if segments == [] || segments[0].segmentId == id then 0 else 1 + FirstSegment(segments[1..], id)
  }

  function FirstStream(streams: seq<StreamRow>, name: Text): (i: nat)
    ensures i <= |streams|
    ensures i < |streams| ==> streams[i].name == name
  {
    if streams == [] || streams[0].name == name then 0 else 1 + FirstStream(streams[1..], name)
  }

  lemma ReplaceFirst<T>(s: seq<T>, x: T)
    requires s != []
    ensures [x] + s[1..] == s[0 := x] && [s[0]] + s[1..] == s
  {
  }

  lemma ReplaceLater<T>(s: seq<T>, i: nat, x: T)
    requires i < |s| - 1
    ensures [s[0]] + s[1..][i := x] == s[i + 1 := x] && s[1..][i] == s[i + 1]
  {
  }

  lemma {:induction false} SignatureAtFirst(segments: seq<SegmentRow>, id: nat, signature: Bytes, identity: Text)
    ensures var i := FirstSegment(segments, id);
      WithSignature(segments, id, signature, identity)
      == if i < |segments| then
           segments[i := segments[i].(signature := Some(signature), signerIdentity := Some(identity))]
         else segments
    ensures SegmentGet(segments, id).Some? <==> FirstSegment(segments, id) < |segments|
  {
    if segments != [] {
      ReplaceFirst(segments, segments[0].(signature := Some(signature), signerIdentity := Some(identity)));
      if segments[0].segmentId != id {
        SignatureAtFirst(segments[1..], id, signature, identity);
        var i := FirstSegment(segments[1..], id);
        if i < |segments| - 1 {
          ReplaceLater(segments, i, segments[i + 1].(signature := Some(signature), signerIdentity := Some(identity)));
        }
      }
    }
  }

  lemma {:induction false} StreamAtFirst(streams: seq<StreamRow>, name: Text)
    ensures StreamGet(streams, name)
      == if FirstStream(streams, name) < |streams| then Some(streams[FirstStream(streams, name)]) else None
  {
    if streams != [] && streams[0].name != name {
      StreamAtFirst(streams[1..], name);
    }
  }

  lemma {:induction false} UpsertAtFirst(streams: seq<StreamRow>, row: StreamRow)
    ensures var i := FirstStream(streams, row.name);
      UpsertStream(streams, row) == if i < |streams| then streams[i := row] else streams + [row]
  {
    if streams != [] {
      ReplaceFirst(streams, row);
      if streams[0].name != row.name {
        UpsertAtFirst(streams[1..], row);
        assert [streams[0]] + (streams[1..] + [row]) == streams + [row];
        var i := FirstStream(streams[1..], row.name);
        if i < |streams| - 1 {
          ReplaceLater(streams, i, row);
        }
      }
    }
  }

  lemma {:induction false} TierAtFirst(streams: seq<StreamRow>, name: Text, tier: Text)
    ensures var i := FirstStream(streams, name);
      WithTier(streams, name, tier) == if i < |streams| then streams[i := streams[i].(tier := tier)] else streams
  {
    if streams != [] {
      ReplaceFirst(streams, streams[0].(tier := tier));
      if streams[0].name != name {
        TierAtFirst(streams[1..], name, tier);
        var i := FirstStream(streams[1..], name);
        if i < |streams| - 1 {
          ReplaceLater(streams, i, streams[i + 1].(tier := tier));
        }
      }
    }
  }

  lemma {:induction false} DeprecationAtFirst(streams: seq<StreamRow>, name: Text, at: Text)
    ensures var i := FirstStream(streams, name);
      WithDeprecation(streams, name, at)
        == if i < |streams| then streams[i := streams[i].(deprecatedAt := Some(at))] else streams
  {
    if streams != [] {
      ReplaceFirst(streams, streams[0].(deprecatedAt := Some(at)));
      if streams[0].name != name {
        DeprecationAtFirst(streams[1..], name, at);
        var i := FirstStream(streams[1..], name);
        if i < |streams| - 1 {
          ReplaceLater(streams, i, streams[i + 1].(deprecatedAt := Some(at)));
        }
      }
    }
  }

  class FileStore {
    const disk: LogFile
    var entries: seq<Row>
    var segments: seq<SegmentRow>
    var segmentEntries: seq<SegmentEntry>
    var witnesses: seq<WitnessRow>
    var streams: seq<StreamRow>
    var nextSegmentId: nat
    var nextWitnessId: int

    /** The tables as one value. */
    function State(): Store
      reads this
    {
      Store(entries, segments, segmentEntries, witnesses, streams, nextSegmentId, nextWitnessId)
    }

    /** The tables in memory are the replay of the log on disk, and the log is one that stores write. */
    ghost predicate Valid()
      reads this, disk
    {
      State() == Replay(disk.ops) && Written(disk.ops)
    }

    /** The replay of `init_store`: reads the log from the start. Any log may be read. */
    constructor Load(disk: LogFile)
      ensures this.disk == disk
      ensures State() == Replay(disk.ops)
    {
      this.disk := disk;
      entries, segments, segmentEntries, witnesses, streams := [], [], [], [], [];
      nextSegmentId, nextWitnessId := 0, 0;
      new;
      hide ApplyOp;
      var i := 0;
      assert disk.ops[..0] == [];
      while i < |disk.ops|
        invariant i <= |disk.ops|
        invariant State() == Replay(disk.ops[..i])
        modifies this
      {
        ReplayGrows(disk.ops[..i], disk.ops[i]);
        assert disk.ops[..i + 1] == disk.ops[..i] + [disk.ops[i]];
        Apply(disk.ops[i]);
        i := i + 1;
      }
      assert disk.ops[..i] == disk.ops;
    }

    /** `Model::apply`. */
    method Apply(op: Op)
      modifies this
      ensures State() == ApplyOp(old(State()), op)
    {
      hide WithSignature, UpsertStream, WithTier, WithDeprecation, WithoutIds, Leaves;
      match op {
        case PutEntry(row) =>
          entries := entries + [row];
        case PutSegment(segment, leaves) =>
          nextSegmentId := Max(nextSegmentId, segment.segmentId + 1);
          PushLeaves(segment.segmentId, leaves);
          segments := segments + [segment];
        case SetSignature(id, signature, identity) =>
          SignatureAtFirst(segments, id, signature, identity);
          var i := FirstSegment(segments, id);
          if i < |segments| {
            segments := segments[i := segments[i].(signature := Some(signature), signerIdentity := Some(identity))];
          }
        case PutWitness(w) =>
          nextWitnessId := Max(nextWitnessId, w.id + 1);
          witnesses := witnesses + [w];
        case DropWitness(id) =>
          witnesses := WithoutIds(witnesses, {id});
        case PutStream(row) =>
          UpsertAtFirst(streams, row);
          var i := FirstStream(streams, row.name);
          if i < |streams| {
            streams := streams[i := row];
          } else {
            streams := streams + [row];
          }
        case SetTier(name, tier) =>
          TierAtFirst(streams, name, tier);
          var i := FirstStream(streams, name);
          if i < |streams| {
            streams := streams[i := streams[i].(tier := tier)];
          }
        case SetDeprecated(name, at) =>
          DeprecationAtFirst(streams, name, at);
          var i := FirstStream(streams, name);
          if i < |streams| {
            streams := streams[i := streams[i].(deprecatedAt := Some(at))];
          }
      }
    }

    /** The loop of `Model::apply` over the leaves of a segment. */
    method PushLeaves(id: nat, leaves: seq<(nat, nat)>)
      modifies this`segmentEntries
      ensures segmentEntries == old(segmentEntries) + Leaves(id, leaves)
    {
      var i := 0;
      assert segmentEntries == old(segmentEntries) + Leaves(id, leaves[..0]);
      while i < |leaves|
        invariant i <= |leaves|
        invariant segmentEntries == old(segmentEntries) + Leaves(id, leaves[..i])
      {
        assert Front(leaves[..i + 1]) == leaves[..i];
        segmentEntries := segmentEntries + [SegmentEntry(id, leaves[i].0, leaves[i].1)];
        i := i + 1;
      }
      assert leaves[..i] == leaves;
    }

    /** `commit`: log the operation, then apply it. */
    method Commit(op: Op)
      requires Valid() && MayCommit(State(), op)
      modifies this, disk
      ensures Valid()
      ensures State() == ApplyOp(old(State()), op)
      ensures disk.ops == old(disk.ops) + [op]
    {
      hide ApplyOp, MayCommit;
      ReplayGrows(disk.ops, op);
      assert Front(disk.ops + [op]) == disk.ops;
      disk.AppendOp(op);
      Apply(op);
    }

    /** `secure_log_insert`. */
    method Insert(row: Row) returns (r: Result<nat>)
      requires Valid()
      modifies this, disk
      ensures Valid()
      ensures (State(), r) == InsertEntry(old(State()), row)
    {
      hide Replay, Written;
      var i := 0;
      while i < |entries|
        invariant i <= |entries|
        invariant forall j | 0 <= j < i :: entries[j].seqno != row.seqno
      {
        if entries[i].seqno == row.seqno {
          return Err(Storage(UniqueSeqno));
        }
        i := i + 1;
      }
      Commit(PutEntry(row));
      r := Ok(row.seqno);
    }

    /** `secure_log_segment_insert`. */
    method SegmentInsert(row: SegmentRow, leaves: seq<(nat, nat)>) returns (id: nat)
      requires Valid()
      modifies this, disk
      ensures Valid()
      ensures id == NewSegmentId(old(State()))
      ensures State() == ApplyOp(old(State()), PutSegment(row.(segmentId := id), leaves))
    {
      id := Max(nextSegmentId, 1);
      Commit(PutSegment(row.(segmentId := id), leaves));
    }

    /** `secure_log_segment_set_signature`. */
    method SegmentSetSignature(id: nat, signature: Bytes, identity: Text) returns (r: Result<()>)
      requires Valid()
      modifies this, disk
      ensures Valid()
      ensures if SegmentGet(old(segments), id).Some? then
          r == Ok(()) && State() == old(State()).(segments := WithSignature(old(segments), id, signature, identity))
        else
          r == Err(Storage(UnknownSegment)) && State() == old(State())
    {
      hide Replay, Written, WithSignature;
      SignatureAtFirst(segments, id, signature, identity);
      if FirstSegment(segments, id) == |segments| {
        return Err(Storage(UnknownSegment));
      }
      Commit(SetSignature(id, signature, identity));
      r := Ok(());
    }

    /** `witness_log_insert`. */
    method WitnessInsert(row: WitnessRow) returns (id: int)
      requires Valid()
      modifies this, disk
      ensures Valid()
      ensures id == NewWitnessId(old(State()))
      ensures State() == ApplyOp(old(State()), PutWitness(row.(id := id)))
      ensures forall w | w in old(witnesses) :: w.id < id
    {
      WrittenIsUnique(disk.ops);
      id := Max(nextWitnessId, 1);
      Commit(PutWitness(row.(id := id)));
    }

    /** `secure_log_stream_upsert`. */
    method StreamUpsert(row: StreamRow)
      requires Valid()
      modifies this, disk
      ensures Valid()
      ensures State() == old(State()).(streams := UpsertStream(old(streams), row))
    {
      Commit(PutStream(row));
    }

    /** `secure_log_stream_set_tier`. */
    method StreamSetTier(name: Text, tier: Text) returns (r: Result<()>)
      requires Valid()
      modifies this, disk
      ensures Valid()
      ensures if StreamGet(old(streams), name).Some? then
          r == Ok(()) && State() == old(State()).(streams := WithTier(old(streams), name, tier))
        else
          r == Err(Storage(UnknownStream)) && State() == old(State())
    {
      hide Replay, Written, WithTier;
      StreamAtFirst(streams, name);
      if FirstStream(streams, name) == |streams| {
        return Err(Storage(UnknownStream));
      }
      Commit(SetTier(name, tier));
      r := Ok(());
    }

    /** `secure_log_stream_deprecate`. */
    method StreamDeprecate(name: Text, at: Text) returns (r: Result<()>)
      requires Valid()
      modifies this, disk
      ensures Valid()
      ensures (State(), r) == DeprecateStream(old(State()), name, at)
    {
      hide Replay, Written, WithDeprecation;
      StreamAtFirst(streams, name);
      if FirstStream(streams, name) == |streams| {
        return Err(Storage(UnknownStream));
      }
      Commit(SetDeprecated(name, at));
      r := Ok(());
    }

    /** `witness_log_gc`: collects the ids of every selected stream, then logs one deletion per id. */
    method WitnessLogGc(streamId: Option<Text>, keepLatest: Option<nat>, olderThan: Option<Text>) returns (deleted: nat)
      requires Valid()
      modifies this, disk
      ensures Valid()
      ensures State() == old(State()).(witnesses := Survivors(old(witnesses), streamId, keepLatest, olderThan))
      ensures deleted == |old(witnesses)| - |witnesses|
    {
      hide Replay, Written, Survivors, DistinctStreams;
      ghost var was := witnesses;
      WrittenIsUnique(disk.ops);
      DistinctStreamsEnumerate(witnesses);
      var streams := if streamId.Some? then [streamId.value] else DistinctStreams(witnesses);
      var toDelete := CollectExpired(streams, streamId, keepLatest, olderThan);
      deleted := DeleteAll(toDelete, streams, streamId, keepLatest, olderThan);
      CollectedAll(was, streamId, keepLatest, olderThan, streams, toDelete);
      SurvivorsAre(was, streamId, keepLatest, olderThan);
    }

    lemma SurvivorsAre(ws: seq<WitnessRow>, stream: Option<Text>, keep: Option<nat>, cutoff: Option<Text>)
      ensures Survivors(ws, stream, keep, cutoff) == WithoutIds(ws, DoomedIds(ws, stream, keep, cutoff))
    {
    }

    /** The first loop of `witness_log_gc`. */
    method CollectExpired(streams: seq<Text>, streamId: Option<Text>, keepLatest: Option<nat>, olderThan: Option<Text>)
      returns (toDelete: seq<int>)
      requires UniqueIds(witnesses)
      requires forall i, j | 0 <= i < j < |streams| :: streams[i] != streams[j]
      requires streamId.Some? ==> streams == [streamId.value]
      ensures Collected(witnesses, streamId, keepLatest, olderThan, streams, toDelete)
    {
      hide Collected, Doomed, LatestIds, OlderIds, NotIn, ById, UniqueIds, Lists;
      toDelete := [];
      NothingCollected(witnesses, streamId, keepLatest, olderThan);
      var i := 0;
      while i < |streams|
        invariant i <= |streams|
        invariant Collected(witnesses, streamId, keepLatest, olderThan, streams[..i], toDelete)
      {
        var sid := streams[i];
        assert sid !in streams[..i];
        var ws := ById(witnesses, sid);
        var keep := LatestIds(witnesses, sid, keepLatest);
        ByIdLists(witnesses, sid);
        CollectOneMore(witnesses, streamId, keepLatest, olderThan, streams[..i], sid, toDelete, ws);
        assert streams[..i + 1] == streams[..i] + [sid];
        if keep == {} && olderThan.None? {
          assert toDelete + [] == toDelete;
        } else {
          var more := ExpiredOf(ws, keep, olderThan);
          toDelete := toDelete + more;
        }
        i := i + 1;
      }
      assert streams[..i] == streams;
    }

    /** The inner loop over the rows of one stream. */
    static method ExpiredOf(ws: seq<WitnessRow>, keep: set<int>, olderThan: Option<Text>) returns (ids: seq<int>)
      ensures ids == NotIn(OlderIds(ws, olderThan), keep)
    {
      hide Less, NotIn, OlderIds;
      ids := [];
      NotInOfNothing(ws, keep, olderThan);
      var i := 0;
      while i < |ws|
        invariant i <= |ws| && ids == NotIn(OlderIds(ws[..i], olderThan), keep)
      {
        ExpiredStep(ws, i, keep, olderThan);
        var w := ws[i];
        i := i + 1;
        if w.id in keep {
          continue;
        }
        if olderThan.Some? && !Less(w.receivedAt, olderThan.value) {
          continue;
        }
        ids := ids + [w.id];
      }
      assert ws[..i] == ws;
    }

    /** The second loop of `witness_log_gc`. */
    method DeleteAll(ids: seq<int>, ghost streams: seq<Text>, ghost streamId: Option<Text>,
            ghost keepLatest: Option<nat>, ghost olderThan: Option<Text>)
      returns (deleted: nat)
      requires Valid() && UniqueIds(witnesses)
      requires Collected(witnesses, streamId, keepLatest, olderThan, streams, ids)
      modifies this, disk
      ensures Valid()
      ensures State() == old(State()).(witnesses := WithoutIds(old(witnesses), IdSet(ids)))
      ensures deleted == |ids| == |old(witnesses)| - |witnesses|
    {
      hide Replay, Written, WithoutIds, Collected, Doomed, UniqueIds;
      deleted := 0;
      WithoutNone(witnesses);
      assert IdSet(ids[..0]) == {};
      while deleted < |ids|
        invariant Valid() && deleted <= |ids|
        invariant State() == old(State()).(witnesses := WithoutIds(old(witnesses), IdSet(ids[..deleted])))
        invariant deleted == |old(witnesses)| - |witnesses|
      {
        assert ids[..deleted] + [ids[deleted]] == ids[..deleted + 1];
        DeleteCollected(old(witnesses), streamId, keepLatest, olderThan, streams, ids, ids[..deleted], ids[deleted]);
        Commit(DropWitness(ids[deleted]));
        deleted := deleted + 1;
      }
      assert ids[..deleted] == ids;
    }
  }

  lemma NotInOfNothing(ws: seq<WitnessRow>, keep: set<int>, olderThan: Option<Text>)
    ensures NotIn(OlderIds(ws[..0], olderThan), keep) == []
  {
  }

  lemma {:induction false} ExpiredStep(ws: seq<WitnessRow>, i: nat, keep: set<int>, olderThan: Option<Text>)
    requires i < |ws|
    ensures NotIn(OlderIds(ws[..i + 1], olderThan), keep)
      == if ws[i].id in keep || !IsOlder(ws[i], olderThan) then NotIn(OlderIds(ws[..i], olderThan), keep)
         else NotIn(OlderIds(ws[..i], olderThan), keep) + [ws[i].id]
  {
    hide Less;
    assert Front(ws[..i + 1]) == ws[..i];
    var older := OlderIds(ws[..i], olderThan);
    assert Front(older + [ws[i].id]) == older;
  }

  /** `init_store`: replay, then seed the default stream if the log has none. Reopening a log that
      stores wrote gives a store with exactly the tables its last writer had, plus the seed if absent. */
  method InitStore(config: Text, disk: LogFile) returns (r: Result<FileStore>)
    modifies disk
    ensures config == [] ==> r == Err(Storage(EmptyConfig)) && disk.ops == old(disk.ops)
    ensures config != [] ==> r.Ok? && fresh(r.value) && r.value.disk == disk && r.value.State() == Replay(disk.ops)
    ensures config != [] ==> disk.ops == Seeded(old(disk.ops))
    ensures config != [] && Written(old(disk.ops)) ==> r.value.Valid()
  {
    hide Replay, Written, ApplyOp;
    if config == [] {
      return Err(Storage(EmptyConfig));
    }
    var store := new FileStore.Load(disk);
    StreamAtFirst(store.streams, DEFAULT_STREAM);
    if FirstStream(store.streams, DEFAULT_STREAM) == |store.streams| {
      ReplayGrows(disk.ops, PutStream(SEED));
      if Written(disk.ops) {
        SeedIsWritten(disk.ops);
      }
      disk.AppendOp(PutStream(SEED));
      store.Apply(PutStream(SEED));
    }
    r := Ok(store);
  }
}
