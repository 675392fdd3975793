/** The witness table of the SQLite store and its garbage collector. */
module SqliteWitnessLog {
  import opened Basics
  import opened Records
  import opened WitnessGc

  class WitnessTable {
    var rows: seq<WitnessRow>

    /** The primary key. */
    ghost predicate Valid()
      reads this
    {
      UniqueIds(rows)
    }

    constructor ()
      ensures Valid() && rows == []
    {
      rows := [];
    }

    /** `DELETE FROM witness_log WHERE id = ?1`. */
    method DeleteById(id: int)
      modifies this
      ensures rows == WithoutIds(old(rows), {id})
    {
      var kept: seq<WitnessRow> := [];
      var i := 0;
      while i < |rows|
        invariant i <= |rows| && rows == old(rows)
        invariant kept == WithoutIds(rows[..i], {id})
      {
        assert Front(rows[..i + 1]) == rows[..i];
        if rows[i].id != id {
          kept := kept + [rows[i]];
        }
        i := i + 1;
      }
      assert rows[..i] == rows;
      rows := kept;
    }

    /** The inner loop of `witness_log_gc`: deletes the candidates of one stream that are not kept. */
    method DeleteCandidates(candidates: seq<int>, keepIds: set<int>, ghost was: seq<WitnessRow>,
            ghost streamId: Option<Text>, ghost keepLatest: Option<nat>, ghost olderThan: Option<Text>,
            ghost streams: seq<Text>, ghost gone: seq<int>)
      returns (deleted: nat)
      requires UniqueIds(was) && rows == WithoutIds(was, IdSet(gone))
      requires Collected(was, streamId, keepLatest, olderThan, streams, gone + NotIn(candidates, keepIds))
      modifies this
      ensures rows == WithoutIds(was, IdSet(gone + NotIn(candidates, keepIds)))
      ensures deleted == |old(rows)| - |rows|
    {
      hide WithoutIds, NotIn, Doomed, Collected, UniqueIds;
      ghost var more := NotIn(candidates, keepIds);
      ghost var done: seq<int> := [];
      deleted := 0;
      assert gone + [] == gone && candidates[..0] == [];
      NotInOfNone(keepIds);
      var j := 0;
      while j < |candidates|
        invariant j <= |candidates| && done == NotIn(candidates[..j], keepIds)
        invariant rows == WithoutIds(was, IdSet(gone + done)) && deleted == |old(rows)| - |rows|
      {
        NotInStep(candidates, j, keepIds);
        if candidates[j] !in keepIds {
          NotInIsPrefix(candidates, j + 1, keepIds);
          assert gone + (done + [candidates[j]]) == gone + done + [candidates[j]];
          DeleteCollected(was, streamId, keepLatest, olderThan, streams, gone + more, gone + done, candidates[j]);
          DeleteById(candidates[j]);
          done := done + [candidates[j]];
          deleted := deleted + 1;
        }
        j := j + 1;
      }
      assert candidates[..j] == candidates;
    }

    /** `witness_log_gc`. What `SELECT DISTINCT stream_id` returns when no stream is given, in
        its unspecified order, is a parameter. */
    method Gc(streamId: Option<Text>, keepLatest: Option<nat>, olderThan: Option<Text>, distinct: seq<Text>)
      returns (totalDeleted: nat)
      requires Valid()
      requires streamId.None? ==> Enumerates(distinct, rows)
      modifies this
      ensures Valid()
      ensures rows == Survivors(old(rows), streamId, keepLatest, olderThan)
      ensures totalDeleted == |old(rows)| - |rows|
    {
      hide Valid, WithoutIds, LatestIds, NotIn, OlderIds, Less, Doomed, Collected, UniqueIds;
      ghost var was := rows;
      ghost var gone: seq<int> := [];
      assert UniqueIds(was) by { ValidMeansUnique(); }
      var streams := if streamId.Some? then [streamId.value] else distinct;
      totalDeleted := 0;
      WithoutNone(was);
      NothingCollected(was, streamId, keepLatest, olderThan);
      assert IdSet(gone) == {};
      var i := 0;
      while i < |streams|
        invariant i <= |streams|
        invariant Collected(was, streamId, keepLatest, olderThan, streams[..i], gone)
        invariant rows == WithoutIds(was, IdSet(gone)) && totalDeleted == |was| - |rows|
      {
        var sid := streams[i];
        assert sid !in streams[..i];
        OtherStreamsGone(was, streamId, keepLatest, olderThan, streams[..i], gone, sid);
        var keepIds := LatestIds(rows, sid, keepLatest);
        ghost var more := Expired(OfStream(was, sid), keepIds, olderThan);
        OfStreamLists(was, sid);
        CollectOneMore(was, streamId, keepLatest, olderThan, streams[..i], sid, gone, OfStream(was, sid));
        assert streams[..i + 1] == streams[..i] + [sid];
        if !(keepIds == {} && olderThan.None?) {
          assert more == NotIn(OlderIds(OfStream(rows, sid), olderThan), keepIds);
          var deleted := DeleteCandidates(OlderIds(OfStream(rows, sid), olderThan), keepIds, was, streamId,
                                          keepLatest, olderThan, streams[..i + 1], gone);
          totalDeleted := totalDeleted + deleted;
        } else {
          assert gone + more == gone;
        }
        gone := gone + more;
        i := i + 1;
      }
      assert streams[..i] == streams;
      CollectedAll(was, streamId, keepLatest, olderThan, streams, gone);
      assert Valid() by { WithoutKeepsUnique(was, IdSet(gone)); UniqueMeansValid(); }
    }

    lemma ValidMeansUnique()
      requires Valid()
      ensures UniqueIds(rows)
    {
    }

    lemma UniqueMeansValid()
      requires UniqueIds(rows)
      ensures Valid()
    {
    }
  }

  lemma NotInOfNone(kept: set<int>)
    ensures NotIn([], kept) == []
  {
  }

  lemma {:induction false} NotInStep(ids: seq<int>, j: nat, kept: set<int>)
    requires j < |ids|
    ensures NotIn(ids[..j + 1], kept)
      == if ids[j] in kept then NotIn(ids[..j], kept) else NotIn(ids[..j], kept) + [ids[j]]
  {
    assert Front(ids[..j + 1]) == ids[..j];
  }

  lemma {:induction false} NotInIsPrefix(ids: seq<int>, j: nat, kept: set<int>)
    requires j <= |ids|
    ensures NotIn(ids[..j], kept) <= NotIn(ids, kept)
    decreases |ids| - j
  {
    if j == |ids| {
      assert ids[..j] == ids;
    } else {
      NotInIsPrefix(ids, j + 1, kept);
      NotInStep(ids, j, kept);
    }
  }
}
