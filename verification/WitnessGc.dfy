/** Garbage collection of the witness log: which rows go, stated once. The versions of the file store
    (FileStore.dfy) and of the SQLite store (SqliteWitnessLog.dfy) are both proved against it. */
module WitnessGc {
  import opened Basics
  import opened Records
  import opened Sorting

  // ----- Text order -----

  /** Byte-wise lexicographic order, as `String` comparison and SQLite's default collation. */
  predicate Less(a: Text, b: Text) {
    b != [] && (a == [] || a[0] < b[0] || (a[0] == b[0] && Less(a[1..], b[1..])))
  }

  /** The text is a proper beginning of the other one, or smaller at the first byte where they differ. */
  ghost predicate Precedes(a: Text, b: Text) {
    exists n :: 0 <= n <= |a| && PrecedesAt(a, b, n)
  }

  predicate PrecedesAt(a: Text, b: Text, n: nat)
    requires n <= |a|
  {
    n < |b| && a[..n] == b[..n] && (n == |a| || a[n] < b[n])
  }

  lemma {:induction false} PrecedesFirst(a: Text, b: Text, n: nat)
    requires n <= |a| && PrecedesAt(a, b, n)
    ensures b != [] && (a == [] || a[0] <= b[0])
    ensures a != [] && n > 0 ==> a[0] == b[0]
  {
    if n > 0 {
      assert a[0] == a[..n][0] && b[0] == b[..n][0];
    }
  }

  /** The order the stores compare by is that one. */
  lemma {:induction false} LessIsPrecedes(a: Text, b: Text)
    ensures Less(a, b) <==> Precedes(a, b)
  {
    if a == [] || b == [] || a[0] != b[0] {
      if b != [] && (a == [] || a[0] < b[0]) {
        assert PrecedesAt(a, b, 0);
      }
      if n :| 0 <= n <= |a| && PrecedesAt(a, b, n) {
        PrecedesFirst(a, b, n);
      }
    } else {
      LessIsPrecedes(a[1..], b[1..]);
      if n :| 0 <= n <= |a[1..]| && PrecedesAt(a[1..], b[1..], n) {
        assert a[..n + 1] == [a[0]] + a[1..][..n] && b[..n + 1] == [b[0]] + b[1..][..n];
        assert PrecedesAt(a, b, n + 1);
      }
      if n :| 0 <= n <= |a| && PrecedesAt(a, b, n) {
        assert n > 0;
        assert a[1..][..n - 1] == a[..n][1..] && b[1..][..n - 1] == b[..n][1..];
        assert PrecedesAt(a[1..], b[1..], n - 1);
      }
    }
  }

  lemma {:induction false} LessIsTotal(a: Text, b: Text)
    ensures Less(a, b) || a == b || Less(b, a)
    ensures !(Less(a, b) && Less(b, a)) && !Less(a, a)
  {
    if a != [] && b != [] {
      LessIsTotal(a[1..], b[1..]);
      LessIsTotal(a[1..], a[1..]);
      assert a == [a[0]] + a[1..] && b == [b[0]] + b[1..];
    } else if a != [] {
      LessIsTotal(a[1..], a[1..]);
    }
  }

  lemma {:induction false} LessIsTransitive(a: Text, b: Text, c: Text)
    requires Less(a, b) && Less(b, c)
    ensures Less(a, c)
  {
    if a != [] && a[0] == b[0] == c[0] {
      LessIsTransitive(a[1..], b[1..], c[1..]);
    }
  }

  // ----- Which rows go -----

  const BY_WITNESS_ID: WitnessRow -> int := (w: WitnessRow) => w.id

  /** The rows of the same stream with a larger id. */
  ghost function Newer(ws: seq<WitnessRow>, w: WitnessRow): set<WitnessRow> {
    set v | v in ws && v.streamId == w.streamId && v.id > w.id
  }

  /** The rows `witness_log_gc` deletes: those of the selected streams outside the k largest ids of
      their stream and older than the cutoff if one is given; none when nothing is kept by number
      and there is no cutoff. */
  ghost predicate Doomed(ws: seq<WitnessRow>, stream: Option<Text>, keep: Option<nat>, cutoff: Option<Text>,
          w: WitnessRow)
  {
    && (stream.Some? ==> w.streamId == stream.value)
    && (keep.Some? ==> |Newer(ws, w)| >= keep.value)
    && (cutoff.Some? ==> Precedes(w.receivedAt, cutoff.value))
    && (cutoff.Some? || (keep.Some? && keep.value > 0))
  }

  /** The rows whose id is not in the set, in order. */
  function WithoutIds(ws: seq<WitnessRow>, ids: set<int>): (r: seq<WitnessRow>)
    ensures |r| <= |ws|
  {
    if ws == [] then []
    else if Last(ws).id in ids then WithoutIds(Front(ws), ids)
    else WithoutIds(Front(ws), ids) + [Last(ws)]
  }

  ghost function DoomedIds(ws: seq<WitnessRow>, stream: Option<Text>, keep: Option<nat>, cutoff: Option<Text>)
    : set<int>
  {
    set w | w in ws && Doomed(ws, stream, keep, cutoff, w) :: w.id
  }

  /** What `witness_log_gc` leaves behind. */
  ghost function Survivors(ws: seq<WitnessRow>, stream: Option<Text>, keep: Option<nat>, cutoff: Option<Text>)
    : seq<WitnessRow>
  {
    WithoutIds(ws, DoomedIds(ws, stream, keep, cutoff))
  }

  ghost predicate UniqueIds(ws: seq<WitnessRow>) {
    forall i, j | 0 <= i < j < |ws| :: ws[i].id != ws[j].id
  }

  lemma {:induction false} WithoutIdsMembers(ws: seq<WitnessRow>, ids: set<int>, w: WitnessRow)
    ensures w in WithoutIds(ws, ids) <==> w in ws && w.id !in ids
  {
    if ws != [] {
      WithoutIdsMembers(Front(ws), ids, w);
      assert ws == Front(ws) + [Last(ws)];
    }
  }

  lemma {:induction false} UniqueMembers(ws: seq<WitnessRow>, v: WitnessRow, w: WitnessRow)
    requires UniqueIds(ws) && v in ws && w in ws && v.id == w.id
    ensures v == w
  {
    var i :| 0 <= i < |ws| && ws[i] == v;
    var j :| 0 <= j < |ws| && ws[j] == w;
  }

  /** A row survives exactly when its stream is not selected, or it is among the k newest rows of its
      stream, or it was not received before the cutoff, or neither says what to delete. */
  lemma {:induction false} SurvivesIff(ws: seq<WitnessRow>, stream: Option<Text>, keep: Option<nat>,
          cutoff: Option<Text>, w: WitnessRow)
    requires UniqueIds(ws) && w in ws
    ensures w in Survivors(ws, stream, keep, cutoff) <==>
      || (stream.Some? && w.streamId != stream.value)
      || (keep.Some? && |Newer(ws, w)| < keep.value)
      || (cutoff.Some? && !Precedes(w.receivedAt, cutoff.value))
      || (cutoff.None? && (keep.None? || keep.value == 0))
  {
    SurvivesUnlessDoomed(ws, stream, keep, cutoff, w);
    hide Survivors, Newer, Precedes;
  }

  lemma {:induction false} SurvivesUnlessDoomed(ws: seq<WitnessRow>, stream: Option<Text>, keep: Option<nat>,
          cutoff: Option<Text>, w: WitnessRow)
    requires UniqueIds(ws) && w in ws
    ensures w in Survivors(ws, stream, keep, cutoff) <==> !Doomed(ws, stream, keep, cutoff, w)
  {
    hide Doomed, WithoutIds;
    WithoutIdsMembers(ws, DoomedIds(ws, stream, keep, cutoff), w);
    if w.id in DoomedIds(ws, stream, keep, cutoff) {
      var v :| v in ws && Doomed(ws, stream, keep, cutoff, v) && v.id == w.id;
      UniqueMembers(ws, v, w);
    }
  }

  /** The latest row of every stream survives whenever at least one row per stream is to be kept. */
  lemma {:induction false} LatestSurvives(ws: seq<WitnessRow>, stream: Option<Text>, keep: nat, cutoff: Option<Text>,
          w: WitnessRow)
    requires UniqueIds(ws) && keep >= 1 && w in ws
    requires forall v | v in ws && v.streamId == w.streamId :: v.id <= w.id
    ensures w in Survivors(ws, stream, Some(keep), cutoff)
  {
    hide Survivors;
    SurvivesIff(ws, stream, Some(keep), cutoff, w);
    assert Newer(ws, w) == {};
  }

  lemma {:induction false} WithoutNone(ws: seq<WitnessRow>)
    ensures WithoutIds(ws, {}) == ws
  {
    if ws != [] {
      WithoutNone(Front(ws));
      assert ws == Front(ws) + [Last(ws)];
    }
  }

  /** Nothing goes when nothing is kept by number and there is no cutoff. */
  lemma {:induction false} NothingToDo(ws: seq<WitnessRow>, stream: Option<Text>, keep: Option<nat>)
    requires keep.None? || keep.value == 0
    ensures Survivors(ws, stream, keep, None) == ws
  {
    assert DoomedIds(ws, stream, keep, None) == {};
    WithoutNone(ws);
  }

  // ----- The rows kept by number -----

  function OfStream(ws: seq<WitnessRow>, stream: Text): seq<WitnessRow> {
    if ws == [] then []
    else if Last(ws).streamId == stream then OfStream(Front(ws), stream) + [Last(ws)]
    else OfStream(Front(ws), stream)
  }

  /** The rows of a stream by id. */
  function ById(ws: seq<WitnessRow>, stream: Text): seq<WitnessRow> {
    Sort(BY_WITNESS_ID, OfStream(ws, stream))
  }

  function Ids(ws: seq<WitnessRow>): set<int> {
    set w | w in ws :: w.id
  }

  /** The ids of the last k rows: all of them if there are fewer. */
  function LatestIds(ws: seq<WitnessRow>, stream: Text, keep: Option<nat>): set<int> {
    var rows := ById(ws, stream);
    match keep
    case None => {}
    case Some(k) => if k >= |rows| then Ids(rows) else Ids(rows[|rows| - k..])
  }

  lemma {:induction false} OfStreamMembers(ws: seq<WitnessRow>, stream: Text, w: WitnessRow)
    ensures w in OfStream(ws, stream) <==> w in ws && w.streamId == stream
  {
    if ws != [] {
      OfStreamMembers(Front(ws), stream, w);
      assert ws == Front(ws) + [Last(ws)];
    }
  }

  lemma {:induction false} ByIdMembers(ws: seq<WitnessRow>, stream: Text, w: WitnessRow)
    ensures w in ById(ws, stream) <==> w in ws && w.streamId == stream
  {
    OfStreamMembers(ws, stream, w);
    SortKeepsMembers(BY_WITNESS_ID, OfStream(ws, stream), w);
  }

  lemma {:induction false} OfStreamIsDistinct(ws: seq<WitnessRow>, stream: Text)
    requires UniqueIds(ws)
    ensures DistinctKeys(BY_WITNESS_ID, OfStream(ws, stream))
  {
    if ws != [] {
      var front := OfStream(Front(ws), stream);
      OfStreamIsDistinct(Front(ws), stream);
      forall i | 0 <= i < |front| ensures front[i].id != Last(ws).id {
        OfStreamMembers(Front(ws), stream, front[i]);
      }
    }
  }

  /** With unique ids the rows come in strictly increasing id order. */
  lemma {:induction false} ByIdIncreases(ws: seq<WitnessRow>, stream: Text)
    requires UniqueIds(ws)
    ensures forall i, j | 0 <= i < j < |ById(ws, stream)| :: ById(ws, stream)[i].id < ById(ws, stream)[j].id
  {
    OfStreamIsDistinct(ws, stream);
    SortSorts(BY_WITNESS_ID, OfStream(ws, stream));
    SortKeepsDistinct(BY_WITNESS_ID, OfStream(ws, stream));
    var rows := ById(ws, stream);
    forall i, j | 0 <= i < j < |rows| ensures rows[i].id < rows[j].id {
      assert BY_WITNESS_ID(rows[i]) <= BY_WITNESS_ID(rows[j]) && BY_WITNESS_ID(rows[i]) != BY_WITNESS_ID(rows[j]);
    }
  }

  lemma {:induction false} DistinctCount(ws: seq<WitnessRow>)
    requires forall i, j | 0 <= i < j < |ws| :: ws[i] != ws[j]
    ensures |set w | w in ws| == |ws|
  {
    if ws != [] {
      DistinctCount(Front(ws));
      assert ws == Front(ws) + [Last(ws)];
      assert (set w | w in ws) == (set w | w in Front(ws)) + {Last(ws)};
      assert Last(ws) !in Front(ws);
    }
  }

  /** The row at index i has as many newer rows as follow it. */
  lemma {:induction false} NewerFollow(ws: seq<WitnessRow>, stream: Text, i: nat)
    requires UniqueIds(ws) && i < |ById(ws, stream)|
    ensures |Newer(ws, ById(ws, stream)[i])| == |ById(ws, stream)| - 1 - i
  {
    hide ById, UniqueIds;
    var rows := ById(ws, stream);
    ByIdIncreases(ws, stream);
    ByIdMembers(ws, stream, rows[i]);
    var after := rows[i + 1..];
    forall v ensures v in Newer(ws, rows[i]) <==> v in after {
      ByIdMembers(ws, stream, v);
      if v in rows {
        var j :| 0 <= j < |rows| && rows[j] == v;
        if j > i {
          assert after[j - i - 1] == v;
        }
      }
    }
    assert Newer(ws, rows[i]) == set v | v in after;
    DistinctCount(after);
  }

  /** The ids kept by number are those with fewer than k newer rows. */
  lemma {:induction false} LatestIdsAreTop(ws: seq<WitnessRow>, stream: Text, keep: Option<nat>, w: WitnessRow)
    requires UniqueIds(ws) && w in ws && w.streamId == stream
    ensures w.id in LatestIds(ws, stream, keep) <==> keep.Some? && |Newer(ws, w)| < keep.value
  {
    hide ById, UniqueIds, Newer;
    var rows := ById(ws, stream);
    ByIdIncreases(ws, stream);
    ByIdMembers(ws, stream, w);
    var i :| 0 <= i < |rows| && rows[i] == w;
    NewerFollow(ws, stream, i);
    if keep.Some? && keep.value < |rows| {
      var kept := rows[|rows| - keep.value..];
      if i >= |rows| - keep.value {
        assert kept[i - (|rows| - keep.value)] == w;
      }
    }
  }

  /** The test both versions make per row is the statement above. */
  lemma {:induction false} DoomedByKeepSet(ws: seq<WitnessRow>, stream: Option<Text>, keep: Option<nat>,
          cutoff: Option<Text>, w: WitnessRow)
    requires UniqueIds(ws) && w in ws && (stream.Some? ==> stream.value == w.streamId)
    ensures var kept := LatestIds(ws, w.streamId, keep);
      Doomed(ws, stream, keep, cutoff, w)
      <==> !(kept == {} && cutoff.None?) && w.id !in kept && (cutoff.Some? ==> Less(w.receivedAt, cutoff.value))
  {
    hide UniqueIds, Newer, LatestIds, Less, Precedes;
    LatestIdsAreTop(ws, w.streamId, keep, w);
    if cutoff.Some? {
      LessIsPrecedes(w.receivedAt, cutoff.value);
    }
    if keep.Some? && keep.value > 0 {
      LatestOfStreamIsKept(ws, w, keep.value);
    } else {
      NoneKept(ws, w.streamId, keep);
    }
  }

  lemma {:induction false} NoneKept(ws: seq<WitnessRow>, stream: Text, keep: Option<nat>)
    requires keep.None? || keep.value == 0
    ensures LatestIds(ws, stream, keep) == {}
  {
    hide ById;
    var rows := ById(ws, stream);
    assert rows[|rows|..] == [];
  }

  lemma {:induction false} LatestOfStreamIsKept(ws: seq<WitnessRow>, w: WitnessRow, k: nat)
    requires k > 0 && w in ws
    ensures LatestIds(ws, w.streamId, Some(k)) != {}
  {
    hide ById;
    var rows := ById(ws, w.streamId);
    ByIdMembers(ws, w.streamId, w);
    assert Last(rows) in (if k >= |rows| then rows else rows[|rows| - k..]) by {
      if k < |rows| {
        assert rows[|rows| - k..][k - 1] == Last(rows);
      }
    }
    assert Last(rows).id in LatestIds(ws, w.streamId, Some(k));
  }

  // ----- Deleting by id -----

  lemma {:induction false} WithoutOneMore(ws: seq<WitnessRow>, ids: set<int>, id: int)
    ensures WithoutIds(WithoutIds(ws, ids), {id}) == WithoutIds(ws, ids + {id})
  {
    if ws != [] {
      WithoutOneMore(Front(ws), ids, id);
      if Last(ws).id !in ids {
        var rest := WithoutIds(Front(ws), ids);
        assert Front(rest + [Last(ws)]) == rest && Last(rest + [Last(ws)]) == Last(ws);
      }
    }
  }

  lemma {:induction false} WithoutAbsent(ws: seq<WitnessRow>, id: int)
    requires forall i | 0 <= i < |ws| :: ws[i].id != id
    ensures WithoutIds(ws, {id}) == ws
  {
    if ws != [] {
      assert ws[|ws| - 1].id != id;
      forall i | 0 <= i < |Front(ws)| ensures Front(ws)[i].id != id {
        assert Front(ws)[i] == ws[i];
      }
      WithoutAbsent(Front(ws), id);
      assert ws == Front(ws) + [Last(ws)];
    }
  }

  /** Deleting an id that is there removes exactly one row. */
  lemma {:induction false} DeleteRemovesOne(ws: seq<WitnessRow>, i: nat)
    requires UniqueIds(ws) && i < |ws|
    ensures |WithoutIds(ws, {ws[i].id})| == |ws| - 1
  {
    if i == |ws| - 1 {
      WithoutAbsent(Front(ws), ws[i].id);
    } else {
      DeleteRemovesOne(Front(ws), i);
    }
  }

  lemma {:induction false} WithoutKeepsUnique(ws: seq<WitnessRow>, ids: set<int>)
    requires UniqueIds(ws)
    ensures UniqueIds(WithoutIds(ws, ids))
  {
    if ws != [] {
      WithoutKeepsUnique(Front(ws), ids);
      var rest := WithoutIds(Front(ws), ids);
      forall i | 0 <= i < |rest| ensures rest[i].id != Last(ws).id {
        WithoutIdsMembers(Front(ws), ids, rest[i]);
      }
    }
  }

  /** Rows of other streams do not matter to what a stream keeps or loses. */
  lemma {:induction false} OfStreamIgnoresOthers(ws: seq<WitnessRow>, ids: set<int>, stream: Text)
    requires forall w | w in ws && w.id in ids :: w.streamId != stream
    ensures OfStream(WithoutIds(ws, ids), stream) == OfStream(ws, stream)
  {
    if ws != [] {
      assert ws == Front(ws) + [Last(ws)];
      OfStreamIgnoresOthers(Front(ws), ids, stream);
      var rest := WithoutIds(Front(ws), ids);
      if Last(ws).id !in ids {
        assert Front(rest + [Last(ws)]) == rest && Last(rest + [Last(ws)]) == Last(ws);
      }
    }
  }

  // ----- Collecting the ids stream by stream -----

  predicate IsOlder(w: WitnessRow, cutoff: Option<Text>) {
    cutoff.Some? ==> Less(w.receivedAt, cutoff.value)
  }

  /** The ids of the rows older than the cutoff: of all rows if there is none. */
  function OlderIds(rows: seq<WitnessRow>, cutoff: Option<Text>): seq<int> {
    if rows == [] then []
    else if IsOlder(Last(rows), cutoff) then OlderIds(Front(rows), cutoff) + [Last(rows).id]
    else OlderIds(Front(rows), cutoff)
  }

  function NotIn(ids: seq<int>, kept: set<int>): seq<int> {
    if ids == [] then []
    else if Last(ids) in kept then NotIn(Front(ids), kept)
    else NotIn(Front(ids), kept) + [Last(ids)]
  }

  ghost predicate NoRepeats(ids: seq<int>) {
    forall i, j | 0 <= i < j < |ids| :: ids[i] != ids[j]
  }

  /** A listing of one stream's rows, in whatever order the query returned them. */
  ghost predicate Lists(rows: seq<WitnessRow>, ws: seq<WitnessRow>, stream: Text) {
    && UniqueIds(rows)
    && forall w :: w in rows <==> w in ws && w.streamId == stream
  }

  lemma {:induction false} OfStreamLists(ws: seq<WitnessRow>, stream: Text)
    requires UniqueIds(ws)
    ensures Lists(OfStream(ws, stream), ws, stream)
  {
    OfStreamIsDistinct(ws, stream);
    var rows := OfStream(ws, stream);
    forall i, j | 0 <= i < j < |rows| ensures rows[i].id != rows[j].id {
      assert BY_WITNESS_ID(rows[i]) != BY_WITNESS_ID(rows[j]);
    }
    forall w ensures w in rows <==> w in ws && w.streamId == stream {
      OfStreamMembers(ws, stream, w);
    }
  }

  lemma {:induction false} ByIdLists(ws: seq<WitnessRow>, stream: Text)
    requires UniqueIds(ws)
    ensures Lists(ById(ws, stream), ws, stream)
  {
    hide ById;
    ByIdIncreases(ws, stream);
    forall w ensures w in ById(ws, stream) <==> w in ws && w.streamId == stream {
      ByIdMembers(ws, stream, w);
    }
  }

  lemma {:induction false} OlderIdsMembers(rows: seq<WitnessRow>, cutoff: Option<Text>, id: int)
    ensures id in OlderIds(rows, cutoff) <==> exists w :: w in rows && w.id == id && IsOlder(w, cutoff)
  {
    hide IsOlder;
    if rows != [] {
      OlderIdsMembers(Front(rows), cutoff, id);
      assert rows == Front(rows) + [Last(rows)];
      assert forall w :: w in rows <==> w in Front(rows) || w == Last(rows);
    }
  }

  lemma {:induction false} OlderIdsNoRepeats(rows: seq<WitnessRow>, cutoff: Option<Text>)
    requires UniqueIds(rows)
    ensures NoRepeats(OlderIds(rows, cutoff))
  {
    hide IsOlder;
    if rows != [] {
      OlderIdsNoRepeats(Front(rows), cutoff);
      OlderIdsMembers(Front(rows), cutoff, Last(rows).id);
    }
  }

  lemma {:induction false} NotInMembers(ids: seq<int>, kept: set<int>, id: int)
    ensures id in NotIn(ids, kept) <==> id in ids && id !in kept
  {
    if ids != [] {
      NotInMembers(Front(ids), kept, id);
      assert ids == Front(ids) + [Last(ids)];
    }
  }

  lemma {:induction false} NotInNoRepeats(ids: seq<int>, kept: set<int>)
    requires NoRepeats(ids)
    ensures NoRepeats(NotIn(ids, kept))
  {
    if ids != [] {
      NotInNoRepeats(Front(ids), kept);
      NotInMembers(Front(ids), kept, Last(ids));
    }
  }

  /** The ids are, without repetition, those of the doomed rows of these streams. */
  ghost predicate Collected(ws: seq<WitnessRow>, stream: Option<Text>, keep: Option<nat>, cutoff: Option<Text>,
                            streams: seq<Text>, ids: seq<int>) {
    && NoRepeats(ids)
    && forall id ::
      id in ids <==>
      exists w :: w in ws && w.id == id && w.streamId in streams && Doomed(ws, stream, keep, cutoff, w)
  }

  /** What one stream adds: nothing if nothing is kept and there is no cutoff. */
  function Expired(rows: seq<WitnessRow>, kept: set<int>, cutoff: Option<Text>): seq<int> {
    if kept == {} && cutoff.None? then [] else NotIn(OlderIds(rows, cutoff), kept)
  }

  lemma {:induction false} ExpiredAreDoomed(ws: seq<WitnessRow>, stream: Option<Text>, keep: Option<nat>,
          cutoff: Option<Text>, sid: Text, rows: seq<WitnessRow>, id: int)
    requires UniqueIds(ws) && Lists(rows, ws, sid) && (stream.Some? ==> stream.value == sid)
    ensures id in Expired(rows, LatestIds(ws, sid, keep), cutoff)
      <==> exists w :: w in ws && w.id == id && w.streamId == sid && Doomed(ws, stream, keep, cutoff, w)
  {
    hide Doomed, LatestIds, Less, UniqueIds, NotIn, OlderIds;
    var kept := LatestIds(ws, sid, keep);
    NotInMembers(OlderIds(rows, cutoff), kept, id);
    OlderIdsMembers(rows, cutoff, id);
    forall w | w in ws && w.streamId == sid
      ensures Doomed(ws, stream, keep, cutoff, w)
        <==> !(kept == {} && cutoff.None?) && w.id !in kept && IsOlder(w, cutoff)
    {
      DoomedByKeepSet(ws, stream, keep, cutoff, w);
    }
    if id in Expired(rows, kept, cutoff) {
      var w :| w in rows && w.id == id && IsOlder(w, cutoff);
      assert w in ws && Doomed(ws, stream, keep, cutoff, w);
    }
    if w :| w in ws && w.id == id && w.streamId == sid && Doomed(ws, stream, keep, cutoff, w) {
      assert w in rows && IsOlder(w, cutoff);
    }
  }

  lemma {:induction false} CollectOneMore(ws: seq<WitnessRow>, stream: Option<Text>, keep: Option<nat>,
          cutoff: Option<Text>, streams: seq<Text>, sid: Text, ids: seq<int>, rows: seq<WitnessRow>)
    requires UniqueIds(ws) && Lists(rows, ws, sid) && (stream.Some? ==> stream.value == sid)
    requires Collected(ws, stream, keep, cutoff, streams, ids) && sid !in streams
    ensures Collected(ws, stream, keep, cutoff, streams + [sid], ids + Expired(rows, LatestIds(ws, sid, keep), cutoff))
  {
    hide Doomed, LatestIds, NotIn, OlderIds;
    var more := Expired(rows, LatestIds(ws, sid, keep), cutoff);
    forall id
      ensures id in more
        <==> exists w :: w in ws && w.id == id && w.streamId == sid && Doomed(ws, stream, keep, cutoff, w)
    {
      ExpiredAreDoomed(ws, stream, keep, cutoff, sid, rows, id);
    }
    OlderIdsNoRepeats(rows, cutoff);
    NotInNoRepeats(OlderIds(rows, cutoff), LatestIds(ws, sid, keep));
    forall id | id in ids && id in more ensures false {
      var v :| v in ws && v.id == id && v.streamId in streams;
      var w :| w in ws && w.id == id && w.streamId == sid;
      UniqueMembers(ws, v, w);
    }
    var all := ids + more;
    forall i, j | 0 <= i < j < |all| ensures all[i] != all[j] {
      if i < |ids| <= j {
        assert all[i] in ids && all[j] in more;
      }
    }
    forall id ensures id in all
      <==> exists w :: w in ws && w.id == id && w.streamId in streams + [sid] && Doomed(ws, stream, keep, cutoff, w)
    {
      if id in ids {
        var w :| w in ws && w.id == id && w.streamId in streams && Doomed(ws, stream, keep, cutoff, w);
        assert w.streamId in streams + [sid];
      } else if id in more {
        var w :| w in ws && w.id == id && w.streamId == sid && Doomed(ws, stream, keep, cutoff, w);
        assert w.streamId in streams + [sid];
      }
    }
  }

  /** All streams that have rows, each once. */
  ghost predicate Enumerates(streams: seq<Text>, ws: seq<WitnessRow>) {
    && (forall i, j | 0 <= i < j < |streams| :: streams[i] != streams[j])
    && forall s :: s in streams <==> exists w :: w in ws && w.streamId == s
  }

  lemma {:induction false} CollectedAll(ws: seq<WitnessRow>, stream: Option<Text>, keep: Option<nat>,
          cutoff: Option<Text>, streams: seq<Text>, ids: seq<int>)
    requires Collected(ws, stream, keep, cutoff, streams, ids)
    requires if stream.Some? then streams == [stream.value] else Enumerates(streams, ws)
    ensures IdSet(ids) == DoomedIds(ws, stream, keep, cutoff)
  {
    hide Less;
    assert forall w | w in ws && Doomed(ws, stream, keep, cutoff, w) :: w.streamId in streams;
    forall id ensures id in IdSet(ids) <==> id in DoomedIds(ws, stream, keep, cutoff) {
      if id in DoomedIds(ws, stream, keep, cutoff) {
        var w :| w in ws && Doomed(ws, stream, keep, cutoff, w) && w.id == id;
        assert w.streamId in streams;
      }
    }
  }

  function IdSet(ids: seq<int>): set<int> {
    set id | id in ids
  }

  /** One deletion of a collected id removes one row. */
  lemma {:induction false} DeleteOneMore(ws: seq<WitnessRow>, ids: seq<int>, j: nat)
    requires UniqueIds(ws) && NoRepeats(ids) && j < |ids|
    requires exists w :: w in ws && w.id == ids[j]
    ensures WithoutIds(WithoutIds(ws, IdSet(ids[..j])), {ids[j]}) == WithoutIds(ws, IdSet(ids[..j + 1]))
    ensures |WithoutIds(ws, IdSet(ids[..j + 1]))| == |WithoutIds(ws, IdSet(ids[..j]))| - 1
  {
    hide WithoutIds;
    var rest := WithoutIds(ws, IdSet(ids[..j]));
    assert ids[..j + 1] == ids[..j] + [ids[j]];
    assert IdSet(ids[..j + 1]) == IdSet(ids[..j]) + {ids[j]};
    WithoutOneMore(ws, IdSet(ids[..j]), ids[j]);
    WithoutKeepsUnique(ws, IdSet(ids[..j]));
    var w :| w in ws && w.id == ids[j];
    WithoutIdsMembers(ws, IdSet(ids[..j]), w);
    var i :| 0 <= i < |rest| && rest[i] == w;
    DeleteRemovesOne(rest, i);
  }

  lemma {:induction false} NothingCollected(ws: seq<WitnessRow>, stream: Option<Text>, keep: Option<nat>,
          cutoff: Option<Text>)
    ensures Collected(ws, stream, keep, cutoff, [], [])
  {
    hide Doomed;
  }

  /** What was collected from other streams leaves this stream's rows, and what it keeps, alone. */
  lemma {:induction false} OtherStreamsGone(ws: seq<WitnessRow>, stream: Option<Text>, keep: Option<nat>,
          cutoff: Option<Text>, streams: seq<Text>, gone: seq<int>, sid: Text)
    requires UniqueIds(ws) && Collected(ws, stream, keep, cutoff, streams, gone) && sid !in streams
    ensures OfStream(WithoutIds(ws, IdSet(gone)), sid) == OfStream(ws, sid)
    ensures LatestIds(WithoutIds(ws, IdSet(gone)), sid, keep) == LatestIds(ws, sid, keep)
  {
    hide Doomed, OfStream, WithoutIds, UniqueIds;
    forall w | w in ws && w.id in IdSet(gone) ensures w.streamId != sid {
      var v :| v in ws && v.id == w.id && v.streamId in streams;
      UniqueMembers(ws, v, w);
    }
    OfStreamIgnoresOthers(ws, IdSet(gone), sid);
  }

  /** Deleting the next collected id removes one row. */
  lemma {:induction false} DeleteCollected(ws: seq<WitnessRow>, stream: Option<Text>, keep: Option<nat>,
          cutoff: Option<Text>, streams: seq<Text>, ids: seq<int>, gone: seq<int>, id: int)
    requires UniqueIds(ws) && Collected(ws, stream, keep, cutoff, streams, ids)
    requires gone + [id] <= ids
    ensures WithoutIds(WithoutIds(ws, IdSet(gone)), {id}) == WithoutIds(ws, IdSet(gone + [id]))
    ensures |WithoutIds(ws, IdSet(gone + [id]))| == |WithoutIds(ws, IdSet(gone))| - 1
  {
    hide Doomed, WithoutIds, UniqueIds;
    var j := |gone|;
    assert ids[..j + 1] == gone + [id] && ids[..j] == gone;
    assert ids[j] == (gone + [id])[j] == id && id in ids;
    DeleteOneMore(ws, ids, j);
  }
}
