/** Checkpoint hashes: the mutual recursion that recomputes them, the left fold it equals, and what
    a checkpoint hash binds. */
module Checkpoints {
  import opened Basics
  import opened Records
  import opened Encoder
  import opened Sorting
  import opened Tables
  import opened HashChain

  function BuildFields(info: SegmentInfo, prev: Digest, bootId: Text, sessionId: Text, policy: Digest)
    : CheckpointFields
  {
    CheckpointFields(CHECKPOINT_VERSION, info.streamId, info.segmentId, info.seqStart, info.seqEnd,
                     info.merkleRoot, info.lastEntryHash, prev, bootId, sessionId, policy, info.closedAt)
  }

  function CheckpointHash(f: CheckpointFields): Digest {
    Sha256(EncodeCheckpoint(f))
  }

  /** The checkpoint fields of a segment over a given previous checkpoint hash. The session and boot
      ids are those of the segment's last entry. */
  function FieldsOver(entries: seq<Row>, info: SegmentInfo, prev: Digest): Result<CheckpointFields> {
    match Get(entries, info.seqEnd)
    case None => Err(EntryNotFound(info.seqEnd))
    case Some(last) => Ok(BuildFields(info, prev, last.bootId, last.sessionId, ZERO_HASH))
  }

  // ----- The mutual recursion of the source -----

  /** Number of list elements before the first one with this id: the length if there is none. */
  function Position(list: seq<SegmentRow>, id: nat): (p: nat)
    ensures p <= |list|
    ensures p < |list| ==> list[p].segmentId == id
    ensures forall i | 0 <= i < p :: list[i].segmentId != id
  {
    if list == [] || list[0].segmentId == id then 0 else 1 + Position(list[1..], id)
  }

  /** `previous_checkpoint_hash`. It terminates on every store: each call looks up an id that stands
      strictly earlier in the stream's list. */
  function PreviousCheckpointHash(t: Store, stream: Text, id: nat): Result<Digest>
    decreases Position(SegmentsList(t.segments, stream), id), 0
  {
    var list := SegmentsList(t.segments, stream);
    var p := Position(list, id);
    if p == 0 then Ok(ZERO_HASH)
    else
      PositionDrops(list, p - 1);
      ComputeCheckpointHash(t, stream, list[p - 1].segmentId)
  }

  /** `compute_checkpoint_hash_for`. */
  function ComputeCheckpointHash(t: Store, stream: Text, id: nat): Result<Digest>
    decreases Position(SegmentsList(t.segments, stream), id), 1
  {
    match ComputeFields(t, stream, id)
    case Err(e) => Err(e)
    case Ok(f) => Ok(CheckpointHash(f))
  }

  /** The fields whose hash `compute_checkpoint_hash_for` takes. */
  function ComputeFields(t: Store, stream: Text, id: nat): Result<CheckpointFields>
    decreases Position(SegmentsList(t.segments, stream), id), 1, 0
  {
    match SegmentGet(t.segments, id)
    case None => Err(SegmentNotFound(id))
    case Some(row) =>
      match SegmentRowToInfo(row)
      case Err(e) => Err(e)
      case Ok(info) =>
        match PreviousCheckpointHash(t, stream, id)
        case Err(e) => Err(e)
        case Ok(prev) => FieldsOver(t.entries, info, prev)
  }

  lemma PositionDrops(list: seq<SegmentRow>, i: nat)
    requires i < |list|
    ensures Position(list, list[i].segmentId) <= i
  {
  }

  // ----- The left fold -----

  function FoldFields(entries: seq<Row>, row: SegmentRow, prev: Result<Digest>): Result<CheckpointFields> {
    match SegmentRowToInfo(row)
    case Err(e) => Err(e)
    case Ok(info) =>
      match prev
      case Err(e) => Err(e)
      case Ok(d) => FieldsOver(entries, info, d)
  }

  function HashOf(f: Result<CheckpointFields>): Result<Digest> {
    match f
    case Err(e) => Err(e)
    case Ok(fields) => Ok(CheckpointHash(fields))
  }

  /** Walking the list from the left, each hash over the one before it, from the zero digest. */
  function CheckpointFold(entries: seq<Row>, list: seq<SegmentRow>): Result<Digest> {
    if list == [] then Ok(ZERO_HASH)
    else HashOf(FoldFields(entries, Last(list), CheckpointFold(entries, Front(list))))
  }

  ghost predicate UniqueSegmentIds(segments: seq<SegmentRow>) {
    forall i, j | 0 <= i < j < |segments| :: segments[i].segmentId != segments[j].segmentId
  }

  lemma {:induction false} SegmentGetFinds(segments: seq<SegmentRow>, i: nat)
    requires UniqueSegmentIds(segments) && i < |segments|
    ensures SegmentGet(segments, segments[i].segmentId) == Some(segments[i])
  {
    if i > 0 {
      assert forall j, k | 0 <= j < k < |segments[1..]| ::
        segments[1..][j] == segments[j + 1] && segments[1..][k] == segments[k + 1];
      SegmentGetFinds(segments[1..], i - 1);
    }
  }

  lemma {:induction false} FilterStreamMembers(segments: seq<SegmentRow>, stream: Text, r: SegmentRow)
    ensures r in FilterStream(segments, stream) <==> r in segments && r.streamId == stream
  {
    if segments != [] {
      FilterStreamMembers(Front(segments), stream, r);
      assert segments == Front(segments) + [Last(segments)];
    }
  }

  lemma {:induction false} SegmentsListMembers(segments: seq<SegmentRow>, stream: Text, r: SegmentRow)
    ensures r in SegmentsList(segments, stream) <==> r in segments && r.streamId == stream
  {
    FilterStreamMembers(segments, stream, r);
    SortKeepsMembers(BY_SEGMENT_ID, FilterStream(segments, stream), r);
  }

  lemma {:induction false} FilterStreamKeepsDistinct(segments: seq<SegmentRow>, stream: Text)
    requires UniqueSegmentIds(segments)
    ensures DistinctKeys(BY_SEGMENT_ID, FilterStream(segments, stream))
  {
    if segments != [] {
      var front, last := FilterStream(Front(segments), stream), Last(segments);
      FilterStreamKeepsDistinct(Front(segments), stream);
      forall i | 0 <= i < |front| ensures front[i].segmentId != last.segmentId {
        FilterStreamMembers(Front(segments), stream, front[i]);
      }
    }
  }

  /** With unique ids, the list position of an element is its index and its id finds it. */
  lemma {:induction false} ListIsIndexed(segments: seq<SegmentRow>, stream: Text, k: nat)
    requires UniqueSegmentIds(segments) && k < |SegmentsList(segments, stream)|
    ensures var list := SegmentsList(segments, stream);
      && Position(list, list[k].segmentId) == k
      && SegmentGet(segments, list[k].segmentId) == Some(list[k])
      && list[k].streamId == stream
  {
    var list := SegmentsList(segments, stream);
    FilterStreamKeepsDistinct(segments, stream);
    SortKeepsDistinct(BY_SEGMENT_ID, FilterStream(segments, stream));
    var p := Position(list, list[k].segmentId);
    PositionDrops(list, k);
    assert BY_SEGMENT_ID(list[p]) == BY_SEGMENT_ID(list[k]);
    SegmentsListMembers(segments, stream, list[k]);
    var i :| 0 <= i < |segments| && segments[i] == list[k];
    SegmentGetFinds(segments, i);
  }

  /** The mutual recursion equals the left fold over the stream's list, errors included: for the
      k-th segment it is the fold of the first k + 1, and its predecessor hash the fold of the first k. */
  lemma {:induction false} RecursionIsFold(t: Store, stream: Text, k: nat)
    requires UniqueSegmentIds(t.segments) && k < |SegmentsList(t.segments, stream)|
    ensures var list := SegmentsList(t.segments, stream);
      && PreviousCheckpointHash(t, stream, list[k].segmentId) == CheckpointFold(t.entries, list[..k])
      && ComputeFields(t, stream, list[k].segmentId)
        == FoldFields(t.entries, list[k], CheckpointFold(t.entries, list[..k]))
      && ComputeCheckpointHash(t, stream, list[k].segmentId) == CheckpointFold(t.entries, list[..k + 1])
  {
    hide SegmentsList, SegmentGet, FieldsOver, CheckpointHash, Position;
    var list := SegmentsList(t.segments, stream);
    ListIsIndexed(t.segments, stream, k);
    assert Front(list[..k + 1]) == list[..k];
    if k > 0 {
      RecursionIsFold(t, stream, k - 1);
    }
  }

  /** For an id that no segment of the stream has, the predecessor hash is the fold of the list. */
  lemma {:induction false} PreviousOfUnknownIsFold(t: Store, stream: Text, id: nat)
    requires UniqueSegmentIds(t.segments)
    requires forall i | 0 <= i < |SegmentsList(t.segments, stream)| ::
      SegmentsList(t.segments, stream)[i].segmentId != id
    ensures PreviousCheckpointHash(t, stream, id) == CheckpointFold(t.entries, SegmentsList(t.segments, stream))
  {
    hide SegmentsList, ComputeCheckpointHash, CheckpointFold;
    var list := SegmentsList(t.segments, stream);
    assert Position(list, id) == |list|;
    if list != [] {
      RecursionIsFold(t, stream, |list| - 1);
      assert list[..|list|] == list;
    } else {
      EmptyFold(t.entries);
    }
  }

  lemma EmptyFold(entries: seq<Row>)
    ensures CheckpointFold(entries, []) == Ok(ZERO_HASH)
  {
  }

  // ----- Binding -----

  lemma {:induction false} PredecessorComputes(t: Store, stream: Text, id: nat)
    requires ComputeFields(t, stream, id).Ok?
    ensures var list := SegmentsList(t.segments, stream);
      var p := Position(list, id);
      var prev := ComputeFields(t, stream, id).value.prevCheckpointHash;
      if p == 0 then prev == ZERO_HASH
      else
        && ComputeFields(t, stream, list[p - 1].segmentId).Ok?
        && prev == CheckpointHash(ComputeFields(t, stream, list[p - 1].segmentId).value)
  {
    hide CheckpointHash, SegmentGet, SegmentsList, SegmentRowToInfo;
    var list := SegmentsList(t.segments, stream);
    var p := Position(list, id);
    var previous := PreviousCheckpointHash(t, stream, id);
    assert previous.Ok? && previous.value == ComputeFields(t, stream, id).value.prevCheckpointHash;
    if p > 0 {
      PositionDrops(list, p - 1);
      assert previous == ComputeCheckpointHash(t, stream, list[p - 1].segmentId);
    }
  }

  /** The checkpoint fields from the stream's first segment up to the one with this id, in any store. */
  function FieldsUpTo(t: Store, stream: Text, id: nat): seq<CheckpointFields>
    requires ComputeFields(t, stream, id).Ok?
    decreases Position(SegmentsList(t.segments, stream), id)
  {
    var list := SegmentsList(t.segments, stream);
    var p := Position(list, id);
    var own := [ComputeFields(t, stream, id).value];
    if p == 0 then own
    else
      PositionDrops(list, p - 1);
      PredecessorComputes(t, stream, id);
      FieldsUpTo(t, stream, list[p - 1].segmentId) + own
  }

  function FieldLinks(fields: seq<CheckpointFields>): (links: seq<Link>)
    ensures |links| == |fields|
    ensures forall i | 0 <= i < |fields| :: links[i] == Link(EncodeCheckpoint(fields[i]), fields[i].prevCheckpointHash)
  {
    if fields == [] then []
    else FieldLinks(Front(fields)) + [Link(EncodeCheckpoint(Last(fields)), Last(fields).prevCheckpointHash)]
  }

  /** Fields that hold the hash of the last ones as their predecessor's extend the chain. */
  lemma {:induction false} FieldsGrowChained(fields: seq<CheckpointFields>, f: CheckpointFields)
    requires Chained(FieldLinks(fields))
    requires f.prevCheckpointHash == if fields == [] then ZERO_HASH else CheckpointHash(Last(fields))
    ensures Chained(FieldLinks(fields + [f]))
  {
    hide EncodeCheckpoint;
    assert Front(fields + [f]) == fields && Last(fields + [f]) == f;
    assert FieldLinks(fields + [f]) == FieldLinks(fields) + [Link(EncodeCheckpoint(f), f.prevCheckpointHash)];
    assert Front(FieldLinks(fields + [f])) == FieldLinks(fields);
  }

  lemma {:induction false} FieldsUpToAreChained(t: Store, stream: Text, id: nat)
    requires ComputeFields(t, stream, id).Ok?
    ensures var f := FieldsUpTo(t, stream, id);
      f != [] && Last(f) == ComputeFields(t, stream, id).value && Chained(FieldLinks(f))
    decreases Position(SegmentsList(t.segments, stream), id)
  {
    hide CheckpointHash, ComputeFields, SegmentsList, FieldLinks, Chained;
    var list := SegmentsList(t.segments, stream);
    var p := Position(list, id);
    PredecessorComputes(t, stream, id);
    var own := ComputeFields(t, stream, id).value;
    if p > 0 {
      PositionDrops(list, p - 1);
      FieldsUpToAreChained(t, stream, list[p - 1].segmentId);
      FieldsGrowChained(FieldsUpTo(t, stream, list[p - 1].segmentId), own);
    } else {
      NoFieldsChained();
      FieldsGrowChained([], own);
      assert [] + [own] == [own];
    }
  }

  lemma NoFieldsChained()
    ensures Chained(FieldLinks([]))
  {
  }

  /** The break that two different lists of checkpoint fields with one last hash contain. */
  function FieldsBreak(a: seq<CheckpointFields>, b: seq<CheckpointFields>): Break {
    ChainBreak(FieldLinks(a), FieldLinks(b))
  }

  /** A checkpoint hash binds every checkpoint from genesis up to its segment: two stores that
      compute one hash hold the same checkpoint fields, or `FieldsBreak` of the two is genuine. */
  lemma {:induction false} CheckpointHashBinds(t: Store, stream: Text, id: nat, t': Store, stream': Text, id': nat)
    requires ComputeFields(t, stream, id).Ok? && ComputeFields(t', stream', id').Ok?
    requires ComputeCheckpointHash(t, stream, id) == ComputeCheckpointHash(t', stream', id')
    requires forall f | f in FieldsUpTo(t, stream, id) + FieldsUpTo(t', stream', id') :: CheckpointInRange(f)
    ensures FieldsUpTo(t, stream, id) == FieldsUpTo(t', stream', id')
      || FieldsBreak(FieldsUpTo(t, stream, id), FieldsUpTo(t', stream', id')).Genuine()
  {
    hide FieldsUpTo, ComputeFields, EncodeCheckpoint, CheckpointInRange, ChainBreak;
    var a, b := FieldsUpTo(t, stream, id), FieldsUpTo(t', stream', id');
    FieldsUpToAreChained(t, stream, id);
    FieldsUpToAreChained(t', stream', id');
    forall i, j | 0 <= i < |a| && 0 <= j < |b| && FieldLinks(a)[i].message == FieldLinks(b)[j].message
      ensures a[i] == b[j]
    {
      assert a[i] in a + b && b[j] in a + b;
      CheckpointEncodingIsInjective(a[i], b[j]);
    }
    TipBindsChain(FieldLinks(a), FieldLinks(b));
    if FieldLinks(a) == FieldLinks(b) {
      assert forall i | 0 <= i < |a| :: FieldLinks(a)[i].message == FieldLinks(b)[i].message;
    }
  }
}
