/** The tables behind the `SecureLogStore` trait, as vectors in insertion order, and its queries:
    a filter, then a stable sort or a maximum. */
module Tables {
  import opened Basics
  import opened Records
  import opened Sorting

  datatype Store = Store(
    entries: seq<Row>,
    segments: seq<SegmentRow>,
    segmentEntries: seq<SegmentEntry>,
    witnesses: seq<WitnessRow>,
    streams: seq<StreamRow>,
    nextSegmentId: nat,
    nextWitnessId: int)

  // ----- secure_log -----

  const BY_SEQNO: Row -> int := (r: Row) => r.seqno

  predicate InRange(r: Row, stream: Text, from: nat, to: nat) {
    r.streamId == stream && from <= r.seqno <= to
  }

  function FilterRange(entries: seq<Row>, stream: Text, from: nat, to: nat): seq<Row> {
    if entries == [] then []
    else if InRange(Last(entries), stream, from, to) then
      FilterRange(Front(entries), stream, from, to) + [Last(entries)]
    else FilterRange(Front(entries), stream, from, to)
  }

  /** `secure_log_range`: the rows of a stream with from <= seqno <= to, by seqno. */
  function Range(entries: seq<Row>, stream: Text, from: nat, to: nat): seq<Row> {
    Sort(BY_SEQNO, FilterRange(entries, stream, from, to))
  }

  /** `secure_log_get`: the first row with this seqno. */
  function Get(entries: seq<Row>, seqno: nat): Option<Row> {
    if entries == [] then None
    else if entries[0].seqno == seqno then Some(entries[0])
    else Get(entries[1..], seqno)
  }

  function HasSeqno(entries: seq<Row>, seqno: nat): bool {
    exists i | 0 <= i < |entries| :: entries[i].seqno == seqno
  }

  function MaxOpt(a: Option<nat>, b: nat): Option<nat> {
    if a.Some? && a.value > b then a else Some(b)
  }

  /** `secure_log_global_head`: the largest seqno of all streams. */
  function GlobalHead(entries: seq<Row>): Option<nat> {
    if entries == [] then None else MaxOpt(GlobalHead(Front(entries)), Last(entries).seqno)
  }

  /** `secure_log_last`: the row of the stream with the largest seqno. */
  function LastRow(entries: seq<Row>, stream: Text): Option<Row> {
    if entries == [] then None
    else
      var before := LastRow(Front(entries), stream);
      var r := Last(entries);
      if r.streamId == stream && (before.None? || before.value.seqno <= r.seqno) then Some(r) else before
  }

  /** `secure_log_head`: the largest seqno of the stream. */
  function Head(entries: seq<Row>, stream: Text): Option<nat> {
    if entries == [] then None
    else if Last(entries).streamId == stream then MaxOpt(Head(Front(entries), stream), Last(entries).seqno)
    else Head(Front(entries), stream)
  }

  // ----- secure_log_segments and secure_log_segment_entries -----

  const BY_SEGMENT_ID: SegmentRow -> int := (s: SegmentRow) => s.segmentId
  const BY_LEAF: SegmentEntry -> int := (e: SegmentEntry) => e.leafIndex

  function FilterStream(segments: seq<SegmentRow>, stream: Text): seq<SegmentRow> {
    if segments == [] then []
    else if Last(segments).streamId == stream then FilterStream(Front(segments), stream) + [Last(segments)]
    else FilterStream(Front(segments), stream)
  }

  /** `secure_log_segments_list`: the segments of a stream, by segment id. */
  function SegmentsList(segments: seq<SegmentRow>, stream: Text): seq<SegmentRow> {
    Sort(BY_SEGMENT_ID, FilterStream(segments, stream))
  }

  /** `secure_log_segment_get`: the first segment with this id. */
  function SegmentGet(segments: seq<SegmentRow>, id: nat): Option<SegmentRow> {
    if segments == [] then None
    else if segments[0].segmentId == id then Some(segments[0])
    else SegmentGet(segments[1..], id)
  }

  /** `secure_log_segment_last_seqno`: the largest seq_end of the stream's segments. */
  function SegmentLastSeqno(segments: seq<SegmentRow>, stream: Text): Option<nat> {
    if segments == [] then None
    else if Last(segments).streamId == stream then
      MaxOpt(SegmentLastSeqno(Front(segments), stream), Last(segments).seqEnd)
    else SegmentLastSeqno(Front(segments), stream)
  }

  function FilterSegment(entries: seq<SegmentEntry>, id: nat): seq<SegmentEntry> {
    if entries == [] then []
    else if Last(entries).segmentId == id then FilterSegment(Front(entries), id) + [Last(entries)]
    else FilterSegment(Front(entries), id)
  }

  function Seqnos(entries: seq<SegmentEntry>): (r: seq<nat>)
    ensures |r| == |entries| && forall i | 0 <= i < |r| :: r[i] == entries[i].seqno
  {
    if entries == [] then [] else [entries[0].seqno] + Seqnos(entries[1..])
  }

  /** `secure_log_segment_entry_seqnos`: the seqnos of a segment, by leaf index. */
  function EntrySeqnos(entries: seq<SegmentEntry>, id: nat): seq<nat> {
    Seqnos(Sort(BY_LEAF, FilterSegment(entries, id)))
  }

  /** `secure_log_segment_for_seqno`: the segment of the first record of this seqno. */
  function SegmentForSeqno(entries: seq<SegmentEntry>, seqno: nat): Option<nat> {
    if entries == [] then None
    else if entries[0].seqno == seqno then Some(entries[0].segmentId)
    else SegmentForSeqno(entries[1..], seqno)
  }

  // ----- secure_log_streams -----

  function StreamGet(streams: seq<StreamRow>, name: Text): Option<StreamRow> {
    if streams == [] then None
    else if streams[0].name == name then Some(streams[0])
    else StreamGet(streams[1..], name)
  }

  // ----- Ranges of any store -----

  lemma {:induction false} FilterRangeMembers(entries: seq<Row>, stream: Text, from: nat, to: nat, r: Row)
    ensures r in FilterRange(entries, stream, from, to) <==> r in entries && InRange(r, stream, from, to)
  {
    if entries != [] {
      FilterRangeMembers(Front(entries), stream, from, to, r);
      assert entries == Front(entries) + [Last(entries)];
    }
  }

  lemma {:induction false} RangeMembers(entries: seq<Row>, stream: Text, from: nat, to: nat, r: Row)
    ensures r in Range(entries, stream, from, to) <==> r in entries && InRange(r, stream, from, to)
  {
    FilterRangeMembers(entries, stream, from, to, r);
    SortKeepsMembers(BY_SEQNO, FilterRange(entries, stream, from, to), r);
  }

  lemma {:induction false} RangeIsSorted(entries: seq<Row>, stream: Text, from: nat, to: nat)
    ensures var rows := Range(entries, stream, from, to);
      forall i, j | 0 <= i < j < |rows| :: rows[i].seqno <= rows[j].seqno
  {
    SortSorts(BY_SEQNO, FilterRange(entries, stream, from, to));
    var rows := Range(entries, stream, from, to);
    forall i, j | 0 <= i < j < |rows| ensures rows[i].seqno <= rows[j].seqno {
      assert BY_SEQNO(rows[i]) <= BY_SEQNO(rows[j]);
    }
  }

  lemma {:induction false} RangeAllInRange(entries: seq<Row>, stream: Text, from: nat, to: nat)
    ensures var rows := Range(entries, stream, from, to);
      forall i | 0 <= i < |rows| :: rows[i] in entries && InRange(rows[i], stream, from, to)
  {
    var rows := Range(entries, stream, from, to);
    forall i | 0 <= i < |rows| ensures rows[i] in entries && InRange(rows[i], stream, from, to) {
      RangeMembers(entries, stream, from, to, rows[i]);
    }
  }

  /** A range is its part up to mid followed by its part from mid + 1 on, in any store. */
  lemma {:induction false} RangeSplits(entries: seq<Row>, stream: Text, from: nat, mid: nat, to: nat)
    requires from <= mid + 1 && mid <= to
    ensures Range(entries, stream, from, to) == Range(entries, stream, from, mid) + Range(entries, stream, mid + 1, to)
  {
    if entries != [] {
      var front, r := Front(entries), Last(entries);
      RangeSplits(front, stream, from, mid, to);
      RangeGrows(front, r, stream, from, to);
      RangeGrows(front, r, stream, from, mid);
      RangeGrows(front, r, stream, mid + 1, to);
      assert entries == front + [r];
      var low, high := Range(front, stream, from, mid), Range(front, stream, mid + 1, to);
      RangeAllInRange(front, stream, from, mid);
      RangeAllInRange(front, stream, mid + 1, to);
      if r.seqno <= mid {
        InsertBelow(BY_SEQNO, low, high, r);
      } else {
        InsertAbove(BY_SEQNO, low, high, r);
      }
    }
  }

  lemma {:induction false} RangeGrows(entries: seq<Row>, r: Row, stream: Text, from: nat, to: nat)
    ensures Range(entries + [r], stream, from, to)
      == if InRange(r, stream, from, to) then Insert(BY_SEQNO, Range(entries, stream, from, to), r)
         else Range(entries, stream, from, to)
  {
    var rows := FilterRange(entries, stream, from, to);
    assert Front(entries + [r]) == entries && Last(entries + [r]) == r;
    if InRange(r, stream, from, to) {
      assert Front(rows + [r]) == rows && Last(rows + [r]) == r;
    }
  }

  lemma {:induction false} ReversedRangeIsEmpty(entries: seq<Row>, stream: Text, from: nat, to: nat)
    requires from > to
    ensures Range(entries, stream, from, to) == []
  {
    var rows := Range(entries, stream, from, to);
    if rows != [] {
      RangeMembers(entries, stream, from, to, rows[0]);
    }
  }
}
