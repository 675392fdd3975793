/** The entry chain in every reachable state. */
module ChainTheorems {
  import opened Basics
  import opened Records
  import opened Tables
  import opened Chain
  import opened Engine
  import opened Invariants
  import opened Preservation
  import opened Runs

  /** The rows of a stream up to a bound past the end, split around a range. */
  lemma {:induction false} StreamSplitsAround(entries: seq<Row>, stream: Text, from: nat, to: nat)
    requires Dense(entries) && 1 <= from <= to
    ensures var rest := Range(entries, stream, to + 1, to + |entries| + 1);
      StreamRows(entries, stream) == Range(entries, stream, 1, from - 1) + (Range(entries, stream, from, to) + rest)
  {
    hide Range, FilterRange, StreamRows;
    var end := to + |entries| + 1;
    WholeFilterIsStream(entries, stream, 1, end);
    DenseRange(entries, stream, 1, end);
    RangeSplits(entries, stream, 1, from - 1, end);
    RangeSplits(entries, stream, from, to, end);
  }

  /** On dense entries with a valid chain `verify_chain` accepts exactly the ranges that hold a row. */
  lemma {:induction false} DenseChainAccepts(entries: seq<Row>, stream: Text, from: nat, to: nat)
    requires Dense(entries) && ChainValid(entries, stream)
    ensures VerifyChain(entries, stream, from, to).Ok? <==> from <= to && Range(entries, stream, from, to) != []
  {
    hide VerifyChain, Range, CheckRows, StreamRows;
    VerifyChainAccepts(entries, stream, from, to);
    if from <= to && Range(entries, stream, from, to) != [] {
      assert SeqnosArePositive(entries);
      VerifyChainChecks(entries, stream, from, to);
      if from == 0 {
        RangeFromZero(entries, stream, to);
        if to == 0 {
          RangeAllInRange(entries, stream, 1, 0);
        }
      }
      WholeChainChecksRange(entries, stream, Max1(from), to);
    }
  }

  /** In every reachable state `verify_chain` accepts exactly the ranges that hold a row of the
      stream, whatever other streams are interleaved with it. */
  lemma {:induction false} VerifyChainAcceptsReachable(s: State, stream: Text, from: nat, to: nat)
    requires StateOk(s)
    ensures VerifyChain(s.store.entries, stream, from, to).Ok? <==>
      from <= to && Range(s.store.entries, stream, from, to) != []
  {
    hide VerifyChain, Range, ChainValid, StreamOk, HeadsOk, IdsDense;
    assert ChainValid(s.store.entries, stream);
    DenseChainAccepts(s.store.entries, stream, from, to);
  }

  lemma {:induction false} WholeChainChecksRange(entries: seq<Row>, stream: Text, from: nat, to: nat)
    requires Dense(entries) && 1 <= from <= to && ChainValid(entries, stream)
    ensures LastHash(Range(entries, stream, 1, from - 1)).Ok?
    ensures CheckRows(Range(entries, stream, from, to), LastHash(Range(entries, stream, 1, from - 1)).value).Ok?
  {
    hide Range, CheckRows, StreamRows;
    var low, mid := Range(entries, stream, 1, from - 1), Range(entries, stream, from, to);
    var high := Range(entries, stream, to + 1, to + |entries| + 1);
    StreamSplitsAround(entries, stream, from, to);
    CheckRowsComposes(low, mid + high, ZERO_HASH);
    CheckRowsAcceptsLinked(low, ZERO_HASH);
    var below := CheckRows(low, ZERO_HASH).value;
    CheckRowsComposes(mid, high, below);
  }

  /** Every stored entry hash in a reachable state is the hash of the entry's own fields. */
  lemma {:induction false} EntriesHashTheirFields(s: State, i: nat)
    requires StateOk(s) && i < |s.store.entries|
    ensures s.store.entries[i].entryHash == RowHash(s.store.entries[i])
  {
    hide CheckRows, RowHash, StreamRows, StreamOk, HeadsOk, IdsDense;
    var entries := s.store.entries;
    var r := entries[i];
    var rows := StreamRows(entries, r.streamId);
    assert ChainValid(entries, r.streamId);
    CheckRowsAcceptsLinked(rows, ZERO_HASH);
    FilterRangeMembers(entries, r.streamId, 0, |entries|, r);
    WholeFilterIsStream(entries, r.streamId, 0, |entries|);
    var j :| 0 <= j < |rows| && rows[j] == r;
    assert LinkedAt(rows, ZERO_HASH, j);
  }

  /** A row that hashes to its own digest extends a valid chain exactly when it links to its tip. */
  lemma {:induction false} ChainGrowsIff(entries: seq<Row>, r: Row, stream: Text)
    requires Dense(entries) && |r.prevEntryHash| == HASH_LEN && r.entryHash == RowHash(r)
    ensures ChainValid(entries + [r], stream)
      <==> ChainValid(entries, stream) && (r.streamId == stream ==> LinkHash(entries, stream) == Ok(r.prevEntryHash))
  {
    hide CheckRows, StreamRows, LinkHash, RowHash;
    StreamRowsGrow(entries, r, stream);
    if r.streamId == stream {
      CheckOneMore(StreamRows(entries, stream), r);
      if ChainValid(entries, stream) {
        LinkIsTip(entries, stream);
      }
    }
  }
}
