/** The per-stream entry chain: `verify_chain`, what it accepts, and what acceptance binds. */
module Chain {
  import opened Basics
  import opened Records
  import opened Encoder
  import opened Tables
  import opened HashChain

  function RowMessage(row: Row): Bytes {
    EncodeEntry(RowToEntry(row))
  }

  function RowHash(row: Row): Digest {
    Sha256(RowMessage(row))
  }

  /** One round of the loop of `verify_chain`: the digest the next row must link to. */
  function CheckRow(row: Row, prev: Digest): Result<Digest> {
    if |row.prevEntryHash| != HASH_LEN then Err(Invalid(DigestLength))
    else if row.prevEntryHash != prev then Err(ChainBroken(row.seqno, PrevHashMismatch))
    else if |row.entryHash| != HASH_LEN then Err(Invalid(DigestLength))
    else if RowHash(row) != row.entryHash then Err(ChainBroken(row.seqno, ContentMismatch))
    else Ok(row.entryHash)
  }

  /** The loop of `verify_chain`: the first error in row order, or the last digest. */
  function CheckRows(rows: seq<Row>, prev: Digest): Result<Digest> {
    if rows == [] then Ok(prev)
    else
      match CheckRows(Front(rows), prev)
      case Err(e) => Err(e)
      case Ok(d) => CheckRow(Last(rows), d)
  }

  /** The digest the first row of a range must link to. */
  function ExpectedPrev(entries: seq<Row>, stream: Text, first: nat): Result<Digest> {
    if first > 1 then
      var before := Range(entries, stream, 1, first - 1);
      if before == [] then Ok(ZERO_HASH) else DigestFromVec(Last(before).entryHash)
    else Ok(ZERO_HASH)
  }

  function VerifyChain(entries: seq<Row>, stream: Text, from: nat, to: nat): Result<()> {
    if from > to then Err(Invalid(ReversedRange))
    else
      var rows := Range(entries, stream, from, to);
      if rows == [] then Err(StreamNotFound(stream))
      else
        match ExpectedPrev(entries, stream, rows[0].seqno)
        case Err(e) => Err(e)
        case Ok(prev) =>
          match CheckRows(rows, prev)
          case Err(e) => Err(e)
          case Ok(_) => Ok(())
  }

  // ----- What acceptance means -----

  /** Row i links to row i - 1, or to prev if it is the first, and hashes to its stored digest. */
  predicate LinkedAt(rows: seq<Row>, prev: Bytes, i: nat)
    requires i < |rows|
  {
    && rows[i].prevEntryHash == (if i == 0 then prev else rows[i - 1].entryHash)
    && RowHash(rows[i]) == rows[i].entryHash
  }

  ghost predicate Linked(rows: seq<Row>, prev: Bytes) {
    forall i | 0 <= i < |rows| :: LinkedAt(rows, prev, i)
  }

  lemma {:induction false} CheckRowsAcceptsLinked(rows: seq<Row>, prev: Digest)
    ensures CheckRows(rows, prev).Ok? <==> Linked(rows, prev)
    ensures CheckRows(rows, prev).Ok? ==>
      CheckRows(rows, prev).value == if rows == [] then prev else Last(rows).entryHash
  {
    hide RowHash;
    if rows != [] {
      CheckRowsAcceptsLinked(Front(rows), prev);
      var n := |rows| - 1;
      assert forall i | 0 <= i < n :: LinkedAt(Front(rows), prev, i) == LinkedAt(rows, prev, i);
      assert Linked(rows, prev) <==> Linked(Front(rows), prev) && LinkedAt(rows, prev, n);
      assert n > 0 ==> Last(Front(rows)) == rows[n - 1];
    }
  }

  /** Checking a list is checking its first part and then its second part. */
  lemma {:induction false} CheckRowsComposes(a: seq<Row>, b: seq<Row>, prev: Digest)
    ensures CheckRows(a + b, prev)
      == match CheckRows(a, prev) { case Err(e) => Err(e) case Ok(d) => CheckRows(b, d) }
  {
    hide CheckRow;
    if b == [] {
      assert a + b == a;
    } else {
      assert Front(a + b) == a + Front(b);
      CheckRowsComposes(a, Front(b), prev);
    }
  }

  /** `verify_chain` accepts a range exactly when it holds rows, they are linked, and the first one
      links to the stored digest of the last earlier row of the stream, or to the zero digest. */
  lemma {:induction false} VerifyChainAccepts(entries: seq<Row>, stream: Text, from: nat, to: nat)
    ensures VerifyChain(entries, stream, from, to).Ok? <==>
      && from <= to
      && Range(entries, stream, from, to) != []
      && ExpectedPrev(entries, stream, Range(entries, stream, from, to)[0].seqno).Ok?
      && Linked(Range(entries, stream, from, to),
                ExpectedPrev(entries, stream, Range(entries, stream, from, to)[0].seqno).value)
  {
    hide Range, ExpectedPrev, Linked, CheckRows;
    var rows := Range(entries, stream, from, to);
    if from <= to && rows != [] && ExpectedPrev(entries, stream, rows[0].seqno).Ok? {
      CheckRowsAcceptsLinked(rows, ExpectedPrev(entries, stream, rows[0].seqno).value);
    }
  }

  /** Otherwise it reports the first row that fails: digests of a wrong length, then a link that differs
      from the digest before it, then contents that do not hash to the stored digest. */
  lemma {:induction false} VerifyChainReportsFirst(entries: seq<Row>, stream: Text, from: nat, to: nat, i: nat)
    requires from <= to && i < |Range(entries, stream, from, to)|
    requires ExpectedPrev(entries, stream, Range(entries, stream, from, to)[0].seqno).Ok?
    requires var prev := ExpectedPrev(entries, stream, Range(entries, stream, from, to)[0].seqno).value;
      Linked(Range(entries, stream, from, to)[..i], prev)
    ensures var rows := Range(entries, stream, from, to);
      var before := if i == 0 then ExpectedPrev(entries, stream, rows[0].seqno).value else rows[i - 1].entryHash;
      && (|rows[i].prevEntryHash| != HASH_LEN ==> VerifyChain(entries, stream, from, to) == Err(Invalid(DigestLength)))
      && (|rows[i].prevEntryHash| == HASH_LEN && rows[i].prevEntryHash != before ==>
           VerifyChain(entries, stream, from, to) == Err(ChainBroken(rows[i].seqno, PrevHashMismatch)))
      && (rows[i].prevEntryHash == before && |rows[i].entryHash| == HASH_LEN
          && RowHash(rows[i]) != rows[i].entryHash ==>
           VerifyChain(entries, stream, from, to) == Err(ChainBroken(rows[i].seqno, ContentMismatch)))
      && (rows[i].prevEntryHash == before && |rows[i].entryHash| != HASH_LEN ==>
           VerifyChain(entries, stream, from, to) == Err(Invalid(DigestLength)))
  {
    hide Range, ExpectedPrev, CheckRows, RowHash, Linked;
    var rows := Range(entries, stream, from, to);
    var prev := ExpectedPrev(entries, stream, rows[0].seqno).value;
    CheckRowsAcceptsLinked(rows[..i], prev);
    OneMoreRow(rows, i, prev);
    if CheckRows(rows[..i + 1], prev).Err? {
      CheckRowsComposes(rows[..i + 1], rows[i + 1..], prev);
      assert rows[..i + 1] + rows[i + 1..] == rows;
    }
  }

  lemma {:induction false} OneMoreRow(rows: seq<Row>, i: nat, prev: Digest)
    requires i < |rows| && CheckRows(rows[..i], prev).Ok?
    ensures CheckRows(rows[..i + 1], prev) == CheckRow(rows[i], CheckRows(rows[..i], prev).value)
  {
    hide CheckRow;
    assert Front(rows[..i + 1]) == rows[..i];
  }

  /** The two refusals that look at no row: a reversed range and a range without rows. */
  lemma VerifyChainNeedsRows(entries: seq<Row>, stream: Text, from: nat, to: nat)
    ensures from > to ==> VerifyChain(entries, stream, from, to) == Err(Invalid(ReversedRange))
    ensures from <= to && Range(entries, stream, from, to) == [] ==>
      VerifyChain(entries, stream, from, to) == Err(StreamNotFound(stream))
  {
  }

  // ----- Composition -----

  ghost predicate SeqnosArePositive(entries: seq<Row>) {
    forall i | 0 <= i < |entries| :: entries[i].seqno >= 1
  }

  function LastHash(rows: seq<Row>): Result<Digest> {
    if rows == [] then Ok(ZERO_HASH) else DigestFromVec(Last(rows).entryHash)
  }

  /** The predecessor lookup finds the last row below the range, wherever the range starts. */
  lemma {:induction false} ExpectedPrevIsBelow(entries: seq<Row>, stream: Text, from: nat, to: nat)
    requires SeqnosArePositive(entries) && 1 <= from && Range(entries, stream, from, to) != []
    ensures ExpectedPrev(entries, stream, Range(entries, stream, from, to)[0].seqno)
      == LastHash(Range(entries, stream, 1, from - 1))
  {
    hide Range;
    var rows := Range(entries, stream, from, to);
    var first := rows[0].seqno;
    RangeAllInRange(entries, stream, from, to);
    RangeIsSorted(entries, stream, from, to);
    if first > 1 {
      RangeSplits(entries, stream, 1, from - 1, first - 1);
      RangeAllInRange(entries, stream, from, first - 1);
      var gap := Range(entries, stream, from, first - 1);
      if gap != [] {
        RangeMembers(entries, stream, from, to, gap[0]);
      }
      assert Range(entries, stream, 1, first - 1) == Range(entries, stream, 1, from - 1);
    } else {
      RangeAllInRange(entries, stream, 1, from - 1);
    }
  }

  /** Seqno 0 is unused, so a range from 0 is the range from 1. */
  lemma {:induction false} RangeFromZero(entries: seq<Row>, stream: Text, to: nat)
    requires SeqnosArePositive(entries)
    ensures Range(entries, stream, 0, to) == Range(entries, stream, 1, to)
  {
    hide Range;
    RangeSplits(entries, stream, 0, 0, to);
    if Range(entries, stream, 0, 0) != [] {
      RangeMembers(entries, stream, 0, 0, Range(entries, stream, 0, 0)[0]);
    }
  }

  function Max1(n: nat): nat {
    if n == 0 then 1 else n
  }

  /** On a store with positive seqnos, `verify_chain` is: check the rows in range, starting from the
      digest of the last row below the range. */
  lemma {:induction false} VerifyChainChecks(entries: seq<Row>, stream: Text, from: nat, to: nat)
    requires SeqnosArePositive(entries) && from <= to && Range(entries, stream, from, to) != []
    ensures var below := LastHash(Range(entries, stream, 1, Max1(from) - 1));
      VerifyChain(entries, stream, from, to).Ok? <==>
      below.Ok? && CheckRows(Range(entries, stream, from, to), below.value).Ok?
  {
    hide Range, CheckRows, LastHash, ExpectedPrev;
    if from == 0 {
      RangeFromZero(entries, stream, to);
    }
    ExpectedPrevIsBelow(entries, stream, Max1(from), to);
  }

  /** `verify_chain` composes: when both halves hold rows of the stream, the whole is accepted
      exactly when both halves are. */
  lemma {:induction false} VerifyChainComposes(entries: seq<Row>, stream: Text, a: nat, b: nat, c: nat)
    requires SeqnosArePositive(entries) && a <= b < c
    requires Range(entries, stream, a, b) != [] && Range(entries, stream, b + 1, c) != []
    ensures VerifyChain(entries, stream, a, c).Ok? <==>
      VerifyChain(entries, stream, a, b).Ok? && VerifyChain(entries, stream, b + 1, c).Ok?
  {
    hide Range, CheckRows, VerifyChain;
    var low, high := Range(entries, stream, a, b), Range(entries, stream, b + 1, c);
    RangeSplits(entries, stream, a, b, c);
    VerifyChainChecks(entries, stream, a, b);
    VerifyChainChecks(entries, stream, b + 1, c);
    VerifyChainChecks(entries, stream, a, c);
    var below := LastHash(Range(entries, stream, 1, Max1(a) - 1));
    if a == 0 {
      RangeFromZero(entries, stream, b);
    }
    RangeSplits(entries, stream, 1, Max1(a) - 1, b);
    assert Last(Range(entries, stream, 1, b)) == Last(low);
    if below.Ok? {
      CheckRowsComposes(low, high, below.value);
      CheckRowsAcceptsLinked(low, below.value);
    }
  }

  // ----- Binding -----

  function RowLinks(rows: seq<Row>): (links: seq<Link>)
    ensures |links| == |rows|
    ensures forall i | 0 <= i < |rows| :: links[i] == Link(RowMessage(rows[i]), rows[i].prevEntryHash)
  {
    if rows == [] then [] else RowLinks(Front(rows)) + [Link(RowMessage(Last(rows)), Last(rows).prevEntryHash)]
  }

  /** The break that two different linked lists of rows with one last digest contain. */
  function RowsBreak(a: seq<Row>, b: seq<Row>): Break {
    ChainBreak(RowLinks(a), RowLinks(b))
  }

  /** The integers and lengths of every row fit the Rust types that hold them. */
  ghost predicate RowsInRange(rows: seq<Row>) {
    forall i | 0 <= i < |rows| :: EntryInRange(RowToEntry(rows[i]))
  }

  lemma {:induction false} LinkedRowsAreChained(rows: seq<Row>)
    requires Linked(rows, ZERO_HASH)
    ensures Chained(RowLinks(rows)) && Tip(RowLinks(rows)) == if rows == [] then ZERO_HASH else Last(rows).entryHash
  {
    hide RowMessage;
    if rows != [] {
      var n := |rows| - 1;
      assert forall i | 0 <= i < n :: LinkedAt(Front(rows), ZERO_HASH, i) == LinkedAt(rows, ZERO_HASH, i);
      LinkedRowsAreChained(Front(rows));
      assert LinkedAt(rows, ZERO_HASH, n);
      assert Front(RowLinks(rows)) == RowLinks(Front(rows));
    }
  }

  lemma {:induction false} EqualMessagesEqualRows(r: Row, q: Row)
    requires EntryInRange(RowToEntry(r)) && EntryInRange(RowToEntry(q)) && RowMessage(r) == RowMessage(q)
    ensures RowToEntry(r) == RowToEntry(q) && RowHash(r) == RowHash(q)
  {
    hide EncodeEntry;
    EntryEncodingIsInjective(RowToEntry(r), RowToEntry(q));
  }

  /** Two linked lists of rows with one last digest are equal row by row and field by field, or
      `RowsBreak` is a collision of SHA-256 or a preimage of the all-zero digest. */
  lemma {:induction false} LinkedRowsAreBound(a: seq<Row>, b: seq<Row>)
    requires a != [] && b != [] && RowsInRange(a) && RowsInRange(b)
    requires Linked(a, ZERO_HASH) && Linked(b, ZERO_HASH) && Last(a).entryHash == Last(b).entryHash
    ensures a == b || RowsBreak(a, b).Genuine()
  {
    hide RowMessage, RowHash, EntryInRange, ChainBreak, RowToEntry;
    LinkedRowsAreChained(a);
    LinkedRowsAreChained(b);
    forall i, j | 0 <= i < |a| && 0 <= j < |b| && RowLinks(a)[i].message == RowLinks(b)[j].message
      ensures RowToEntry(a[i]) == RowToEntry(b[j]) && a[i].prevEntryHash == b[j].prevEntryHash
    {
      EqualMessagesEqualRows(a[i], b[j]);
      SameEntrySamePrev(a[i], b[j]);
    }
    TipBindsChain(RowLinks(a), RowLinks(b));
    if RowLinks(a) == RowLinks(b) {
      forall i | 0 <= i < |a| ensures a[i] == b[i] {
        assert RowLinks(a)[i].message == RowLinks(b)[i].message;
        assert LinkedAt(a, ZERO_HASH, i) && LinkedAt(b, ZERO_HASH, i);
        EqualMessagesEqualRows(a[i], b[i]);
        SameEntrySameHashSameRow(a[i], b[i]);
      }
    }
  }

  lemma SameEntrySamePrev(r: Row, q: Row)
    requires RowToEntry(r) == RowToEntry(q)
    ensures r.prevEntryHash == q.prevEntryHash
  {
  }

  lemma SameEntrySameHashSameRow(r: Row, q: Row)
    requires RowToEntry(r) == RowToEntry(q) && r.entryHash == q.entryHash
    ensures r == q
  {
  }

  lemma {:induction false} AcceptedFromGenesisIsLinked(entries: seq<Row>, stream: Text, to: nat)
    requires VerifyChain(entries, stream, 1, to).Ok?
    ensures Range(entries, stream, 1, to) != [] && Linked(Range(entries, stream, 1, to), ZERO_HASH)
  {
    hide Range, Linked, CheckRows;
    var rows := Range(entries, stream, 1, to);
    RangeAllInRange(entries, stream, 1, to);
    RangeIsSorted(entries, stream, 1, to);
    var first := rows[0].seqno;
    if first > 1 {
      var before := Range(entries, stream, 1, first - 1);
      RangeAllInRange(entries, stream, 1, first - 1);
      if before != [] {
        RangeMembers(entries, stream, 1, to, before[0]);
        assert before[0] in rows;
      }
    }
    CheckRowsAcceptsLinked(rows, ZERO_HASH);
  }

  /** Chain binding. Whatever two stores hold, if `verify_chain` accepts a stream from seqno 1 in
      both and the last rows carry one entry hash, the rows are equal field by field, also when the
      two ranges have different ends; or `RowsBreak` of the two is genuine. */
  lemma {:induction false} VerifyChainBinds(a: seq<Row>, b: seq<Row>, stream: Text, stream': Text, n: nat, n': nat)
    requires VerifyChain(a, stream, 1, n).Ok? && VerifyChain(b, stream', 1, n').Ok?
    requires RowsInRange(a) && RowsInRange(b)
    requires Range(a, stream, 1, n) != [] && Range(b, stream', 1, n') != []
    requires Last(Range(a, stream, 1, n)).entryHash == Last(Range(b, stream', 1, n')).entryHash
    ensures Range(a, stream, 1, n) == Range(b, stream', 1, n')
      || RowsBreak(Range(a, stream, 1, n), Range(b, stream', 1, n')).Genuine()
  {
    hide Range, VerifyChain, Linked, RowsBreak, EntryInRange;
    AcceptedFromGenesisIsLinked(a, stream, n);
    AcceptedFromGenesisIsLinked(b, stream', n');
    RangeAllInRange(a, stream, 1, n);
    RangeAllInRange(b, stream', 1, n');
    LinkedRowsAreBound(Range(a, stream, 1, n), Range(b, stream', 1, n'));
  }
}
