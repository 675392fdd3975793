/** Several writers appending to one store with unique seqnos, where the three store calls of an
    append (last row of the stream, global head, insert) are separate atomic steps that interleave in
    any order.

    Sealing a payload happens before the first of these calls and only changes the draft, so both
    append operations are covered. */
module Interleaving {
  import opened Basics
  import opened Records
  import opened Tables
  import opened Chain
  import opened Engine
  import opened Invariants
  import opened Runs
  import opened ChainTheorems

  /** How far a writer's append has come. */
  datatype Phase =
    | GotLink(p: Process, d: Draft, link: Digest)
    | GotSeqno(p: Process, d: Draft, link: Digest, seqno: nat)

  /** The shared rows, and the writers in the middle of an append. */
  datatype Shared = Shared(entries: seq<Row>, active: map<nat, Phase>)

  datatype Action =
    | ReadLast(w: nat, p: Process, d: Draft)
    | ReadHead(w: nat)
    | Insert(w: nat)
    | Crash(w: nat)

  /** One store call of one writer, or its end in the middle of an append. A call that the writer is not
      about to make does nothing. */
  function Perform(s: Shared, a: Action): Shared {
    match a
    case ReadLast(w, p, d) =>
      if w !in s.active && LinkHash(s.entries, d.streamId).Ok? then
        s.(active := s.active[w := GotLink(p, d, LinkHash(s.entries, d.streamId).value)])
      else s
    case ReadHead(w) =>
      if w in s.active && s.active[w].GotLink? then
        s.(active := s.active[w := GotSeqno(s.active[w].p, s.active[w].d, s.active[w].link, NextSeqno(s.entries))])
      else s
    case Insert(w) =>
      if w in s.active && s.active[w].GotSeqno? then
        Shared(InsertRow(s.entries, SealRow(s.active[w].p, s.active[w].d, s.active[w].seqno, s.active[w].link)),
               s.active - {w})
      else s
    case Crash(w) => s.(active := s.active - {w})
  }

  /** The insert contract of both stores: a taken seqno is refused and nothing changes. */
  function InsertRow(entries: seq<Row>, row: Row): seq<Row> {
    if HasSeqno(entries, row.seqno) then entries else entries + [row]
  }

  function PerformAll(s: Shared, actions: seq<Action>): Shared {
    if actions == [] then s else Perform(PerformAll(s, Front(actions)), Last(actions))
  }

  // ----- Seqnos, under every interleaving -----

  /** Seqnos are dense, and every seqno a writer holds was free or next when it was read. */
  ghost predicate SeqnosOk(s: Shared) {
    && Dense(s.entries)
    && forall w | w in s.active && s.active[w].GotSeqno? :: 1 <= s.active[w].seqno <= |s.entries| + 1
  }

  lemma {:induction false} DenseHasSeqno(entries: seq<Row>, n: nat)
    requires Dense(entries)
    ensures HasSeqno(entries, n) <==> 1 <= n <= |entries|
  {
    if 1 <= n <= |entries| {
      assert entries[n - 1].seqno == n;
    }
  }

  /** An insert wins exactly when no other insert came after its writer read the head; a losing
      insert leaves the rows as they were. */
  lemma {:induction false} InsertWinsIff(s: Shared, w: nat)
    requires SeqnosOk(s) && w in s.active && s.active[w].GotSeqno?
    ensures var ph := s.active[w];
      Perform(s, Insert(w)).entries
      == if ph.seqno == |s.entries| + 1 then s.entries + [SealRow(ph.p, ph.d, |s.entries| + 1, ph.link)] else s.entries
  {
    hide SealRow;
    DenseHasSeqno(s.entries, s.active[w].seqno);
    SealedRowHashes(s.active[w].p, s.active[w].d, s.active[w].seqno, s.active[w].link);
  }

  lemma {:induction false} PerformKeepsSeqnos(s: Shared, a: Action)
    requires SeqnosOk(s)
    ensures SeqnosOk(Perform(s, a))
    ensures s.entries <= Perform(s, a).entries && |Perform(s, a).entries| <= |s.entries| + 1
  {
    hide SealRow, LinkHash, HasSeqno;
    DenseGlobalHead(s.entries);
    if a.Insert? && a.w in s.active && s.active[a.w].GotSeqno? {
      InsertWinsIff(s, a.w);
      SealedRowHashes(s.active[a.w].p, s.active[a.w].d, |s.entries| + 1, s.active[a.w].link);
    }
  }

  /** However the calls of any number of writers interleave, the seqnos are 1, 2, 3, ... in insertion
      order and no row is ever changed or removed. */
  lemma {:induction false} SeqnosStayDense(s: Shared, actions: seq<Action>)
    requires SeqnosOk(s)
    ensures SeqnosOk(PerformAll(s, actions)) && s.entries <= PerformAll(s, actions).entries
  {
    hide Perform;
    if actions != [] {
      SeqnosStayDense(s, Front(actions));
      PerformKeepsSeqnos(PerformAll(s, Front(actions)), Last(actions));
    }
  }

  // ----- Chains, with one appender per stream -----

  /** At most one writer is in the middle of an append to the stream. */
  ghost predicate OneAppender(s: Shared, stream: Text) {
    forall v, w | v in s.active && w in s.active && s.active[v].d.streamId == stream
      && s.active[w].d.streamId == stream ::
      v == w
  }

  /** So it stays in every state of the schedule. */
  ghost predicate AlwaysOneAppender(s: Shared, actions: seq<Action>, stream: Text) {
    && OneAppender(PerformAll(s, actions), stream)
    && (actions != [] ==> AlwaysOneAppender(s, Front(actions), stream))
  }

  /** Every writer in the middle of an append to the stream holds its tip. */
  ghost predicate LinksHeld(s: Shared, stream: Text) {
    forall w | w in s.active && s.active[w].d.streamId == stream :: LinkHash(s.entries, stream) == Ok(s.active[w].link)
  }

  lemma {:induction false} LinkHashIgnoresOthers(entries: seq<Row>, r: Row, stream: Text)
    requires r.streamId != stream
    ensures LinkHash(entries + [r], stream) == LinkHash(entries, stream)
  {
    assert Front(entries + [r]) == entries && Last(entries + [r]) == r;
  }

  /** The action, if it is an insert that wins on the stream, links to the stream's tip of that moment. */
  predicate WinLinksToTip(s: Shared, a: Action, stream: Text) {
    a.Insert? && a.w in s.active && s.active[a.w].GotSeqno? && s.active[a.w].d.streamId == stream
    && !HasSeqno(s.entries, s.active[a.w].seqno)
    ==> LinkHash(s.entries, stream) == Ok(s.active[a.w].link)
  }

  predicate WinsLinkToTip(s: Shared, actions: seq<Action>, stream: Text) {
    actions != [] ==>
      && WinsLinkToTip(s, Front(actions), stream)
      && WinLinksToTip(PerformAll(s, Front(actions)), Last(actions), stream)
  }

  lemma {:induction false} PerformKeepsChainIff(s: Shared, a: Action, stream: Text)
    requires SeqnosOk(s)
    ensures ChainValid(Perform(s, a).entries, stream)
      <==> ChainValid(s.entries, stream) && WinLinksToTip(s, a, stream)
  {
    hide SealRow, LinkHash, HasSeqno, ChainValid, RowHash;
    if a.Insert? && a.w in s.active && s.active[a.w].GotSeqno? {
      var ph := s.active[a.w];
      InsertWinsIff(s, a.w);
      DenseHasSeqno(s.entries, ph.seqno);
      if ph.seqno == |s.entries| + 1 {
        SealedRowHashes(ph.p, ph.d, ph.seqno, ph.link);
        ChainGrowsIff(s.entries, SealRow(ph.p, ph.d, ph.seqno, ph.link), stream);
      }
    }
  }

  lemma {:induction false} PerformKeepsLinks(s: Shared, a: Action, stream: Text)
    requires SeqnosOk(s) && LinksHeld(s, stream) && OneAppender(s, stream)
    ensures LinksHeld(Perform(s, a), stream)
  {
    hide SealRow, LinkHash, HasSeqno;
    if a.Insert? && a.w in s.active && s.active[a.w].GotSeqno? {
      InsertWinsIff(s, a.w);
      var ph := s.active[a.w];
      if ph.seqno == |s.entries| + 1 && ph.d.streamId != stream {
        SealedRowHashes(ph.p, ph.d, ph.seqno, ph.link);
        LinkHashIgnoresOthers(s.entries, SealRow(ph.p, ph.d, ph.seqno, ph.link), stream);
      }
    }
  }

  lemma {:induction false} HeldLinksWin(s: Shared, a: Action, stream: Text)
    requires LinksHeld(s, stream)
    ensures WinLinksToTip(s, a, stream)
  {
    hide LinkHash, HasSeqno;
  }

  /** A stream that at every moment has at most one appender keeps a valid chain, whatever the
      writers of all other streams do in between, including racing one another. */
  lemma {:induction false} ChainStaysValid(s: Shared, actions: seq<Action>, stream: Text)
    requires SeqnosOk(s) && ChainValid(s.entries, stream) && LinksHeld(s, stream)
    requires AlwaysOneAppender(s, actions, stream)
    ensures ChainValid(PerformAll(s, actions).entries, stream) && LinksHeld(PerformAll(s, actions), stream)
  {
    hide Perform, ChainValid, LinksHeld, WinLinksToTip;
    if actions != [] {
      var before := PerformAll(s, Front(actions));
      ChainStaysValid(s, Front(actions), stream);
      SeqnosStayDense(s, Front(actions));
      PerformKeepsLinks(before, Last(actions), stream);
      HeldLinksWin(before, Last(actions), stream);
      PerformKeepsChainIff(before, Last(actions), stream);
    }
  }

  /** Without any restriction on the schedule: the stream's chain is valid after it exactly when every
      winning insert on the stream linked to the stream's tip of that moment. */
  lemma {:induction false} ChainStaysValidIff(s: Shared, actions: seq<Action>, stream: Text)
    requires SeqnosOk(s) && ChainValid(s.entries, stream)
    ensures ChainValid(PerformAll(s, actions).entries, stream) <==> WinsLinkToTip(s, actions, stream)
  {
    hide Perform, ChainValid, WinLinksToTip;
    if actions != [] {
      ChainStaysValidIff(s, Front(actions), stream);
      SeqnosStayDense(s, Front(actions));
      PerformKeepsChainIff(PerformAll(s, Front(actions)), Last(actions), stream);
    }
  }

  /** The three calls of one writer, undisturbed, are the append of the sequential engine. */
  lemma {:induction false} UndisturbedIsAppend(t: Store, active: map<nat, Phase>, w: nat, p: Process, d: Draft)
    requires Dense(t.entries) && ChainValid(t.entries, d.streamId) && w !in active
    ensures PerformAll(Shared(t.entries, active), [ReadLast(w, p, d), ReadHead(w), Insert(w)])
      == Shared(AppendRow(t, p, d).0.entries, active)
  {
    hide SealRow, HasSeqno, ChainValid, LinkHash, Perform;
    var s0 := Shared(t.entries, active);
    var a, b, c := ReadLast(w, p, d), ReadHead(w), Insert(w);
    LinkIsDefined(t.entries, d.streamId);
    PerformThree(s0, a, b, c);
    LoneWriter(s0, w, p, d);
    LoneAppend(t, p, d);
  }

  lemma {:induction false} LinkIsDefined(entries: seq<Row>, stream: Text)
    requires Dense(entries) && ChainValid(entries, stream)
    ensures LinkHash(entries, stream).Ok?
  {
    hide CheckRows, StreamRows, LinkHash;
    LinkIsTip(entries, stream);
  }

  lemma {:induction false} PerformThree(s: Shared, a: Action, b: Action, c: Action)
    ensures PerformAll(s, [a, b, c]) == Perform(Perform(Perform(s, a), b), c)
  {
    hide Perform;
    assert Front([a, b, c]) == [a, b] && Front([a, b]) == [a] && Front([a]) == [];
    assert PerformAll(s, [a]) == Perform(s, a);
    assert PerformAll(s, [a, b]) == Perform(PerformAll(s, [a]), b);
  }

  lemma {:induction false} LoneWriter(s: Shared, w: nat, p: Process, d: Draft)
    requires w !in s.active && LinkHash(s.entries, d.streamId).Ok?
    ensures Perform(Perform(Perform(s, ReadLast(w, p, d)), ReadHead(w)), Insert(w))
      == Shared(InsertRow(s.entries, SealRow(p, d, NextSeqno(s.entries), LinkHash(s.entries, d.streamId).value)),
                s.active)
  {
    hide LinkHash, SealRow, NextSeqno, InsertRow;
    var s3 := Perform(Perform(Perform(s, ReadLast(w, p, d)), ReadHead(w)), Insert(w));
    assert s3.active == s.active;
  }

  lemma {:induction false} LoneAppend(t: Store, p: Process, d: Draft)
    requires LinkHash(t.entries, d.streamId).Ok?
    ensures AppendRow(t, p, d).0.entries
      == InsertRow(t.entries, SealRow(p, d, NextSeqno(t.entries), LinkHash(t.entries, d.streamId).value))
  {
    hide LinkHash, SealRow, NextSeqno, HasSeqno;
  }

  // ----- Why one appender per stream is needed -----

  /** Two writers on one stream both read the tip before either inserts. */
  function Race(p: Process, d: Draft, e: Draft): seq<Action> {
    [ReadLast(1, p, d), ReadLast(2, p, e), ReadHead(2), Insert(2), ReadHead(1), Insert(1)]
  }

  const EMPTY := Shared([], map[])

  lemma {:induction false} RaceOutcome(p: Process, d: Draft, e: Draft)
    ensures PerformAll(EMPTY, Race(p, d, e)).entries == [SealRow(p, e, 1, ZERO_HASH), SealRow(p, d, 2, ZERO_HASH)]
  {
    hide SealRow, Perform, PerformAll;
    var a, b := [ReadLast(1, p, d), ReadLast(2, p, e), ReadHead(2)], [Insert(2), ReadHead(1), Insert(1)];
    PerformThree(EMPTY, ReadLast(1, p, d), ReadLast(2, p, e), ReadHead(2));
    RaceReads(p, d, e);
    var mid := PerformAll(EMPTY, a);
    RaceWrites(p, d, e, mid);
    PerformThree(mid, Insert(2), ReadHead(1), Insert(1));
    PerformSplits(EMPTY, a, b);
    assert a + b == Race(p, d, e);
  }

  lemma {:induction false} PerformSplits(s: Shared, a: seq<Action>, b: seq<Action>)
    ensures PerformAll(s, a + b) == PerformAll(PerformAll(s, a), b)
  {
    hide Perform;
    if b == [] {
      assert a + b == a;
    } else {
      assert Front(a + b) == a + Front(b);
      PerformSplits(s, a, Front(b));
    }
  }

  lemma {:induction false} RaceReads(p: Process, d: Draft, e: Draft)
    ensures Perform(Perform(Perform(EMPTY, ReadLast(1, p, d)), ReadLast(2, p, e)), ReadHead(2))
      == Shared([], map[1 := GotLink(p, d, ZERO_HASH), 2 := GotSeqno(p, e, ZERO_HASH, 1)])
  {
    hide SealRow, InsertRow;
    var s1 := Perform(EMPTY, ReadLast(1, p, d));
    assert s1 == Shared([], map[1 := GotLink(p, d, ZERO_HASH)]);
  }

  lemma {:induction false} RaceWrites(p: Process, d: Draft, e: Draft, mid: Shared)
    requires mid == Shared([], map[1 := GotLink(p, d, ZERO_HASH), 2 := GotSeqno(p, e, ZERO_HASH, 1)])
    ensures Perform(Perform(Perform(mid, Insert(2)), ReadHead(1)), Insert(1)).entries
      == [SealRow(p, e, 1, ZERO_HASH), SealRow(p, d, 2, ZERO_HASH)]
  {
    hide SealRow, Perform, NextSeqno;
    var first := SealRow(p, e, 1, ZERO_HASH);
    SealedRowHashes(p, e, 1, ZERO_HASH);
    InsertWinsIff(mid, 2);
    var s1 := Perform(mid, Insert(2));
    assert s1.entries == [first];
    SecondReads(s1, p, d) by { OthersStay(mid, 2, 1); }
    var s2 := Perform(s1, ReadHead(1));
    InsertWinsIff(s2, 1);
  }

  lemma {:induction false} OthersStay(s: Shared, w: nat, v: nat)
    requires v in s.active && v != w
    ensures v in Perform(s, Insert(w)).active && Perform(s, Insert(w)).active[v] == s.active[v]
    ensures w in s.active && s.active[w].GotSeqno? ==> Perform(s, Insert(w)).active == s.active - {w}
  {
    hide SealRow, InsertRow;
  }

  lemma {:induction false} SecondReads(s: Shared, p: Process, d: Draft)
    requires |s.entries| == 1 && s.entries[0].seqno == 1 && s.active == map[1 := GotLink(p, d, ZERO_HASH)]
    ensures Perform(s, ReadHead(1)) == Shared(s.entries, map[1 := GotSeqno(p, d, ZERO_HASH, 2)])
  {
    DenseGlobalHead(s.entries);
    hide SealRow, NextSeqno;
  }

  /** Two appenders on one stream can break its chain: after this race both rows link to the zero
      digest, so `verify_chain` reports the second one, unless the first row's bytes are a preimage
      of the zero digest. */
  lemma {:induction false} RaceBreaksChain(p: Process, d: Draft, e: Draft)
    requires d.streamId == e.streamId
    ensures var entries := PerformAll(EMPTY, Race(p, d, e)).entries;
      && |entries| == 2
      && (VerifyChain(entries, d.streamId, 1, 2) == Err(ChainBroken(2, PrevHashMismatch))
          || ZeroPreimage(RowMessage(entries[0])).Genuine())
  {
    hide SealRow, RowMessage, PerformAll, CheckRows, FilterRange;
    RaceOutcome(p, d, e);
    SealedRowHashes(p, e, 1, ZERO_HASH);
    SealedRowHashes(p, d, 2, ZERO_HASH);
    var entries := PerformAll(EMPTY, Race(p, d, e)).entries;
    assert Dense(entries);
    DenseRange(entries, d.streamId, 1, 2);
    TwoRowsInRange(entries, d.streamId);
    TwoRowsChecked(entries[0], entries[1]);
  }

  lemma {:induction false} TwoRowsInRange(entries: seq<Row>, stream: Text)
    requires |entries| == 2 && entries[0].streamId == stream && entries[1].streamId == stream
    requires entries[0].seqno == 1 && entries[1].seqno == 2
    ensures FilterRange(entries, stream, 1, 2) == entries
  {
    assert Front(entries) == [entries[0]] && Front([entries[0]]) == [];
    assert FilterRange([entries[0]], stream, 1, 2) == [entries[0]];
  }

  lemma {:induction false} TwoRowsChecked(r: Row, q: Row)
    requires r.prevEntryHash == ZERO_HASH && q.prevEntryHash == ZERO_HASH && r.entryHash == RowHash(r)
    ensures CheckRows([r, q], ZERO_HASH) == Err(ChainBroken(q.seqno, PrevHashMismatch)) || RowHash(r) == ZERO_HASH
  {
    hide RowMessage;
    assert Front([r, q]) == [r] && Front([r]) == [];
    assert CheckRows([r], ZERO_HASH) == Ok(r.entryHash);
  }
}
