/** When `open_payload` gives back what `append_encrypted` sealed, in any later state of any run. */
module PayloadTheorems {
  import opened Basics
  import opened Records
  import opened Encoder
  import opened Crypto
  import opened Tables
  import opened Checkpoints
  import opened HeadFiles
  import opened Engine
  import opened Invariants
  import opened Preservation
  import opened Runs
  import opened SegmentTheorems
  import opened InclusionTheorems

  // ----- How a stream's segment list evolves -----

  /** A stream's list of segments only grows at its end, except for signatures; a new segment ends
      at the stream's head and takes the store's next id. */
  lemma {:induction false} StepExtendsList(s: State, step: Step, stream: Text)
    requires StateOk(s)
    ensures var list := FilterStream(s.store.segments, stream);
      var list' := FilterStream(Apply(s, step).store.segments, stream);
      && |list| <= |list'| <= |list| + 1
      && SameButSignatures(list, list'[..|list|])
      && (|list'| > |list| ==>
           && Head(s.store.entries, stream).Some?
           && Last(list').seqEnd == Head(s.store.entries, stream).value
           && Last(list').segmentId == |s.store.segments| + 1)
  {
    hide StateOk, AppendRow, CloseSegment, SealedDraft, UpsertStream, WithDeprecation, ResolveTier, OpenSegmentId,
         Head, SealRow, ComputeCheckpointHash, SegmentGet, HeadUpsert, Hex, LinkHash, FilterStream, WithSignature,
         Closes, LeafEntries;
    var list := FilterStream(s.store.segments, stream);
    assert list[..|list|] == list;
    StateIsStoreOk(s);
    DenseOfState(s);
    match step
    case DoAppend(p, d) =>
      AppendRowAdds(s.store, p, d);
    case DoAppendEncrypted(p, d, nonce) =>
      if RejectIfDeprecated(s.store, d.streamId).Ok? && p.masterKey.Some? && ResolveTier(s.store, d.streamId).Ok? {
        AppendRowAdds(s.store, p, SealedDraft(p.masterKey.value, d, ResolveTier(s.store, d.streamId).value,
                                              OpenSegmentId(s.store, d.streamId), nonce));
      }
    case DoClose(closing, now) => CloseExtendsList(s, closing, now, stream);
    case DoSign(p, name, id, entropy, now) =>
      forall signature, identity
        ensures SameButSignatures(list, FilterStream(WithSignature(s.store.segments, id, signature, identity), stream))
      {
        SignedList(s.store, id, signature, identity, stream);
      }
      var list' := FilterStream(Apply(s, step).store.segments, stream);
      assert SameButSignatures(list, list');
      assert list'[..|list|] == list';
    case DoCreateStream(name, tier, description, now) =>
    case DoDeprecate(name, now) =>
  }

  lemma {:induction false} CloseExtendsList(s: State, closing: Text, now: Text, stream: Text)
    requires StateOk(s)
    ensures var list := FilterStream(s.store.segments, stream);
      var list' := FilterStream(CloseSegment(s.store, closing, now).0.segments, stream);
      if CloseSegment(s.store, closing, now).1.Ok? && closing == stream then
        && |list'| == |list| + 1 && list'[..|list|] == list
        && Head(s.store.entries, stream).Some?
        && Last(list').seqEnd == Head(s.store.entries, stream).value
        && Last(list').segmentId == |s.store.segments| + 1
      else list' == list
  {
    hide StateOk, CloseSegment, Head, FilterStream, LeafEntries, FilterRange, LeafHashes, TipCheckpoint, SegmentStart;
    StateIsStoreOk(s);
    DenseOfState(s);
    var row, rows := CloseInserts(s.store, closing, now);
    if CloseSegment(s.store, closing, now).1.Ok? {
      CloseSucceedsIff(s, closing, now);
      CloseKeepsIds(s.store, row, rows);
      FilterStreamGrows(s.store.segments, row.(segmentId := NewSegmentId(s.store)), stream);
    }
  }

  lemma {:induction false} HeadIsMax(entries: seq<Row>, stream: Text, q: nat)
    requires Dense(entries) && 1 <= q <= |entries| && entries[q - 1].streamId == stream
    ensures Head(entries, stream).Some? && Head(entries, stream).value >= q
  {
    if q < |entries| {
      HeadIsMax(Front(entries), stream, q);
    }
  }

  /** Since the row with seqno q was appended, the stream's earlier segments are the ones it had, and
      every segment closed since ends at or after q. */
  ghost predicate ListSince(before: seq<SegmentRow>, t: Store, stream: Text, q: nat) {
    var list := FilterStream(t.segments, stream);
    && |before| <= |list|
    && SameButSignatures(before, list[..|before|])
    && forall i | |before| <= i < |list| :: list[i].seqEnd >= q
  }

  lemma {:induction false} SameButSignaturesComposes(a: seq<SegmentRow>, b: seq<SegmentRow>, b': seq<SegmentRow>)
    requires |a| <= |b| <= |b'| && SameButSignatures(a, b[..|a|]) && SameButSignatures(b, b'[..|b|])
    ensures SameButSignatures(a, b'[..|a|])
    ensures forall i | 0 <= i < |b| :: b'[i].seqEnd == b[i].seqEnd && b'[i].segmentId == b[i].segmentId
  {
    forall i | 0 <= i < |b| ensures b'[i].seqEnd == b[i].seqEnd && b'[i].segmentId == b[i].segmentId {
      assert b'[..|b|][i] == b'[i];
    }
    forall i | 0 <= i < |a|
      ensures b'[..|a|][i] == a[i].(signature := b'[..|a|][i].signature, signerIdentity := b'[..|a|][i].signerIdentity)
    {
      assert b[..|a|][i] == b[i] && b'[..|b|][i] == b'[i] == b'[..|a|][i];
    }
  }

  lemma {:induction false} StepKeepsListSince(s: State, step: Step, before: seq<SegmentRow>, stream: Text, q: nat)
    requires StateOk(s) && 1 <= q <= |s.store.entries| && s.store.entries[q - 1].streamId == stream
    requires ListSince(before, s.store, stream, q)
    ensures ListSince(before, Apply(s, step).store, stream, q)
  {
    hide StateOk, Apply, FilterStream, Head, SameButSignatures;
    DenseOfState(s);
    StepExtendsList(s, step, stream);
    HeadIsMax(s.store.entries, stream, q);
    var list := FilterStream(s.store.segments, stream);
    var list' := FilterStream(Apply(s, step).store.segments, stream);
    SameButSignaturesComposes(before, list, list');
    forall i | |before| <= i < |list'| ensures list'[i].seqEnd >= q {
      if i >= |list| {
        assert list'[i] == Last(list');
      }
    }
  }

  lemma {:induction false} RunKeepsListSince(s: State, steps: seq<Step>, before: seq<SegmentRow>, stream: Text, q: nat)
    requires StateOk(s) && 1 <= q <= |s.store.entries| && s.store.entries[q - 1].streamId == stream
    requires ListSince(before, s.store, stream, q)
    ensures s.store.entries <= Run(s, steps).store.entries
    ensures ListSince(before, Run(s, steps).store, stream, q)
  {
    hide StateOk, Apply, ListSince, LeafEntries;
    if steps != [] {
      RunKeepsListSince(s, Front(steps), before, stream, q);
      RunKeepsStateOk(s, Front(steps));
      StepKeepsListSince(Run(s, Front(steps)), Last(steps), before, stream, q);
      var more, id, rows := StepGrows(Run(s, Front(steps)), Last(steps));
    }
  }

  // ----- The segment an entry ends up in -----

  /** The segment id under which a row appended at q is opened: while it is not covered, the id that
      was expected when it was appended; once it is covered, the id of the first segment its stream
      closed since. */
  lemma {:induction false} SegmentOfEntrySince(s: State, before: seq<SegmentRow>, q: nat)
    requires StateOk(s) && 1 <= q <= |s.store.entries|
    requires ListSince(before, s.store, s.store.entries[q - 1].streamId, q)
    requires forall i | 0 <= i < |before| :: before[i].seqEnd < q
    ensures var row := s.store.entries[q - 1];
      var list := FilterStream(s.store.segments, row.streamId);
      SegmentOfEntry(s.store, row)
      == if q <= CoveredTo(s.store, row.streamId) then (if |before| < |list| then list[|before|].segmentId else 0)
         else ExpectedId(before)
    ensures var row := s.store.entries[q - 1];
      q <= CoveredTo(s.store, row.streamId) <==> |before| < |FilterStream(s.store.segments, row.streamId)|
  {
    hide StateOk, FilterStream, SegmentForSeqno, SegmentsList;
    var t := s.store;
    var stream := t.entries[q - 1].streamId;
    var list := FilterStream(t.segments, stream);
    LookupFindsCover(s, q);
    DenseOfState(s);
    DenseSegmentsList(t, stream);
    assert q == t.entries[q - 1].seqno;
    assert forall i | 0 <= i < |before| :: list[..|before|][i] == list[i];
    if |list| > |before| {
      assert list[|list| - 1].seqEnd >= q;
    }
    if SegmentForSeqno(t.segmentEntries, q).Some? {
      var k := Position(list, SegmentForSeqno(t.segmentEntries, q).value);
      if k > |before| {
        StateStreamsOk(s, stream);
        SegmentsAreOrdered(s, stream, |before|, k);
      }
    }
  }

  /** The id the open segment of a stream with these closed segments is expected to get. */
  function ExpectedId(list: seq<SegmentRow>): nat {
    if list == [] then 1 else Last(list).segmentId + 1
  }

  // ----- Opening -----

  lemma EncodingsDiffer()
    ensures AEAD_NAME != ENCODER_CBOR
  {
  }

  /** What someone holds who opens a payload, sealed under one tier and segment of a stream, under
      another tier or segment of it. */
  function MovedSeal(master: Digest, stream: Text, tier: Tier, segment: nat, nonce: Bytes, plaintext: Bytes,
          tier': Tier, segment': nat)
    : Forgery
  {
    Forgery(SegmentKey(StreamKey(master, stream, tier), segment), nonce, AeadAad(stream, tier, segment), plaintext,
            SegmentKey(StreamKey(master, stream, tier'), segment'), AeadAad(stream, tier', segment'))
  }

  /** A row that `append_encrypted` wrote opens exactly when its stream has the tier it was sealed
      under and it is looked up under the segment id it was sealed under; or opening it is a forgery. */
  lemma {:induction false} SealedRowOpensIff(t: Store, p: Process, row: Row, master: Digest, tier: Tier, segment: nat,
                                             nonce: Bytes, plaintext: Bytes)
    requires Get(t.entries, row.seqno) == Some(row) && row.payloadEncoding == AEAD_NAME && |nonce| == NONCE_LEN
    requires p.masterKey == Some(master)
    requires row.payload
      == Sealed(SegmentKey(StreamKey(master, row.streamId, tier), segment), nonce,
                AeadAad(row.streamId, tier, segment), plaintext)
    ensures ResolveTier(t, row.streamId) == Ok(tier) && SegmentOfEntry(t, row) == segment ==>
      OpenPayload(t, p, row.seqno) == Ok(plaintext)
    ensures ResolveTier(t, row.streamId).Err? ==> OpenPayload(t, p, row.seqno) == Err(Invalid(UnknownTier))
    ensures
      && ResolveTier(t, row.streamId).Ok?
      && !(ResolveTier(t, row.streamId).value == tier && SegmentOfEntry(t, row) == segment) ==>
      || OpenPayload(t, p, row.seqno) == Err(Encoding)
      || MovedSeal(master, row.streamId, tier, segment, nonce, plaintext,
                   ResolveTier(t, row.streamId).value, SegmentOfEntry(t, row)).Genuine()
  {
    hide Get, Sealed, OpenSealed, SegmentKey, StreamKey, AeadAad, ResolveTier, SegmentOfEntry;
    EncodingsDiffer();
    TierErrorIs(t, row.streamId);
    if ResolveTier(t, row.streamId).Ok? {
      var tier', segment' := ResolveTier(t, row.streamId).value, SegmentOfEntry(t, row);
      var key := SegmentKey(StreamKey(master, row.streamId, tier), segment);
      var aad, aad' := AeadAad(row.streamId, tier, segment), AeadAad(row.streamId, tier', segment');
      if tier' == tier && segment' == segment {
        SealedOpens(key, nonce, aad, plaintext);
      } else {
        if aad == aad' {
          AadIsInjective(row.streamId, tier, segment, row.streamId, tier', segment');
        }
        SealedRefusesOtherAad(key, nonce, aad, plaintext,
                              SegmentKey(StreamKey(master, row.streamId, tier'), segment'), aad');
      }
    }
  }

  lemma {:induction false} TierErrorIs(t: Store, stream: Text)
    ensures ResolveTier(t, stream).Err? ==> ResolveTier(t, stream).error == Invalid(UnknownTier)
  {
    hide StreamGet, ParseTier;
  }

  /** What a successful `append_encrypted` in a reachable state stores. */
  lemma {:induction false} AppendEncryptedStores(s: State, p: Process, d: Draft, nonce: Bytes)
    requires StateOk(s) && AppendEncrypted(s.store, p, d, nonce).1.Ok?
    ensures p.masterKey.Some? && ResolveTier(s.store, d.streamId).Ok?
    ensures AppendEncrypted(s.store, p, d, nonce).1.value.seqno == |s.store.entries| + 1
    ensures var t := AppendEncrypted(s.store, p, d, nonce).0;
      var tier, segment := ResolveTier(s.store, d.streamId).value,
        ExpectedId(FilterStream(s.store.segments, d.streamId));
      && t == s.store.(entries := t.entries)
      && |t.entries| == |s.store.entries| + 1
      && var row := Last(t.entries);
         && row.seqno == |s.store.entries| + 1 && row.streamId == d.streamId && row.payloadEncoding == AEAD_NAME
         && row.payload == Sealed(SegmentKey(StreamKey(p.masterKey.value, d.streamId, tier), segment), nonce,
                                  AeadAad(d.streamId, tier, segment), d.payload)
  {
    hide StateOk, ResolveTier, AppendRow, SealRow, LinkHash, Sealed, SegmentKey, StreamKey, AeadAad, MinimizedTag,
         SegmentsList;
    StateIsStoreOk(s);
    DenseOfState(s);
    DenseSegmentsList(s.store, d.streamId);
    var sealed := SealedDraft(p.masterKey.value, d, ResolveTier(s.store, d.streamId).value,
                              OpenSegmentId(s.store, d.streamId), nonce);
    AppendRowAdds(s.store, p, sealed);
    SealedRowHashes(p, sealed, |s.store.entries| + 1, LinkHash(s.store.entries, d.streamId).value);
  }

  /** The earlier segments of a stream end before the next seqno. */
  lemma {:induction false} SegmentsEndBeforeNext(s: State, stream: Text)
    requires StateOk(s)
    ensures forall i | 0 <= i < |FilterStream(s.store.segments, stream)| ::
      FilterStream(s.store.segments, stream)[i].seqEnd <= |s.store.entries|
  {
    hide SegmentOk, SignatureOk, FilterStream, ChainValid, HeadsOk;
    var list := FilterStream(s.store.segments, stream);
    assert StreamOk(s.store, stream);
    forall i | 0 <= i < |list| ensures list[i].seqEnd <= |s.store.entries| {
      OneOfList(s.store.entries, s.store.segmentEntries, stream, list, i);
      SegmentEndsAtARow(s.store.entries, s.store.segmentEntries, stream, list, i);
    }
  }

  /** The state right after a successful `append_encrypted`. */
  lemma {:induction false} SealedRowAppended(s: State, p: Process, d: Draft, nonce: Bytes)
    requires StateOk(s) && AppendEncrypted(s.store, p, d, nonce).1.Ok?
    ensures var t := Apply(s, DoAppendEncrypted(p, d, nonce)).store;
      var q := |s.store.entries| + 1;
      && t.entries == AppendEncrypted(s.store, p, d, nonce).0.entries
      && |t.entries| == q && t.entries[q - 1].streamId == d.streamId && t.entries[q - 1].seqno == q
      && ListSince(FilterStream(s.store.segments, d.streamId), t, d.streamId, q)
  {
    hide StateOk, Apply, ResolveTier, AppendEncrypted, FilterStream, Sealed, SegmentKey, StreamKey, AeadAad, ExpectedId,
         SameButSignatures;
    AppendEncryptedStores(s, p, d, nonce);
    ApplyEncrypted(s, p, d, nonce);
    var before := FilterStream(s.store.segments, d.streamId);
    assert before[..|before|] == before;
    SameButSignaturesReflexive(before);
  }

  lemma {:induction false} ApplyEncrypted(s: State, p: Process, d: Draft, nonce: Bytes)
    ensures Apply(s, DoAppendEncrypted(p, d, nonce)).store == AppendEncrypted(s.store, p, d, nonce).0
  {
    hide AppendEncrypted;
  }

  lemma SameButSignaturesReflexive(list: seq<SegmentRow>)
    ensures SameButSignatures(list, list)
  {
  }

  /** The sealed row after any further run. */
  lemma {:induction false} SealedRowLater(s: State, p: Process, d: Draft, nonce: Bytes, steps: seq<Step>)
    requires StateOk(s) && AppendEncrypted(s.store, p, d, nonce).1.Ok?
    ensures AppendEncrypted(s.store, p, d, nonce).0.entries != []
    ensures var row := Last(AppendEncrypted(s.store, p, d, nonce).0.entries);
      var t := Run(Apply(s, DoAppendEncrypted(p, d, nonce)), steps).store;
      var q := |s.store.entries| + 1;
      && row.seqno == q && row.streamId == d.streamId
      && q <= |t.entries| && t.entries[q - 1] == row && Get(t.entries, q) == Some(row)
      && ListSince(FilterStream(s.store.segments, d.streamId), t, d.streamId, q)
    ensures StateOk(Run(Apply(s, DoAppendEncrypted(p, d, nonce)), steps))
  {
    hide StateOk, Apply, Run, ListSince, AppendEncrypted, FilterStream, Get;
    SealedRowAppended(s, p, d, nonce);
    var s1 := Apply(s, DoAppendEncrypted(p, d, nonce));
    var q := |s.store.entries| + 1;
    ApplyKeepsStateOk(s, DoAppendEncrypted(p, d, nonce));
    RunKeepsListSince(s1, steps, FilterStream(s.store.segments, d.streamId), d.streamId, q);
    RunKeepsStateOk(s1, steps);
    DenseOfState(Run(s1, steps));
    DenseGet(Run(s1, steps).store.entries, 0, q);
  }

  /** Payload round trip. Seal a payload in any reachable state, run anything, and open it under the
      same master key. The open yields the plaintext if the stream has the tier it had and the entry
      is still uncovered or was covered under the id expected when it was sealed; otherwise it fails
      to decrypt, or opening it is a forgery; and if the stream's tier no longer parses, that is the error. */
  lemma {:induction false} PayloadOpensIff(s: State, p: Process, d: Draft, nonce: Bytes, steps: seq<Step>, p': Process)
    requires StateOk(s) && |nonce| == NONCE_LEN && AppendEncrypted(s.store, p, d, nonce).1.Ok?
    requires p'.masterKey == p.masterKey
    ensures p.masterKey.Some? && ResolveTier(s.store, d.streamId).Ok?
    ensures var t := Run(Apply(s, DoAppendEncrypted(p, d, nonce)), steps).store;
      var q := AppendEncrypted(s.store, p, d, nonce).1.value.seqno;
      var before, list := FilterStream(s.store.segments, d.streamId), FilterStream(t.segments, d.streamId);
      var covered := q <= CoveredTo(t, d.streamId);
      && (covered <==> |before| < |list|)
      && var opens := ResolveTier(t, d.streamId) == ResolveTier(s.store, d.streamId)
                      && (covered ==> list[|before|].segmentId == ExpectedId(before));
         && (opens ==> OpenPayload(t, p', q) == Ok(d.payload))
         && (ResolveTier(t, d.streamId).Err? ==> OpenPayload(t, p', q) == Err(Invalid(UnknownTier)))
         && (ResolveTier(t, d.streamId).Ok? && !opens ==>
              || OpenPayload(t, p', q) == Err(Encoding)
              || MovedSeal(p.masterKey.value, d.streamId, ResolveTier(s.store, d.streamId).value,
                           ExpectedId(before), nonce, d.payload, ResolveTier(t, d.streamId).value,
                           if covered then list[|before|].segmentId else ExpectedId(before)).Genuine())
  {
    hide StateOk, ResolveTier, AppendEncrypted, CoveredTo, FilterStream, OpenPayload, Sealed, SegmentKey, StreamKey,
         AeadAad, SegmentOfEntry, MovedSeal, Get, ExpectedId, ListSince, Run, Apply;
    AppendEncryptedStores(s, p, d, nonce);
    SealedRowLater(s, p, d, nonce, steps);
    SegmentsEndBeforeNext(s, d.streamId);
    var q := |s.store.entries| + 1;
    var before := FilterStream(s.store.segments, d.streamId);
    var s2 := Run(Apply(s, DoAppendEncrypted(p, d, nonce)), steps);
    SegmentOfEntrySince(s2, before, q);
    SealedRowOpensIff(s2.store, p', s2.store.entries[q - 1], p.masterKey.value, ResolveTier(s.store, d.streamId).value,
                      ExpectedId(before), nonce, d.payload);
  }

  // ----- When the condition holds -----

  lemma {:induction false} OneStreamsList(segments: seq<SegmentRow>, stream: Text)
    requires forall i | 0 <= i < |segments| :: segments[i].streamId == stream
    ensures FilterStream(segments, stream) == segments
  {
    if segments != [] {
      OneStreamsList(Front(segments), stream);
      assert segments == Front(segments) + [Last(segments)];
    }
  }

  /** In a run where only the one stream closes segments, every payload sealed for it opens, while its
      tier is the one it was sealed under. */
  lemma {:induction false} SoleCloserOpens(s: State, p: Process, d: Draft, nonce: Bytes, steps: seq<Step>, p': Process)
    requires StateOk(s) && |nonce| == NONCE_LEN && AppendEncrypted(s.store, p, d, nonce).1.Ok?
    requires p'.masterKey == p.masterKey
    requires var t := Run(Apply(s, DoAppendEncrypted(p, d, nonce)), steps).store;
      && ResolveTier(t, d.streamId) == ResolveTier(s.store, d.streamId)
      && forall i | 0 <= i < |t.segments| :: t.segments[i].streamId == d.streamId
    ensures var t := Run(Apply(s, DoAppendEncrypted(p, d, nonce)), steps).store;
      OpenPayload(t, p', AppendEncrypted(s.store, p, d, nonce).1.value.seqno) == Ok(d.payload)
  {
    hide StateOk, ResolveTier, AppendEncrypted, CoveredTo, OpenPayload, MovedSeal, Run, Apply, FilterStream,
         SameButSignatures;
    AppendEncryptedStores(s, p, d, nonce);
    PayloadOpensIff(s, p, d, nonce, steps, p');
    SealedRowLater(s, p, d, nonce, steps);
    var s2 := Run(Apply(s, DoAppendEncrypted(p, d, nonce)), steps);
    var before, list := FilterStream(s.store.segments, d.streamId), FilterStream(s2.store.segments, d.streamId);
    OneStreamsList(s2.store.segments, d.streamId);
    DenseOfState(s2);
    if |before| < |list| {
      SoleListIds(before, s2.store);
    }
  }

  lemma {:induction false} SoleListIds(before: seq<SegmentRow>, t: Store)
    requires IdsDense(t) && |before| < |t.segments| && SameButSignatures(before, t.segments[..|before|])
    ensures t.segments[|before|].segmentId == ExpectedId(before)
  {
    if before != [] {
      assert t.segments[..|before|][|before| - 1] == t.segments[|before| - 1];
    }
  }

  /** Closing changes the lookup id of an uncovered entry from the id its stream expects to the next id
      of the store. */
  lemma {:induction false} CloseChangesLookup(s: State, stream: Text, now: Text, q: nat)
    requires StateOk(s) && 1 <= q <= |s.store.entries| && s.store.entries[q - 1].streamId == stream
    requires q > CoveredTo(s.store, stream) && CloseSegment(s.store, stream, now).1.Ok?
    ensures SegmentOfEntry(CloseSegment(s.store, stream, now).0, s.store.entries[q - 1]) == NewSegmentId(s.store)
    ensures SegmentOfEntry(s.store, s.store.entries[q - 1]) == OpenSegmentId(s.store, stream)
  {
    hide StateOk, CloseSegment, SegmentOfEntry, SegmentsList, FilterStream, Head, SameButSignatures, Apply;
    var before := FilterStream(s.store.segments, stream);
    DenseOfState(s);
    DenseSegmentsList(s.store, stream);
    assert before[..|before|] == before;
    SameButSignaturesReflexive(before);
    CoveredIsLast(s, stream);
    SegmentOfEntrySince(s, before, q);
    CloseExtendsList(s, stream, now, stream);
    ApplyClose(s, stream, now);
    ApplyKeepsStateOk(s, DoClose(stream, now));
    HeadIsMax(s.store.entries, stream, q);
    var s' := Apply(s, DoClose(stream, now));
    var more, id, rows := StepGrows(s, DoClose(stream, now));
    assert s'.store.entries[q - 1] == s.store.entries[q - 1];
    var list' := FilterStream(s'.store.segments, stream);
    assert list'[|before|] == Last(list');
    SegmentOfEntrySince(s', before, q);
  }

  /** What decides it at the call that covers the entry. Seal a payload, run anything that leaves it
      uncovered under its tier, and close its stream: it opens afterwards if the store's next segment id
      is the one the stream expects, which a caller can compare before closing; otherwise it fails to
      decrypt, or opening it is a forgery. */
  lemma {:induction false} CloseKeepsPayloadIff(s: State, p: Process, d: Draft, nonce: Bytes, steps: seq<Step>,
          now: Text, p': Process)
    requires StateOk(s) && |nonce| == NONCE_LEN && AppendEncrypted(s.store, p, d, nonce).1.Ok?
    requires p'.masterKey == p.masterKey
    requires var t := Run(Apply(s, DoAppendEncrypted(p, d, nonce)), steps).store;
      && ResolveTier(t, d.streamId) == ResolveTier(s.store, d.streamId)
      && AppendEncrypted(s.store, p, d, nonce).1.value.seqno > CoveredTo(t, d.streamId)
    ensures p.masterKey.Some? && ResolveTier(s.store, d.streamId).Ok?
    ensures var t := Run(Apply(s, DoAppendEncrypted(p, d, nonce)), steps).store;
      var t' := CloseSegment(t, d.streamId, now).0;
      var q := AppendEncrypted(s.store, p, d, nonce).1.value.seqno;
      var tier, sealedId, closedId := ResolveTier(s.store, d.streamId).value, OpenSegmentId(t, d.streamId),
        NewSegmentId(t);
      && CloseSegment(t, d.streamId, now).1.Ok?
      && OpenPayload(t, p', q) == Ok(d.payload)
      && (closedId == sealedId ==> OpenPayload(t', p', q) == Ok(d.payload))
      && (closedId != sealedId ==>
           || OpenPayload(t', p', q) == Err(Encoding)
           || MovedSeal(p.masterKey.value, d.streamId, tier, sealedId, nonce, d.payload, tier, closedId).Genuine())
  {
    hide StateOk, ResolveTier, AppendEncrypted, CoveredTo, OpenPayload, MovedSeal, Run, Apply, FilterStream,
         SegmentsList, CloseSegment, SameButSignatures, Sealed, SegmentKey, StreamKey, AeadAad, Get;
    var s1 := Apply(s, DoAppendEncrypted(p, d, nonce));
    var s2 := Run(s1, steps);
    var close := DoClose(d.streamId, now);
    var q := |s.store.entries| + 1;
    var before := FilterStream(s.store.segments, d.streamId);
    AppendEncryptedStores(s, p, d, nonce);
    SealedRowLater(s, p, d, nonce, steps);
    PayloadOpensIff(s, p, d, nonce, steps, p');
    ExpectedSince(before, s2.store, d.streamId, q);
    CloseAddsOne(s2, d.streamId, now, q);
    CloseExtendsList(s2, d.streamId, now, d.streamId);
    DenseOfState(s2);
    DenseSegmentsList(s2.store, d.streamId);
    SameStreams(s2.store, Apply(s2, close).store, d.streamId);
    RunOneMore(s1, steps, close);
    PayloadOpensIff(s, p, d, nonce, steps + [close], p');
  }

  /** While no segment was closed since, the expected id is what it was. */
  lemma {:induction false} ExpectedSince(before: seq<SegmentRow>, t: Store, stream: Text, q: nat)
    requires ListSince(before, t, stream, q) && |FilterStream(t.segments, stream)| == |before|
    ensures ExpectedId(FilterStream(t.segments, stream)) == ExpectedId(before)
  {
    hide FilterStream;
    var list := FilterStream(t.segments, stream);
    assert list[..|before|] == list;
  }

  lemma {:induction false} RunOneMore(s: State, steps: seq<Step>, step: Step)
    ensures Run(s, steps + [step]) == Apply(Run(s, steps), step)
  {
    hide Apply;
    assert Front(steps + [step]) == steps;
  }

  lemma {:induction false} ApplyClose(s: State, stream: Text, now: Text)
    ensures Apply(s, DoClose(stream, now)).store == CloseSegment(s.store, stream, now).0
  {
    hide CloseSegment;
  }

  lemma {:induction false} CoveredIsLast(s: State, stream: Text)
    requires StateOk(s)
    ensures forall i | 0 <= i < |FilterStream(s.store.segments, stream)| ::
      FilterStream(s.store.segments, stream)[i].seqEnd <= CoveredTo(s.store, stream)
  {
    hide SegmentOk, SignatureOk, FilterStream, ChainValid, HeadsOk;
    var list := FilterStream(s.store.segments, stream);
    assert StreamOk(s.store, stream);
    forall i | 0 <= i < |list| ensures list[i].seqEnd <= CoveredTo(s.store, stream) {
      if i < |list| - 1 {
        SegmentsAreOrdered(s, stream, i, |list| - 1);
        OneOfList(s.store.entries, s.store.segmentEntries, stream, list, |list| - 1);
        SegmentEndsAtARow(s.store.entries, s.store.segmentEntries, stream, list, |list| - 1);
      }
    }
  }

  // ----- When it does not -----

  /** Seal on one stream, append to another, close the other, then close the first. */
  function CrossedCloses(p: Process, d: Draft, nonce: Bytes, other: Draft, now: Text): seq<Step> {
    [DoAppend(p, other), DoClose(other.streamId, now), DoClose(d.streamId, now)]
  }

  lemma {:induction false} RunThree(s: State, a: Step, b: Step, c: Step)
    ensures Run(s, [a, b, c]) == Apply(Apply(Apply(s, a), b), c)
  {
    hide Apply;
    assert Front([a, b, c]) == [a, b] && Front([a, b]) == [a] && Front([a]) == [];
    assert Run(s, [a]) == Apply(s, a);
    assert Run(s, [a, b]) == Apply(Run(s, [a]), b);
  }

  lemma {:induction false} InitialStreams(stream: Text)
    ensures RejectIfDeprecated(INITIAL.store, stream) == Ok(())
    ensures ResolveTier(INITIAL.store, stream) == Ok(Public)
  {
    hide ParseTier;
    TierParses(Public);
    StreamGetOfOne(INITIAL.store.streams, stream);
  }

  lemma StreamGetOfOne(streams: seq<StreamRow>, name: Text)
    requires |streams| == 1
    ensures StreamGet(streams, name) == if streams[0].name == name then Some(streams[0]) else None
  {
  }

  /** A close of a stream with uncovered rows adds one segment and leaves entries and streams alone. */
  lemma {:induction false} CloseAddsOne(s: State, stream: Text, now: Text, q: nat)
    requires StateOk(s) && 1 <= q <= |s.store.entries| && s.store.entries[q - 1].streamId == stream
    requires q > CoveredTo(s.store, stream)
    ensures var t := Apply(s, DoClose(stream, now)).store;
      && CloseSegment(s.store, stream, now).1.Ok? && t == CloseSegment(s.store, stream, now).0
      && t.entries == s.store.entries && t.streams == s.store.streams && |t.segments| == |s.store.segments| + 1
    ensures StateOk(Apply(s, DoClose(stream, now)))
  {
    hide StateOk, CloseSegment, Head, Apply, Closes, CoveredTo, LeafEntries;
    DenseOfState(s);
    StateIsStoreOk(s);
    HeadIsMax(s.store.entries, stream, q);
    CloseSucceedsIff(s, stream, now);
    ApplyClose(s, stream, now);
    ApplyKeepsStateOk(s, DoClose(stream, now));
    var row, rows := CloseInserts(s.store, stream, now);
  }

  lemma {:induction false} AppendAddsOne(s: State, p: Process, d: Draft)
    requires StateOk(s) && RejectIfDeprecated(s.store, d.streamId).Ok?
    ensures var t := Apply(s, DoAppend(p, d)).store;
      && t == s.store.(entries := t.entries)
      && |t.entries| == |s.store.entries| + 1 && s.store.entries <= t.entries && Last(t.entries).streamId == d.streamId
    ensures StateOk(Apply(s, DoAppend(p, d)))
  {
    hide StateOk, AppendRow, SealRow, LinkHash, RejectIfDeprecated;
    StateIsStoreOk(s);
    AppendRowAdds(s.store, p, d);
    SealedRowHashes(p, d, |s.store.entries| + 1, LinkHash(s.store.entries, d.streamId).value);
    ApplyKeepsStateOk(s, DoAppend(p, d));
  }

  lemma {:induction false} InitialEncryptedAppend(p: Process, d: Draft, nonce: Bytes)
    requires p.masterKey.Some?
    ensures AppendEncrypted(INITIAL.store, p, d, nonce).1.Ok?
      && AppendEncrypted(INITIAL.store, p, d, nonce).1.value.seqno == 1
    ensures Apply(INITIAL, DoAppendEncrypted(p, d, nonce)).store.streams == INITIAL.store.streams
    ensures Apply(INITIAL, DoAppendEncrypted(p, d, nonce)).store.segments == []
    ensures StateOk(Apply(INITIAL, DoAppendEncrypted(p, d, nonce)))
  {
    hide StateOk, AppendRow, SealRow, Sealed, SegmentKey, StreamKey, AeadAad, MinimizedTag, LinkHash,
         RejectIfDeprecated, ResolveTier, Apply, OpenSegmentId;
    NoEntriesYet();
    InitialStateOk();
    StateIsStoreOk(INITIAL);
    InitialStreams(d.streamId);
    var sealed := SealedDraft(p.masterKey.value, d, Public, OpenSegmentId(INITIAL.store, d.streamId), nonce);
    AppendRowAdds(INITIAL.store, p, sealed);
    SealedRowHashes(p, sealed, 1, LinkHash(INITIAL.store.entries, d.streamId).value);
    ApplyEncrypted(INITIAL, p, d, nonce);
    ApplyKeepsStateOk(INITIAL, DoAppendEncrypted(p, d, nonce));
  }

  /** The round trip fails on a concrete run: from a fresh store, seal on one stream, append to
      another, close the other, close the first. The entry was sealed under segment 1 and is looked
      up under segment 2, so it no longer decrypts, or opening it under segment 2 is a forgery. */
  lemma {:induction false} CrossedClosesHidePayload(p: Process, d: Draft, nonce: Bytes, other: Draft, now: Text)
    requires p.masterKey.Some? && |nonce| == NONCE_LEN && d.streamId != other.streamId
    ensures AppendEncrypted(INITIAL.store, p, d, nonce).1.Ok?
      && AppendEncrypted(INITIAL.store, p, d, nonce).1.value.seqno == 1
    ensures
      || OpenPayload(Run(Apply(INITIAL, DoAppendEncrypted(p, d, nonce)),
                         CrossedCloses(p, d, nonce, other, now)).store, p, 1)
         == Err(Encoding)
      || MovedSeal(p.masterKey.value, d.streamId, Public, 1, nonce, d.payload, Public, 2).Genuine()
  {
    hide StateOk, AppendEncrypted, OpenPayload, MovedSeal, Run, Apply, CloseSegment, RejectIfDeprecated, ResolveTier,
         Head, INITIAL;
    InitialStateOk();
    InitialEncryptedAppend(p, d, nonce);
    InitialStreams(other.streamId);
    InitialStreams(d.streamId);
    var s1 := Apply(INITIAL, DoAppendEncrypted(p, d, nonce));
    var s2 := Apply(s1, DoAppend(p, other));
    var s3 := Apply(s2, DoClose(other.streamId, now));
    var s4 := Apply(s3, DoClose(d.streamId, now));
    RunThree(s1, DoAppend(p, other), DoClose(other.streamId, now), DoClose(d.streamId, now));
    NoEntriesYet();
    SealedRowAppended(INITIAL, p, d, nonce);
    SameStreams(INITIAL.store, s1.store, other.streamId);
    AppendAddsOne(s1, p, other);
    CloseAddsOne(s2, other.streamId, now, 2);
    CloseExtendsList(s2, other.streamId, now, d.streamId);
    CloseAddsOne(s3, d.streamId, now, 1);
    CloseExtendsList(s3, d.streamId, now, d.streamId);
    SameStreams(INITIAL.store, s4.store, d.streamId);
    PayloadOpensIff(INITIAL, p, d, nonce, CrossedCloses(p, d, nonce, other, now), p);
  }

  lemma NoEntriesYet()
    ensures INITIAL.store.entries == [] && INITIAL.store.segments == []
  {
  }

  lemma {:induction false} SameStreams(t: Store, t': Store, stream: Text)
    requires t.streams == t'.streams
    ensures RejectIfDeprecated(t, stream) == RejectIfDeprecated(t', stream)
      && ResolveTier(t, stream) == ResolveTier(t', stream)
  {
    hide ParseTier;
  }
}
