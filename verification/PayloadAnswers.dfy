/** What an encrypted append stores, field by field, and what opening a payload answers in every case. */
module PayloadAnswers {
  import opened Basics
  import opened Records
  import opened Encoder
  import opened Crypto
  import opened Tables
  import opened Chain
  import opened Engine
  import opened Invariants
  import opened Runs
  import opened InclusionTheorems
  import opened PayloadTheorems
  import opened OperationTheorems

  // ----- The stored fields -----

  /** A stored metadata field: in highly restricted streams the keyed tag of the caller's value, in all
      others that value. */
  predicate StoredAs(stored: Text, tier: Tier, master: Digest, stream: Text, field: string, value: Text) {
    stored == match tier
              case HighlyRestricted => MinimizedTag(master, stream, Ascii(field), value)
              case Public => value
              case Protected => value
  }

  /** The row an encrypted append seals, for the field values it was called with. */
  lemma {:induction false} SealedDraftFields(p: Process, d: Draft, tier: Tier, segment: nat, nonce: Bytes, seqno: nat,
          prev: Digest)
    requires p.masterKey.Some?
    ensures var row := SealRow(p, SealedDraft(p.masterKey.value, d, tier, segment, nonce), seqno, prev);
      && StoredAs(row.eventType, tier, p.masterKey.value, d.streamId, "event_type", d.eventType)
      && StoredAs(row.producer, tier, p.masterKey.value, d.streamId, "producer", d.producer)
      && row.payloadEncoding == AEAD_NAME
      && row.seqno == seqno && row.streamId == d.streamId && row.sessionId == p.sessionId && row.bootId == p.bootId
      && row.timestamp == d.timestamp && row.severity == d.severity && row.prevEntryHash == prev
      && row.entryHash == RowHash(row)
  {
    hide RowHash, Sealed, SegmentKey, StreamKey, AeadAad, MinimizedTag;
    SealedRowHashes(p, SealedDraft(p.masterKey.value, d, tier, segment, nonce), seqno, prev);
  }

  /** A successful `append_encrypted`, read back after any further run: the returned seqno and digest, the
      caller's stream, severity and time, the process's ids, the stream's previous tip, the sealed payload,
      and the event type and producer, which are keyed tags exactly in highly restricted streams. */
  lemma {:induction false} EncryptedReadsBack(s: State, p: Process, d: Draft, nonce: Bytes, steps: seq<Step>)
    requires StateOk(s) && AppendEncrypted(s.store, p, d, nonce).1.Ok?
    ensures p.masterKey.Some? && ResolveTier(s.store, d.streamId).Ok? && LinkHash(s.store.entries, d.streamId).Ok?
    ensures var res := AppendEncrypted(s.store, p, d, nonce).1.value;
      var read := Get(Run(Apply(s, DoAppendEncrypted(p, d, nonce)), steps).store.entries, res.seqno);
      var tier, master := ResolveTier(s.store, d.streamId).value, p.masterKey.value;
      var segment := ExpectedId(FilterStream(s.store.segments, d.streamId));
      && res.seqno == |s.store.entries| + 1
      && read.Some?
      && var row := read.value;
         && StoredAs(row.eventType, tier, master, d.streamId, "event_type", d.eventType)
         && StoredAs(row.producer, tier, master, d.streamId, "producer", d.producer)
         && row.payloadEncoding == AEAD_NAME
         && row.payload == Sealed(SegmentKey(StreamKey(master, d.streamId, tier), segment), nonce,
                                  AeadAad(d.streamId, tier, segment), d.payload)
         && row.seqno == res.seqno && row.streamId == d.streamId
         && row.sessionId == p.sessionId && row.bootId == p.bootId
         && row.timestamp == d.timestamp && row.severity == d.severity
         && row.prevEntryHash == LinkHash(s.store.entries, d.streamId).value
         && row.entryHash == res.entryHash == RowHash(row)
  {
    hide StateOk, ResolveTier, AppendEncrypted, Run, Apply, SealRow, LinkHash, Sealed, SegmentKey, StreamKey, AeadAad,
         MinimizedTag, FilterStream, Get, RowHash, StoredAs, ExpectedId, ListSince;
    AppendEncryptedStores(s, p, d, nonce);
    SealedRowLater(s, p, d, nonce, steps);
    EncryptedRow(s, p, d, nonce);
    var link := LinkHash(s.store.entries, d.streamId).value;
    SealedDraftFields(p, d, ResolveTier(s.store, d.streamId).value, OpenSegmentId(s.store, d.streamId), nonce,
                      |s.store.entries| + 1, link);
  }

  lemma {:induction false} EncryptedRow(s: State, p: Process, d: Draft, nonce: Bytes)
    requires StateOk(s) && AppendEncrypted(s.store, p, d, nonce).1.Ok?
    ensures p.masterKey.Some? && ResolveTier(s.store, d.streamId).Ok? && LinkHash(s.store.entries, d.streamId).Ok?
    ensures var sealed := SealedDraft(p.masterKey.value, d, ResolveTier(s.store, d.streamId).value,
                                      OpenSegmentId(s.store, d.streamId), nonce);
      var row := SealRow(p, sealed, |s.store.entries| + 1, LinkHash(s.store.entries, d.streamId).value);
      && AppendEncrypted(s.store, p, d, nonce).0.entries == s.store.entries + [row]
      && AppendEncrypted(s.store, p, d, nonce).1.value == AppendResult(|s.store.entries| + 1, row.entryHash)
  {
    hide StateOk, ResolveTier, AppendRow, SealRow, LinkHash, Sealed, SegmentKey, StreamKey, AeadAad, MinimizedTag,
         RejectIfDeprecated, SegmentsList;
    StateIsStoreOk(s);
    var sealed := SealedDraft(p.masterKey.value, d, ResolveTier(s.store, d.streamId).value,
                              OpenSegmentId(s.store, d.streamId), nonce);
    AppendRowAdds(s.store, p, sealed);
    SealedRowHashes(p, sealed, |s.store.entries| + 1, LinkHash(s.store.entries, d.streamId).value);
  }

  // ----- What opening answers -----

  /** `open_payload` in any store, in the order of its conditions: an unknown seqno, a payload in plain
      text, an unknown encoding, a missing master key, a tier that does not parse, and the unsealing. */
  lemma OpenAnswers(t: Store, p: Process, seqno: nat)
    ensures Get(t.entries, seqno).None? ==> OpenPayload(t, p, seqno) == Err(EntryNotFound(seqno))
    ensures Get(t.entries, seqno).Some? ==>
      var row := Get(t.entries, seqno).value;
      && (row.payloadEncoding == Ascii("cbor") ==> OpenPayload(t, p, seqno) == Ok(row.payload))
      && (row.payloadEncoding != Ascii("cbor") && row.payloadEncoding != AEAD_NAME ==>
           OpenPayload(t, p, seqno) == Err(Invalid(UnknownEncoding)))
      && (row.payloadEncoding == AEAD_NAME && p.masterKey.None? ==>
           OpenPayload(t, p, seqno) == Err(Invalid(MissingMasterKey)))
      && (row.payloadEncoding == AEAD_NAME && p.masterKey.Some? && ResolveTier(t, row.streamId).Err? ==>
           OpenPayload(t, p, seqno) == Err(Invalid(UnknownTier)))
  {
    hide Get, ResolveTier, OpenSealed, SegmentKey, StreamKey, AeadAad, SegmentOfEntry;
    EncodingsDiffer();
    if Get(t.entries, seqno).Some? {
      TierErrorIs(t, Get(t.entries, seqno).value.streamId);
    }
  }

  /** A plain append, opened after any further run by any process, with or without a master key: with the
      plain encoding it gives the caller's payload, and with any encoding but the two it is refused. */
  lemma {:induction false} PlainEntryOpens(s: State, p: Process, d: Draft, steps: seq<Step>, p': Process)
    requires StateOk(s) && Append(s.store, p, d).1.Ok?
    ensures var answer := OpenPayload(Run(Apply(s, DoAppend(p, d)), steps).store, p',
                                      Append(s.store, p, d).1.value.seqno);
      && (d.payloadEncoding == Ascii("cbor") ==> answer == Ok(d.payload))
      && (d.payloadEncoding != Ascii("cbor") && d.payloadEncoding != AEAD_NAME ==>
           answer == Err(Invalid(UnknownEncoding)))
  {
    hide StateOk, Append, Apply, Run, Get, OpenPayload, EncodeEntry, LinkHash;
    AppendReadsBack(s, p, d, steps);
    OpenAnswers(Run(Apply(s, DoAppend(p, d)), steps).store, p', Append(s.store, p, d).1.value.seqno);
  }

  /** A sealed entry does not open without a master key, after any further run. */
  lemma {:induction false} SealedNeedsMasterKey(s: State, p: Process, d: Draft, nonce: Bytes, steps: seq<Step>,
          p': Process)
    requires StateOk(s) && AppendEncrypted(s.store, p, d, nonce).1.Ok? && p'.masterKey.None?
    ensures OpenPayload(Run(Apply(s, DoAppendEncrypted(p, d, nonce)), steps).store, p',
                        AppendEncrypted(s.store, p, d, nonce).1.value.seqno)
      == Err(Invalid(MissingMasterKey))
  {
    hide StateOk, AppendEncrypted, Apply, Run, Get, OpenPayload, ResolveTier, FilterStream, ListSince, Sealed,
         StreamKey, SegmentKey, AeadAad;
    AppendEncryptedStores(s, p, d, nonce);
    SealedRowLater(s, p, d, nonce, steps);
    OpenAnswers(Run(Apply(s, DoAppendEncrypted(p, d, nonce)), steps).store, p', |s.store.entries| + 1);
  }

  /** In every reachable state a seqno is reported as unknown exactly when no entry was appended under it. */
  lemma {:induction false} UnknownSeqnoIff(s: State, p: Process, seqno: nat)
    requires StateOk(s)
    ensures OpenPayload(s.store, p, seqno) == Err(EntryNotFound(seqno)) <==> !(1 <= seqno <= |s.store.entries|)
  {
    hide StateOk, Get, ResolveTier, SegmentKey, StreamKey, AeadAad, SegmentOfEntry, Decrypt;
    DenseOfState(s);
    DenseGet(s.store.entries, 0, seqno);
    if 1 <= seqno <= |s.store.entries| {
      TierErrorIs(s.store, s.store.entries[seqno - 1].streamId);
    }
  }
}
