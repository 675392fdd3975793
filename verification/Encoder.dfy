/** The canonical encoder: entries and checkpoints as twelve-item CBOR arrays in a fixed order. */
module Encoder {
  import opened Basics
  import opened Records
  import opened Cbor

  const ENCODER_CBOR: Text := Ascii("cbor")

  // ----- Severity names -----

  function SeverityName(s: Severity): Text {
    match s
    case Emergency => Ascii("emergency")
    case Alert => Ascii("alert")
    case Critical => Ascii("critical")
    case Error => Ascii("error")
    case Warning => Ascii("warning")
    case Notice => Ascii("notice")
    case Info => Ascii("info")
    case Debug => Ascii("debug")
  }

  /** The strict parse of `Severity::try_from`. */
  function ParseSeverity(t: Text): Option<Severity> {
    if t == SeverityName(Emergency) then Some(Emergency)
    else if t == SeverityName(Alert) then Some(Alert)
    else if t == SeverityName(Critical) then Some(Critical)
    else if t == SeverityName(Error) then Some(Error)
    else if t == SeverityName(Warning) then Some(Warning)
    else if t == SeverityName(Notice) then Some(Notice)
    else if t == SeverityName(Info) then Some(Info)
    else if t == SeverityName(Debug) then Some(Debug)
    else None
  }

  /** Length and first letter tell the eight names apart. */
  function NameKey(s: Severity): (nat, nat) {
    match s
    case Emergency => (9, 'e' as int)
    case Alert => (5, 'a' as int)
    case Critical => (8, 'c' as int)
    case Error => (5, 'e' as int)
    case Warning => (7, 'w' as int)
    case Notice => (6, 'n' as int)
    case Info => (4, 'i' as int)
    case Debug => (5, 'd' as int)
  }

  lemma NameHasKey(s: Severity)
    ensures |SeverityName(s)| == NameKey(s).0 && SeverityName(s)[0] == NameKey(s).1
  {
  }

  lemma {:induction false} SeverityParses(s: Severity)
    ensures ParseSeverity(SeverityName(s)) == Some(s)
  {
    hide SeverityName;
    NameHasKey(s);
    forall other: Severity
      ensures |SeverityName(other)| == NameKey(other).0 && SeverityName(other)[0] == NameKey(other).1
    {
      NameHasKey(other);
    }
  }

  lemma {:induction false} SeverityParseIsStrict(t: Text)
    requires ParseSeverity(t).Some?
    ensures SeverityName(ParseSeverity(t).value) == t
  {
    hide SeverityName;
  }

  // ----- Entries -----

  /** What the Rust field types guarantee: 32- and 64-bit integers, and lengths that fit 64 bits. */
  predicate EntryInRange(f: EntryFields) {
    && f.version < U32_LIMIT && f.seqno < U64_LIMIT
    && |f.streamId| < U64_LIMIT && |f.sessionId| < U64_LIMIT && |f.bootId| < U64_LIMIT
    && |f.timestamp| < U64_LIMIT && |f.eventType| < U64_LIMIT && |f.producer| < U64_LIMIT
    && |f.payloadEncoding| < U64_LIMIT && |f.payload| < U64_LIMIT && |f.prevEntryHash| < U64_LIMIT
  }

  function EntryItems(f: EntryFields): (items: seq<Item>)
    ensures |items| == 12
  {
    [ UInt(f.version), TextStr(f.streamId), TextStr(f.sessionId), TextStr(f.bootId),
      UInt(f.seqno), TextStr(f.timestamp), TextStr(f.eventType), TextStr(SeverityName(f.severity)),
      TextStr(f.producer), TextStr(f.payloadEncoding), ByteStr(f.payload), ByteStr(f.prevEntryHash) ]
  }

  function EncodeEntry(f: EntryFields): Bytes {
    EncodeArray(EntryItems(f))
  }

  function EntryFromItems(items: seq<Item>): Option<EntryFields> {
    if |items| == 12
      && items[0].UInt? && items[0].n < U32_LIMIT
      && items[1].TextStr? && items[2].TextStr? && items[3].TextStr?
      && items[4].UInt? && items[5].TextStr? && items[6].TextStr?
      && items[7].TextStr? && ParseSeverity(items[7].text).Some?
      && items[8].TextStr? && items[9].TextStr? && items[10].ByteStr? && items[11].ByteStr?
    then
      Some(EntryFields(items[0].n, items[1].text, items[2].text, items[3].text, items[4].n,
                       items[5].text, items[6].text, ParseSeverity(items[7].text).value,
                       items[8].text, items[9].text, items[10].bytes, items[11].bytes))
    else None
  }

  function DecodeEntry(b: Bytes): Option<(EntryFields, Bytes)> {
    match DecodeArray(b)
    case None => None
    case Some((items, rest)) =>
      match EntryFromItems(items)
      case None => None
      case Some(f) => Some((f, rest))
  }

  lemma {:induction false} EntryItemsReadBack(f: EntryFields)
    requires EntryInRange(f)
    ensures ItemsInRange(EntryItems(f)) && EntryFromItems(EntryItems(f)) == Some(f)
  {
    SeverityParses(f.severity);
    NameHasKey(f.severity);
    hide SeverityName, ParseSeverity;
  }

  lemma {:induction false} EntryFromItemsWritesBack(items: seq<Item>)
    requires ItemsInRange(items) && EntryFromItems(items).Some?
    ensures EntryInRange(EntryFromItems(items).value) && EntryItems(EntryFromItems(items).value) == items
  {
    SeverityParseIsStrict(items[7].text);
    hide SeverityName, ParseSeverity;
    assert forall i | 0 <= i < 12 :: ItemInRange(items[i]);
  }

  /** Decoding undoes encoding, whatever bytes follow. */
  lemma {:induction false} EntryDecodes(f: EntryFields, tail: Bytes)
    requires EntryInRange(f)
    ensures DecodeEntry(EncodeEntry(f) + tail) == Some((f, tail))
  {
    hide DecodeArray, EncodeArray, EntryItems, EntryFromItems;
    EntryItemsReadBack(f);
    ArrayDecodes(EntryItems(f), tail);
  }

  /** Only encodings decode: the decoder accepts no other spelling of an entry. */
  lemma {:induction false} EntryDecoderIsStrict(b: Bytes)
    requires DecodeEntry(b).Some?
    ensures var (f, rest) := DecodeEntry(b).value; EntryInRange(f) && b == EncodeEntry(f) + rest
  {
    hide DecodeArray, EncodeArray, EntryItems, EntryFromItems;
    ArrayIsCanonical(b);
    EntryFromItemsWritesBack(DecodeArray(b).value.0);
  }

  /** The encoding is injective and prefix-free: no encoding is the start of another one. */
  lemma {:induction false} EntryEncodingIsPrefixFree(f: EntryFields, g: EntryFields, tail: Bytes)
    requires EntryInRange(f) && EntryInRange(g)
    requires EncodeEntry(f) + tail == EncodeEntry(g)
    ensures f == g && tail == []
  {
    hide EncodeEntry, DecodeEntry;
    EntryDecodes(f, tail);
    EntryDecodes(g, []);
    assert EncodeEntry(g) + [] == EncodeEntry(g);
  }

  lemma {:induction false} EntryEncodingIsInjective(f: EntryFields, g: EntryFields)
    requires EntryInRange(f) && EntryInRange(g)
    requires EncodeEntry(f) == EncodeEntry(g)
    ensures f == g
  {
    hide EncodeEntry, DecodeEntry;
    assert EncodeEntry(f) + [] == EncodeEntry(g);
    EntryEncodingIsPrefixFree(f, g, []);
  }

  // ----- Checkpoints -----

  predicate CheckpointInRange(f: CheckpointFields) {
    && f.version < U32_LIMIT && f.segmentId < U64_LIMIT && f.seqStart < U64_LIMIT && f.seqEnd < U64_LIMIT
    && |f.streamId| < U64_LIMIT && |f.merkleRoot| < U64_LIMIT && |f.lastEntryHash| < U64_LIMIT
    && |f.prevCheckpointHash| < U64_LIMIT && |f.bootId| < U64_LIMIT && |f.sessionId| < U64_LIMIT
    && |f.policyHash| < U64_LIMIT && |f.timestamp| < U64_LIMIT
  }

  function CheckpointItems(f: CheckpointFields): (items: seq<Item>)
    ensures |items| == 12
  {
    [ UInt(f.version), TextStr(f.streamId), UInt(f.segmentId), UInt(f.seqStart), UInt(f.seqEnd),
      ByteStr(f.merkleRoot), ByteStr(f.lastEntryHash), ByteStr(f.prevCheckpointHash),
      TextStr(f.bootId), TextStr(f.sessionId), ByteStr(f.policyHash), TextStr(f.timestamp) ]
  }

  function EncodeCheckpoint(f: CheckpointFields): Bytes {
    EncodeArray(CheckpointItems(f))
  }

  function CheckpointFromItems(items: seq<Item>): Option<CheckpointFields> {
    if |items| == 12
      && items[0].UInt? && items[0].n < U32_LIMIT && items[1].TextStr?
      && items[2].UInt? && items[3].UInt? && items[4].UInt?
      && items[5].ByteStr? && items[6].ByteStr? && items[7].ByteStr?
      && items[8].TextStr? && items[9].TextStr? && items[10].ByteStr? && items[11].TextStr?
    then
      Some(CheckpointFields(items[0].n, items[1].text, items[2].n, items[3].n, items[4].n,
                            items[5].bytes, items[6].bytes, items[7].bytes, items[8].text,
                            items[9].text, items[10].bytes, items[11].text))
    else None
  }

  function DecodeCheckpoint(b: Bytes): Option<(CheckpointFields, Bytes)> {
    match DecodeArray(b)
    case None => None
    case Some((items, rest)) =>
      match CheckpointFromItems(items)
      case None => None
      case Some(f) => Some((f, rest))
  }

  lemma CheckpointItemsReadBack(f: CheckpointFields)
    requires CheckpointInRange(f)
    ensures ItemsInRange(CheckpointItems(f)) && CheckpointFromItems(CheckpointItems(f)) == Some(f)
  {
  }

  lemma {:induction false} CheckpointFromItemsWritesBack(items: seq<Item>)
    requires ItemsInRange(items) && CheckpointFromItems(items).Some?
    ensures CheckpointInRange(CheckpointFromItems(items).value)
    ensures CheckpointItems(CheckpointFromItems(items).value) == items
  {
    assert forall i | 0 <= i < 12 :: ItemInRange(items[i]);
  }

  lemma {:induction false} CheckpointDecodes(f: CheckpointFields, tail: Bytes)
    requires CheckpointInRange(f)
    ensures DecodeCheckpoint(EncodeCheckpoint(f) + tail) == Some((f, tail))
  {
    hide DecodeArray, EncodeArray, CheckpointItems, CheckpointFromItems;
    CheckpointItemsReadBack(f);
    ArrayDecodes(CheckpointItems(f), tail);
  }

  lemma {:induction false} CheckpointDecoderIsStrict(b: Bytes)
    requires DecodeCheckpoint(b).Some?
    ensures var (f, rest) := DecodeCheckpoint(b).value; CheckpointInRange(f) && b == EncodeCheckpoint(f) + rest
  {
    hide DecodeArray, EncodeArray, CheckpointItems, CheckpointFromItems;
    ArrayIsCanonical(b);
    CheckpointFromItemsWritesBack(DecodeArray(b).value.0);
  }

  lemma {:induction false} CheckpointEncodingIsPrefixFree(f: CheckpointFields, g: CheckpointFields, tail: Bytes)
    requires CheckpointInRange(f) && CheckpointInRange(g)
    requires EncodeCheckpoint(f) + tail == EncodeCheckpoint(g)
    ensures f == g && tail == []
  {
    hide EncodeCheckpoint, DecodeCheckpoint;
    CheckpointDecodes(f, tail);
    CheckpointDecodes(g, []);
    assert EncodeCheckpoint(g) + [] == EncodeCheckpoint(g);
  }

  lemma {:induction false} CheckpointEncodingIsInjective(f: CheckpointFields, g: CheckpointFields)
    requires CheckpointInRange(f) && CheckpointInRange(g)
    requires EncodeCheckpoint(f) == EncodeCheckpoint(g)
    ensures f == g
  {
    hide EncodeCheckpoint, DecodeCheckpoint;
    assert EncodeCheckpoint(f) + [] == EncodeCheckpoint(g);
    CheckpointEncodingIsPrefixFree(f, g, []);
  }

  // ----- Domain separation -----

  /** No entry encoding is a checkpoint encoding, nor the start of one, nor the other way round:
      the third item is a text string in one and an integer in the other. */
  lemma {:induction false} EntriesAreNotCheckpoints(f: EntryFields, c: CheckpointFields, tail: Bytes, tail': Bytes)
    requires EntryInRange(f) && CheckpointInRange(c)
    ensures EncodeEntry(f) + tail != EncodeCheckpoint(c) + tail'
  {
    hide DecodeArray, EncodeArray;
    EntryItemsReadBack(f);
    CheckpointItemsReadBack(c);
    ArrayDecodes(EntryItems(f), tail);
    ArrayDecodes(CheckpointItems(c), tail');
    assert EntryItems(f)[2] != CheckpointItems(c)[2];
  }

  // ----- Layout -----

  /** The bytes of a list of items are those of its first half and then those of its second half. */
  lemma {:induction false} EncodeItemsJoins(a: seq<Item>, b: seq<Item>)
    ensures EncodeItems(a + b) == EncodeItems(a) + EncodeItems(b)
  {
    hide EncodeItem;
    if a == [] {
      assert a + b == b;
    } else {
      assert (a + b)[1..] == a[1..] + b;
      EncodeItemsJoins(a[1..], b);
    }
  }

  lemma {:induction false} EncodeFour(a: Item, b: Item, c: Item, d: Item)
    ensures EncodeItems([a, b, c, d]) == EncodeItem(a) + EncodeItem(b) + EncodeItem(c) + EncodeItem(d)
  {
    hide EncodeItem;
    assert [a, b, c, d][1..] == [b, c, d] && [b, c, d][1..] == [c, d] && [c, d][1..] == [d] && [d][1..] == [];
    assert EncodeItems([d]) == EncodeItem(d);
    assert EncodeItems([c, d]) == EncodeItem(c) + EncodeItem(d);
    assert EncodeItems([b, c, d]) == EncodeItem(b) + EncodeItem(c) + EncodeItem(d);
  }

  lemma {:induction false} EncodeTwelve(items: seq<Item>)
    requires |items| == 12
    ensures EncodeArray(items)
      == [0x8C]
         + (EncodeItem(items[0]) + EncodeItem(items[1]) + EncodeItem(items[2]) + EncodeItem(items[3]))
         + (EncodeItem(items[4]) + EncodeItem(items[5]) + EncodeItem(items[6]) + EncodeItem(items[7]))
         + (EncodeItem(items[8]) + EncodeItem(items[9]) + EncodeItem(items[10]) + EncodeItem(items[11]))
  {
    hide EncodeItem, EncodeItems;
    var a, b, c := items[..4], items[4..8], items[8..];
    assert items == a + (b + c);
    EncodeItemsJoins(a, b + c);
    EncodeItemsJoins(b, c);
    assert a == [items[0], items[1], items[2], items[3]];
    assert b == [items[4], items[5], items[6], items[7]];
    assert c == [items[8], items[9], items[10], items[11]];
    EncodeFour(items[0], items[1], items[2], items[3]);
    EncodeFour(items[4], items[5], items[6], items[7]);
    EncodeFour(items[8], items[9], items[10], items[11]);
  }

  /** The bytes of an entry: one array head for twelve items, then the fields in the contract's order,
      with byte strings as major type 2 and the severity as its lower-case name. */
  lemma {:induction false} EntryLayout(f: EntryFields)
    ensures EncodeEntry(f)
      == [0x8C]
         + (EncodeHead(0, f.version) + (EncodeHead(3, |f.streamId|) + f.streamId)
            + (EncodeHead(3, |f.sessionId|) + f.sessionId) + (EncodeHead(3, |f.bootId|) + f.bootId))
         + (EncodeHead(0, f.seqno) + (EncodeHead(3, |f.timestamp|) + f.timestamp)
            + (EncodeHead(3, |f.eventType|) + f.eventType)
            + (EncodeHead(3, |SeverityName(f.severity)|) + SeverityName(f.severity)))
         + ((EncodeHead(3, |f.producer|) + f.producer) + (EncodeHead(3, |f.payloadEncoding|) + f.payloadEncoding)
            + (EncodeHead(2, |f.payload|) + f.payload) + (EncodeHead(2, |f.prevEntryHash|) + f.prevEntryHash))
  {
    hide EncodeHead, EncodeArray, SeverityName;
    EncodeTwelve(EntryItems(f));
  }

  /** The bytes of a checkpoint. */
  lemma {:induction false} CheckpointLayout(f: CheckpointFields)
    ensures EncodeCheckpoint(f)
      == [0x8C]
         + (EncodeHead(0, f.version) + (EncodeHead(3, |f.streamId|) + f.streamId)
            + EncodeHead(0, f.segmentId) + EncodeHead(0, f.seqStart))
         + (EncodeHead(0, f.seqEnd) + (EncodeHead(2, |f.merkleRoot|) + f.merkleRoot)
            + (EncodeHead(2, |f.lastEntryHash|) + f.lastEntryHash)
            + (EncodeHead(2, |f.prevCheckpointHash|) + f.prevCheckpointHash))
         + ((EncodeHead(3, |f.bootId|) + f.bootId) + (EncodeHead(3, |f.sessionId|) + f.sessionId)
            + (EncodeHead(2, |f.policyHash|) + f.policyHash) + (EncodeHead(3, |f.timestamp|) + f.timestamp))
  {
    hide EncodeHead, EncodeArray;
    EncodeTwelve(CheckpointItems(f));
  }

  lemma HeadIsNotEmpty(major: nat, n: nat)
    requires major < 8
    ensures |EncodeHead(major, n)| >= 1
  {
  }

  lemma SeverityNameLength(s: Severity)
    ensures |SeverityName(s)| >= 4
  {
  }

  /** How long an entry encoding is at least: one byte per head, four for the severity, and its fields. */
  lemma {:induction false} EntryLength(f: EntryFields)
    ensures |EncodeEntry(f)| >= 17 + |f.streamId| + |f.sessionId| + |f.bootId| + |f.timestamp| + |f.eventType|
                                + |f.producer| + |f.payloadEncoding| + |f.payload| + |f.prevEntryHash|
  {
    hide EncodeHead, EncodeEntry, SeverityName;
    EntryLayout(f);
    forall major, n: nat | 0 <= major < 8 ensures |EncodeHead(major, n)| >= 1 {
      HeadIsNotEmpty(major, n);
    }
    SeverityNameLength(f.severity);
  }
}
