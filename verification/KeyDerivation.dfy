/** What the derived keys and the metadata tags separate. HKDF is an arbitrary function, so the results
    say: different contexts give different keys or tags, or two different HKDF inputs with one output are
    in hand. */
module KeyDerivation {
  import opened Basics
  import opened Crypto
  import opened HeadFiles
  import opened Engine

  /** Two HKDF calls. */
  datatype HkdfPair = HkdfPair(key: Digest, info: Bytes, otherKey: Digest, otherInfo: Bytes)
  {
    /** They differ, and their outputs agree in the first n bytes. */
    predicate Agree(n: nat)
      requires n <= HASH_LEN
    {
      && (key != otherKey || info != otherInfo)
      && HkdfExpand(key, info)[..n] == HkdfExpand(otherKey, otherInfo)[..n]
    }
  }

  // ----- Payload keys -----

  /** The tier name follows the last equals sign, so the text pins both parts, whatever the stream name. */
  lemma {:induction false} StreamKeyInfoIsInjective(stream: Text, tier: Tier, stream': Text, tier': Tier)
    requires StreamKeyInfo(stream, tier) == StreamKeyInfo(stream', tier')
    ensures stream == stream' && tier == tier'
  {
    StreamKeyInfoSplits(stream, tier);
    StreamKeyInfoSplits(stream', tier');
    TierParses(tier);
    TierParses(tier');
    hide StreamKeyInfo, SplitLastEquals, TierName, ParseTier, AAD_TIER, AAD_PREFIX;
    StripUndoesAppend(AAD_PREFIX + stream, AAD_TIER);
    StripUndoesAppend(AAD_PREFIX + stream', AAD_TIER);
    assert (AAD_PREFIX + stream)[|AAD_PREFIX|..] == stream;
    assert (AAD_PREFIX + stream')[|AAD_PREFIX|..] == stream';
  }

  lemma {:induction false} StreamKeyInfoSplits(stream: Text, tier: Tier)
    ensures SplitLastEquals(StreamKeyInfo(stream, tier)) == Some((AAD_PREFIX + stream + AAD_TIER, TierName(tier)))
  {
    TierNamesHaveNoEquals(tier);
    KeyTierEndsInEquals();
    hide TierName, SplitLastEquals, AAD_TIER, KEY_TIER, AAD_PREFIX;
    SplitFindsLastEquals(AAD_PREFIX + stream + AAD_TIER, TierName(tier));
    assert StreamKeyInfo(stream, tier) == AAD_PREFIX + stream + AAD_TIER + [EQUALS] + TierName(tier);
  }

  lemma KeyTierEndsInEquals()
    ensures KEY_TIER == AAD_TIER + [EQUALS]
  {
  }

  lemma {:induction false} SegmentKeyInfoIsInjective(segment: nat, segment': nat)
    requires SegmentKeyInfo(segment) == SegmentKeyInfo(segment')
    ensures segment == segment'
  {
    hide KEY_SEGMENT, Decimal, ParseDecimal;
    assert SegmentKeyInfo(segment)[|KEY_SEGMENT|..] == Decimal(segment);
    assert SegmentKeyInfo(segment')[|KEY_SEGMENT|..] == Decimal(segment');
    DecimalReadsBack(segment);
    DecimalReadsBack(segment');
  }

  /** The HKDF calls in which two payload keys part: the second derivation, or else the first. */
  function KeyPair(master: Digest, stream: Text, tier: Tier, segment: nat,
                   master': Digest, stream': Text, tier': Tier, segment': nat): HkdfPair
  {
    var key, key' := StreamKey(master, stream, tier), StreamKey(master', stream', tier');
    if key != key' || segment != segment' then HkdfPair(key, SegmentKeyInfo(segment), key', SegmentKeyInfo(segment'))
    else HkdfPair(master, StreamKeyInfo(stream, tier), master', StreamKeyInfo(stream', tier'))
  }

  /** A payload key belongs to one master key, stream, tier and segment: two contexts with one key are the
      same, or two different HKDF inputs give one output. */
  lemma {:induction false} PayloadKeysSeparate(master: Digest, stream: Text, tier: Tier, segment: nat,
          master': Digest, stream': Text, tier': Tier, segment': nat)
    requires SegmentKey(StreamKey(master, stream, tier), segment)
      == SegmentKey(StreamKey(master', stream', tier'), segment')
    ensures
      || (master == master' && stream == stream' && tier == tier' && segment == segment')
      || KeyPair(master, stream, tier, segment, master', stream', tier', segment').Agree(HASH_LEN)
  {
    hide StreamKeyInfo, SegmentKeyInfo, HkdfExpand;
    if SegmentKeyInfo(segment) == SegmentKeyInfo(segment') {
      SegmentKeyInfoIsInjective(segment, segment');
    }
    if StreamKeyInfo(stream, tier) == StreamKeyInfo(stream', tier') {
      StreamKeyInfoIsInjective(stream, tier, stream', tier');
    }
  }

  // ----- Metadata tags -----

  /** A tag is the prefix followed by the hex of the first eight derived bytes. */
  lemma {:induction false} TagReadsBack(master: Digest, stream: Text, field: Text, value: Text)
    ensures var tag := MinimizedTag(master, stream, field, value);
      && |tag| == |MINIMIZED_TAG_PREFIX| + 16 && MINIMIZED_TAG_PREFIX <= tag
      && ParseHex(tag[|MINIMIZED_TAG_PREFIX|..]) == Parsed(HkdfExpand(master, MinimizeInfo(stream, field, value))[..8])
  {
    hide Hex, HkdfExpand, MinimizeInfo, MINIMIZED_TAG_PREFIX;
    var eight := HkdfExpand(master, MinimizeInfo(stream, field, value))[..8];
    HexParsesBefore(eight, []);
    assert Hex(eight) + [] == Hex(eight) && eight + [] == eight;
    assert MinimizedTag(master, stream, field, value)[|MINIMIZED_TAG_PREFIX|..] == Hex(eight);
  }

  /** The two fields that are minimised. */
  predicate MinimizedField(field: Text) {
    field == EVENT_TYPE || field == PRODUCER
  }

  lemma {:induction false} MinimizeInfoIsInjective(stream: Text, field: Text, value: Text, field': Text, value': Text)
    requires MinimizedField(field) && MinimizedField(field')
    requires MinimizeInfo(stream, field, value) == MinimizeInfo(stream, field', value')
    ensures field == field' && value == value'
  {
    FieldsStartDifferently();
    hide MINIMIZE_STREAM, MINIMIZE_FIELD, MINIMIZE_VALUE, EVENT_TYPE, PRODUCER;
    var before := MINIMIZE_STREAM + stream + MINIMIZE_FIELD;
    var rest, rest' := field + MINIMIZE_VALUE + value, field' + MINIMIZE_VALUE + value';
    assert MinimizeInfo(stream, field, value) == before + rest;
    assert MinimizeInfo(stream, field', value') == before + rest';
    DropPrefix(before, rest, rest');
    assert rest[0] == field[0] && rest'[0] == field'[0];
    DropPrefix(field + MINIMIZE_VALUE, value, value');
  }

  lemma {:induction false} DropPrefix(prefix: Text, a: Text, b: Text)
    requires prefix + a == prefix + b
    ensures a == b
  {
    assert (prefix + a)[|prefix|..] == a && (prefix + b)[|prefix|..] == b;
  }

  lemma FieldsStartDifferently()
    ensures EVENT_TYPE != [] && PRODUCER != [] && EVENT_TYPE[0] != PRODUCER[0]
  {
  }

  /** Within a stream one tag means one field and one value, or two different HKDF inputs of that stream
      agree in their first eight bytes. */
  lemma {:induction false} TagsSeparate(master: Digest, stream: Text, field: Text, value: Text, field': Text,
          value': Text)
    requires MinimizedField(field) && MinimizedField(field')
    requires MinimizedTag(master, stream, field, value) == MinimizedTag(master, stream, field', value')
    ensures
      || (field == field' && value == value')
      || HkdfPair(master, MinimizeInfo(stream, field, value), master, MinimizeInfo(stream, field', value')).Agree(8)
  {
    TagReadsBack(master, stream, field, value);
    TagReadsBack(master, stream, field', value');
    if MinimizeInfo(stream, field, value) == MinimizeInfo(stream, field', value') {
      MinimizeInfoIsInjective(stream, field, value, field', value');
    }
    hide MinimizedTag, ParseHex, HkdfExpand, MinimizeInfo, MinimizedField;
  }

  /** Across streams they are not separated: these two values have one tag, in two different streams. */
  lemma {:induction false} TagsMeetAcrossStreams(master: Digest, stream: Text, field: Text, value: Text, rest: Text)
    ensures var other := stream + MINIMIZE_FIELD + field + MINIMIZE_VALUE + value;
      && other != stream
      && MinimizedTag(master, stream, field, value + MINIMIZE_FIELD + field + MINIMIZE_VALUE + rest)
         == MinimizedTag(master, other, field, rest)
  {
    SeparatorIsNotEmpty();
    hide MINIMIZE_STREAM, MINIMIZE_FIELD, MINIMIZE_VALUE, HkdfExpand, Hex;
    var other := stream + MINIMIZE_FIELD + field + MINIMIZE_VALUE + value;
    assert |other| > |stream|;
    assert MinimizeInfo(stream, field, value + MINIMIZE_FIELD + field + MINIMIZE_VALUE + rest)
      == MinimizeInfo(other, field, rest);
  }

  lemma SeparatorIsNotEmpty()
    ensures MINIMIZE_FIELD != []
  {
  }
}
