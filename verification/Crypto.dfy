/** Payload sealing: tiers, key derivation, the associated data and the sealed layout.

    HKDF is an arbitrary fixed function. The AEAD is an arbitrary fixed pair of functions for which
    decryption undoes encryption and a ciphertext carries at least a 16-byte tag. */
module Crypto {
  import opened Basics

  const NONCE_LEN := 12
  const TAG_LEN := 16
  const AEAD_NAME: Text := Ascii("cbor+aead-chacha20poly1305-v1")

  const HKDF: (Bytes, Bytes) -> Digest

  function HkdfExpand(key: Digest, info: Bytes): Digest {
    HKDF(key, info)
  }

  datatype AeadPair = AeadPair(
    encrypt: (Digest, Bytes, Bytes, Bytes) -> Bytes,
    decrypt: (Digest, Bytes, Bytes, Bytes) -> Option<Bytes>)

  ghost predicate DecryptUndoesEncrypt(a: AeadPair) {
    forall key, nonce, aad, msg ::
      && a.decrypt(key, nonce, aad, a.encrypt(key, nonce, aad, msg)) == Some(msg)
      && |a.encrypt(key, nonce, aad, msg)| >= TAG_LEN
  }

  const NULL_CIPHER := AeadPair(
    (key: Digest, nonce: Bytes, aad: Bytes, msg: Bytes) => msg + Zeros(TAG_LEN),
    (key: Digest, nonce: Bytes, aad: Bytes, ct: Bytes) => if |ct| < TAG_LEN then None else Some(ct[..|ct| - TAG_LEN]))

  lemma {:induction false} NullCipherIsLawful()
    ensures DecryptUndoesEncrypt(NULL_CIPHER)
  {
    forall key, nonce, aad, msg
      ensures NULL_CIPHER.decrypt(key, nonce, aad, NULL_CIPHER.encrypt(key, nonce, aad, msg)) == Some(msg)
    {
      assert (msg + Zeros(TAG_LEN))[..|msg|] == msg;
    }
  }

  type Aead = a: AeadPair | DecryptUndoesEncrypt(a) witness (NullCipherIsLawful(); NULL_CIPHER)

  const CHACHA: Aead

  function Encrypt(key: Digest, nonce: Bytes, aad: Bytes, msg: Bytes): (ct: Bytes)
    ensures |ct| >= TAG_LEN
  {
    CHACHA.encrypt(key, nonce, aad, msg)
  }

  function Decrypt(key: Digest, nonce: Bytes, aad: Bytes, ct: Bytes): Option<Bytes> {
    CHACHA.decrypt(key, nonce, aad, ct)
  }

  lemma {:induction false} DecryptsOwnCiphertext(key: Digest, nonce: Bytes, aad: Bytes, msg: Bytes)
    ensures Decrypt(key, nonce, aad, Encrypt(key, nonce, aad, msg)) == Some(msg)
  {
    assert DecryptUndoesEncrypt(CHACHA);
  }

  /** What someone who opens a ciphertext under other associated data must have found. */
  datatype Forgery = Forgery(key: Digest, nonce: Bytes, aad: Bytes, msg: Bytes, otherKey: Digest, otherAad: Bytes)
  {
    predicate Genuine() {
      otherAad != aad && Decrypt(otherKey, nonce, otherAad, Encrypt(key, nonce, aad, msg)).Some?
    }
  }

  // ----- Sealed payloads: nonce, then ciphertext and tag -----

  function Sealed(key: Digest, nonce: Bytes, aad: Bytes, plaintext: Bytes): Bytes {
    nonce + Encrypt(key, nonce, aad, plaintext)
  }

  function OpenSealed(bytes: Bytes, key: Digest, aad: Bytes): Result<Bytes> {
    if |bytes| < NONCE_LEN + TAG_LEN then Err(Encoding)
    else
      match Decrypt(key, bytes[..NONCE_LEN], aad, bytes[NONCE_LEN..])
      case None => Err(Encoding)
      case Some(plaintext) => Ok(plaintext)
  }

  /** Bytes open to a plaintext exactly when they hold a nonce and at least a tag, and what follows the
      nonce decrypts to it; all others are refused. */
  lemma OpensIff(bytes: Bytes, key: Digest, aad: Bytes, plaintext: Bytes)
    ensures OpenSealed(bytes, key, aad) == Ok(plaintext)
      <==> |bytes| >= 28 && Decrypt(key, bytes[..12], aad, bytes[12..]) == Some(plaintext)
    ensures OpenSealed(bytes, key, aad).Err? ==> OpenSealed(bytes, key, aad) == Err(Encoding)
  {
  }

  /** A sealed payload opens to its plaintext under its own key and associated data. */
  lemma {:induction false} SealedOpens(key: Digest, nonce: Bytes, aad: Bytes, plaintext: Bytes)
    requires |nonce| == NONCE_LEN
    ensures OpenSealed(Sealed(key, nonce, aad, plaintext), key, aad) == Ok(plaintext)
  {
    var bytes := Sealed(key, nonce, aad, plaintext);
    assert bytes[..NONCE_LEN] == nonce && bytes[NONCE_LEN..] == Encrypt(key, nonce, aad, plaintext);
    DecryptsOwnCiphertext(key, nonce, aad, plaintext);
  }

  /** Under other associated data, whatever the key, a sealed payload fails to decrypt, or the opening
      itself is a forgery. */
  lemma {:induction false} SealedRefusesOtherAad(key: Digest, nonce: Bytes, aad: Bytes, plaintext: Bytes,
          key': Digest, aad': Bytes)
    requires |nonce| == NONCE_LEN && aad != aad'
    ensures OpenSealed(Sealed(key, nonce, aad, plaintext), key', aad') == Err(Encoding)
      || Forgery(key, nonce, aad, plaintext, key', aad').Genuine()
  {
    var bytes := Sealed(key, nonce, aad, plaintext);
    assert bytes[..NONCE_LEN] == nonce && bytes[NONCE_LEN..] == Encrypt(key, nonce, aad, plaintext);
  }

  /** `SealedPayload::seal`. */
  method SealPayload(key: Digest, nonce: Bytes, aad: Bytes, plaintext: Bytes) returns (bytes: Bytes)
    requires |nonce| == NONCE_LEN
    ensures bytes == Sealed(key, nonce, aad, plaintext)
    ensures |bytes| >= NONCE_LEN + TAG_LEN && bytes[..NONCE_LEN] == nonce
    ensures OpenSealed(bytes, key, aad) == Ok(plaintext)
    ensures forall key', aad' | aad' != aad ::
      OpenSealed(bytes, key', aad') == Err(Encoding) || Forgery(key, nonce, aad, plaintext, key', aad').Genuine()
  {
    hide OpenSealed, Encrypt;
    var ct := Encrypt(key, nonce, aad, plaintext);
    bytes := [];
    bytes := bytes + nonce;
    bytes := bytes + ct;
    assert bytes == Sealed(key, nonce, aad, plaintext);
    SealedOpens(key, nonce, aad, plaintext);
    forall key', aad' | aad' != aad
      ensures OpenSealed(bytes, key', aad') == Err(Encoding)
        || Forgery(key, nonce, aad, plaintext, key', aad').Genuine()
    {
      SealedRefusesOtherAad(key, nonce, aad, plaintext, key', aad');
    }
  }

  // ----- Tiers -----

  datatype Tier = Public | Protected | HighlyRestricted

  const PUBLIC: Text := Ascii("public")
  const PROTECTED: Text := Ascii("protected")
  const HIGHLY_RESTRICTED: Text := Ascii("highly-restricted")
  const HIGHLY_RESTRICTED_UNDERSCORE: Text := Ascii("highly_restricted")

  function TierName(t: Tier): Text {
    match t
    case Public => PUBLIC
    case Protected => PROTECTED
    case HighlyRestricted => HIGHLY_RESTRICTED
  }

  const UPPER_A: byte := 0x41
  const UPPER_Z: byte := 0x5A

  /** Lower case of the bytes. `to_lowercase` also maps letters outside ASCII, but no such letter
      maps into one of the three names. */
  function Lower(t: Text): Text {
    if t == [] then []
    else Lower(Front(t)) + [if UPPER_A <= Last(t) <= UPPER_Z then Last(t) + 32 else Last(t)]
  }

  function ParseTier(t: Text): Option<Tier> {
    var l := Lower(t);
    if l == TierName(Public) then Some(Public)
    else if l == TierName(Protected) then Some(Protected)
    else if l == TierName(HighlyRestricted) || l == HIGHLY_RESTRICTED_UNDERSCORE then Some(HighlyRestricted)
    else None
  }

  predicate HasNoUpperCase(t: Text) {
    forall i | 0 <= i < |t| :: !(UPPER_A <= t[i] <= UPPER_Z)
  }

  lemma {:induction false} LowerFixesLowerCase(t: Text)
    requires HasNoUpperCase(t)
    ensures Lower(t) == t
  {
    if t != [] {
      LowerFixesLowerCase(Front(t));
      assert t == Front(t) + [Last(t)];
    }
  }

  /** Equal up to the case of ASCII letters in the first text. */
  ghost predicate SameButCase(t: Text, lower: Text) {
    |t| == |lower| && forall i | 0 <= i < |t| ::
      t[i] == lower[i] || ('A' as int <= t[i] <= 'Z' as int && lower[i] == t[i] + ('a' as int - 'A' as int))
  }

  lemma {:induction false} LowerIgnoresCase(t: Text, lower: Text)
    requires HasNoUpperCase(lower)
    ensures Lower(t) == lower <==> SameButCase(t, lower)
  {
    if t == [] || lower == [] {
      assert |Lower(t)| == |t| by { LowerKeepsLength(t); }
    } else {
      LowerIgnoresCase(Front(t), Front(lower));
      assert lower == Front(lower) + [Last(lower)];
      assert t == Front(t) + [Last(t)];
    }
  }

  lemma {:induction false} LowerKeepsLength(t: Text)
    ensures |Lower(t)| == |t|
  {
    if t != [] {
      LowerKeepsLength(Front(t));
    }
  }

  /** A text is read as a tier exactly when it is the tier's name up to case, or, for the strictest one,
      its name with an underscore; any other text is no tier. */
  lemma {:induction false} TierParsesIff(t: Text, tier: Tier)
    ensures ParseTier(t) == Some(tier)
      <==> SameButCase(t, TierName(tier)) || (tier == HighlyRestricted && SameButCase(t, HIGHLY_RESTRICTED_UNDERSCORE))
  {
    forall name: Tier ensures HasNoUpperCase(TierName(name)) {
      TierNamesAreLowerCase(name);
    }
    assert HasNoUpperCase(HIGHLY_RESTRICTED_UNDERSCORE);
    TierLengths(Public);
    TierLengths(Protected);
    TierLengths(HighlyRestricted);
    hide TierName, Lower, HIGHLY_RESTRICTED_UNDERSCORE, HasNoUpperCase, SameButCase;
    LowerIgnoresCase(t, TierName(Public));
    LowerIgnoresCase(t, TierName(Protected));
    LowerIgnoresCase(t, TierName(HighlyRestricted));
    LowerIgnoresCase(t, HIGHLY_RESTRICTED_UNDERSCORE);
    UnderscoreLength();
  }

  lemma UnderscoreLength()
    ensures |HIGHLY_RESTRICTED_UNDERSCORE| == 17
  {
  }

  lemma TierLengths(t: Tier)
    ensures |TierName(t)| == match t { case Public => 6 case Protected => 9 case HighlyRestricted => 17 }
  {
  }

  lemma TierNamesAreLowerCase(t: Tier)
    ensures HasNoUpperCase(TierName(t))
  {
  }

  lemma {:induction false} TierParses(t: Tier)
    ensures ParseTier(TierName(t)) == Some(t)
  {
    TierNamesAreLowerCase(t);
    LowerFixesLowerCase(TierName(t));
    TierLengths(Public);
    TierLengths(Protected);
    TierLengths(HighlyRestricted);
    hide TierName, Lower;
  }

  // ----- Decimal printing -----

  function Decimal(n: nat): (t: Text)
    ensures t != []
    ensures forall i | 0 <= i < |t| :: '0' as int <= t[i] <= '9' as int
  {
    if n < 10 then ['0' as int + n] else Decimal(n / 10) + ['0' as int + n % 10]
  }

  function ParseDecimal(t: Text): int {
    if t == [] then 0 else ParseDecimal(Front(t)) * 10 + (Last(t) - '0' as int)
  }

  lemma {:induction false} DecimalReadsBack(n: nat)
    ensures ParseDecimal(Decimal(n)) == n
  {
    if n < 10 {
      assert Front(Decimal(n)) == [];
    } else {
      DecimalReadsBack(n / 10);
      assert Front(Decimal(n)) == Decimal(n / 10);
    }
  }

  // ----- Associated data -----

  const AAD_PREFIX: Text := Ascii("tpm:secure-log:v1:stream=")
  const AAD_TIER: Text := Ascii(":tier")
  const KEY_TIER: Text := Ascii(":tier=")
  const KEY_SEGMENT: Text := Ascii("v1:segment:")
  const AAD_SEGMENT: Text := Ascii(":segment")
  const EQUALS: byte := '=' as int

  /** `aead_aad`. The stream name is arbitrary and may itself contain the separators. */
  function AeadAad(stream: Text, tier: Tier, segment: nat): Text {
    AAD_PREFIX + stream + AAD_TIER + [EQUALS] + TierName(tier) + AAD_SEGMENT + [EQUALS] + Decimal(segment)
  }

  /** Splits at the last equals sign. */
  function SplitLastEquals(t: Text): Option<(Text, Text)> {
    if t == [] then None
    else if Last(t) == EQUALS then Some((Front(t), []))
    else
      match SplitLastEquals(Front(t))
      case None => None
      case Some((before, after)) => Some((before, after + [Last(t)]))
  }

  function StripSuffix(t: Text, suffix: Text): Option<Text> {
    if |suffix| <= |t| && t[|t| - |suffix|..] == suffix then Some(t[..|t| - |suffix|]) else None
  }

  /** The right-to-left parse: the segment number follows the last equals sign, the tier name the
      last one before it, and what is left is the stream name. */
  function ParseAad(aad: Text): Option<(Text, Tier, int)> {
    match SplitLastEquals(aad)
    case None => None
    case Some((beforeSegment, segment)) =>
      match StripSuffix(beforeSegment, AAD_SEGMENT)
      case None => None
      case Some(upToTier) =>
        match SplitLastEquals(upToTier)
        case None => None
        case Some((beforeTier, tier)) =>
          match StripSuffix(beforeTier, AAD_TIER)
          case None => None
          case Some(upToStream) =>
            if ParseTier(tier).Some? && |AAD_PREFIX| <= |upToStream| then
              Some((upToStream[|AAD_PREFIX|..], ParseTier(tier).value, ParseDecimal(segment)))
            else None
  }

  lemma {:induction false} SplitFindsLastEquals(before: Text, after: Text)
    requires EQUALS !in after
    ensures SplitLastEquals(before + [EQUALS] + after) == Some((before, after))
  {
    var t := before + [EQUALS] + after;
    if after == [] {
      assert t == before + [EQUALS];
      assert Front(t) == before;
    } else {
      SplitFindsLastEquals(before, Front(after));
      assert Front(t) == before + [EQUALS] + Front(after);
      assert after == Front(after) + [Last(after)];
      assert Last(t) == Last(after);
    }
  }

  lemma StripUndoesAppend(t: Text, suffix: Text)
    ensures StripSuffix(t + suffix, suffix) == Some(t)
  {
  }

  lemma TierNamesHaveNoEquals(t: Tier)
    ensures EQUALS !in TierName(t)
  {
  }

  lemma {:induction false} AadReadsBack(stream: Text, tier: Tier, segment: nat)
    ensures ParseAad(AeadAad(stream, tier, segment)) == Some((stream, tier, segment))
  {
    TierNamesHaveNoEquals(tier);
    TierParses(tier);
    DecimalReadsBack(segment);
    hide TierName, ParseTier, Decimal, ParseDecimal, SplitLastEquals, StripSuffix;
    hide AAD_PREFIX, AAD_TIER, AAD_SEGMENT;
    var upToStream := AAD_PREFIX + stream;
    var upToTier := upToStream + AAD_TIER + [EQUALS] + TierName(tier);
    SplitFindsLastEquals(upToTier + AAD_SEGMENT, Decimal(segment));
    StripUndoesAppend(upToTier, AAD_SEGMENT);
    SplitFindsLastEquals(upToStream + AAD_TIER, TierName(tier));
    StripUndoesAppend(upToStream, AAD_TIER);
    assert upToStream[|AAD_PREFIX|..] == stream;
  }

  /** The associated data pins stream, tier and segment. */
  lemma {:induction false} AadIsInjective(stream: Text, tier: Tier, segment: nat, stream': Text, tier': Tier,
          segment': nat)
    requires AeadAad(stream, tier, segment) == AeadAad(stream', tier', segment')
    ensures stream == stream' && tier == tier' && segment == segment'
  {
    hide AeadAad, ParseAad;
    AadReadsBack(stream, tier, segment);
    AadReadsBack(stream', tier', segment');
  }

  // ----- Keys and metadata tags -----

  function StreamKeyInfo(stream: Text, tier: Tier): Text {
    AAD_PREFIX + stream + KEY_TIER + TierName(tier)
  }

  /** `derive_stream_key`. */
  function StreamKey(master: Digest, stream: Text, tier: Tier): Digest {
    HkdfExpand(master, StreamKeyInfo(stream, tier))
  }

  function SegmentKeyInfo(segment: nat): Text {
    KEY_SEGMENT + Decimal(segment)
  }

  /** `derive_segment_key`. */
  function SegmentKey(streamKey: Digest, segment: nat): Digest {
    HkdfExpand(streamKey, SegmentKeyInfo(segment))
  }

  function HexChar(n: nat): byte
    requires n < 16
  {
    if n < 10 then '0' as int + n else 'a' as int + n - 10
  }

  function HexByte(b: byte): (t: Text)
    ensures |t| == 2
  {
    [HexChar(b / 16), HexChar(b % 16)]
  }

  /** Lower-case hex, as `hex`. */
  function Hex(b: Bytes): (t: Text)
    ensures |t| == 2 * |b|
  {
    if b == [] then [] else Hex(Front(b)) + HexByte(Last(b))
  }

  const MINIMIZED_TAG_PREFIX: Text := Ascii("min:")
  const MINIMIZE_STREAM: Text := Ascii("tpm:secure-log:v1:minimize:stream=")
  const MINIMIZE_FIELD: Text := Ascii(":field=")
  const MINIMIZE_VALUE: Text := Ascii(":value=")

  /** The keyed tag of a minimised metadata field: the prefix and the first eight bytes in hex. */
  function MinimizedTag(master: Digest, stream: Text, field: Text, value: Text): Text {
    MINIMIZED_TAG_PREFIX + Hex(HkdfExpand(master, MinimizeInfo(stream, field, value))[..8])
  }

  function MinimizeInfo(stream: Text, field: Text, value: Text): Text {
    MINIMIZE_STREAM + stream + MINIMIZE_FIELD + field + MINIMIZE_VALUE + value
  }

  lemma {:induction false} HexGrows(prefix: Text, b: Bytes, i: nat)
    requires i < |b|
    ensures prefix + Hex(b[..i + 1]) == prefix + Hex(b[..i]) + HexByte(b[i])
  {
    hide HexByte;
    assert Front(b[..i + 1]) == b[..i];
  }

  method MinimizeMetadata(master: Digest, stream: Text, field: Text, value: Text) returns (tag: Text)
    ensures tag == MinimizedTag(master, stream, field, value)
  {
    hide HexByte, Hex, HkdfExpand, MinimizeInfo;
    var out := HkdfExpand(master, MinimizeInfo(stream, field, value));
    tag := MINIMIZED_TAG_PREFIX;
    assert Hex(out[..0]) == [];
    for i := 0 to 8
      invariant tag == MINIMIZED_TAG_PREFIX + Hex(out[..i])
    {
      HexGrows(MINIMIZED_TAG_PREFIX, out, i);
      tag := tag + HexByte(out[i]);
    }
  }
}
