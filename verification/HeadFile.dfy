/** The anti-rollback head file: one record per stream, written by signing. */
module HeadFiles {
  import opened Basics
  import opened Crypto

  datatype HeadRecord = HeadRecord(
    streamId: Text,
    segmentId: nat,
    seqEnd: nat,
    checkpointHashHex: Text,
    updatedAt: Text)

  // ----- Hex parsing -----

  /** Collecting the bytes stops at the first bad pair; slicing a trailing single character panics. */
  datatype HexParse = Parsed(bytes: Bytes) | BadDigit | SlicePanic

  function HexDigit(c: byte): (d: Option<nat>)
    ensures d.Some? ==> d.value < 16
  {
    if '0' as int <= c <= '9' as int then Some(c - '0' as int)
    else if 'a' as int <= c <= 'f' as int then Some(c - 'a' as int + 10)
    else if 'A' as int <= c <= 'F' as int then Some(c - 'A' as int + 10)
    else None
  }

  /** `u8::from_str_radix(_, 16)` on two characters: a leading plus sign is accepted. */
  function HexPair(high: byte, low: byte): Option<byte> {
    if HexDigit(low).None? then None
    else if high == '+' as int then Some(HexDigit(low).value)
    else if HexDigit(high).None? then None
    else Some(HexDigit(high).value * 16 + HexDigit(low).value)
  }

  function ParseHex(t: Text): HexParse {
    if t == [] then Parsed([])
    else if |t| == 1 then SlicePanic
    else if HexPair(t[0], t[1]).None? then BadDigit
    else
      match ParseHex(t[2..])
      case Parsed(rest) => Parsed([HexPair(t[0], t[1]).value] + rest)
      case BadDigit => BadDigit
      case SlicePanic => SlicePanic
  }

  /** `HeadRecord::checkpoint_hash`, with the missing digest and the panic as errors. */
  function StoredHash(r: HeadRecord): Result<Digest> {
    match ParseHex(r.checkpointHashHex)
    case Parsed(bytes) => if |bytes| == HASH_LEN then Ok(bytes) else Err(Storage(BadHeadRecord))
    case BadDigit => Err(Storage(BadHeadRecord))
    case SlicePanic => Err(Panicked)
  }

  /** The hex digits of a value: its lower-case one, and for ten and above the upper-case one. */
  lemma HexDigitIff(c: byte, n: nat)
    requires n < 16
    ensures HexDigit(c) == Some(n)
      <==> c == (if n < 10 then '0' as int + n else 'a' as int + n - 10) || (n >= 10 && c == 'A' as int + n - 10)
  {
  }

  /** A pair of characters is a byte if both are digits, or if a plus sign stands for a leading zero. */
  lemma HexPairIff(high: byte, low: byte, b: byte)
    ensures HexPair(high, low) == Some(b)
      <==> HexDigit(low) == Some(b % 16) && (HexDigit(high) == Some(b / 16) || (high == '+' as int && b < 16))
  {
  }

  /** The text is the pairs of these bytes, one after the other. */
  ghost predicate IsPairsOf(t: Text, bytes: Bytes) {
    |t| == 2 * |bytes| && forall i | 0 <= i < |bytes| :: HexPair(t[2 * i], t[2 * i + 1]) == Some(bytes[i])
  }

  lemma {:induction false} PairsUnfold(t: Text, bytes: Bytes)
    requires |t| >= 2 && bytes != []
    ensures IsPairsOf(t, bytes) <==> HexPair(t[0], t[1]) == Some(bytes[0]) && IsPairsOf(t[2..], bytes[1..])
  {
    hide HexPair;
    if IsPairsOf(t, bytes) {
      assert HexPair(t[2 * 0], t[2 * 0 + 1]) == Some(bytes[0]);
      forall i | 0 <= i < |bytes[1..]| ensures HexPair(t[2..][2 * i], t[2..][2 * i + 1]) == Some(bytes[1..][i]) {
        assert HexPair(t[2 * (i + 1)], t[2 * (i + 1) + 1]) == Some(bytes[i + 1]);
      }
    }
    if HexPair(t[0], t[1]) == Some(bytes[0]) && IsPairsOf(t[2..], bytes[1..]) {
      forall i | 0 <= i < |bytes| ensures HexPair(t[2 * i], t[2 * i + 1]) == Some(bytes[i]) {
        if i > 0 {
          assert HexPair(t[2..][2 * (i - 1)], t[2..][2 * (i - 1) + 1]) == Some(bytes[1..][i - 1]);
        }
      }
    }
  }

  /** A text parses to some bytes exactly when it is their pairs. */
  lemma {:induction false} HexParsesIff(t: Text, bytes: Bytes)
    ensures ParseHex(t) == Parsed(bytes) <==> IsPairsOf(t, bytes)
  {
    hide HexPair;
    if |t| >= 2 && bytes != [] {
      HexParsesIff(t[2..], bytes[1..]);
      PairsUnfold(t, bytes);
      hide IsPairsOf;
      assert bytes == [bytes[0]] + bytes[1..];
    }
  }

  /** The recorded hash is read exactly from 64 characters that parse to it. */
  lemma StoredHashIff(r: HeadRecord, d: Digest)
    ensures StoredHash(r) == Ok(d) <==> ParseHex(r.checkpointHashHex) == Parsed(d)
  {
    hide ParseHex;
  }

  /** Written hex is lower case. */
  lemma {:induction false} HexIsLowerCase(b: Bytes)
    ensures forall i | 0 <= i < |Hex(b)| ::
      '0' as int <= Hex(b)[i] <= '9' as int || 'a' as int <= Hex(b)[i] <= 'f' as int
  {
    if b != [] {
      HexIsLowerCase(Front(b));
    }
  }

  lemma HexBytePairs(b: byte)
    ensures HexPair(HexByte(b)[0], HexByte(b)[1]) == Some(b)
  {
  }

  lemma {:induction false} HexParsesBefore(b: Bytes, tail: Text)
    ensures ParseHex(Hex(b) + tail)
      == match ParseHex(tail) {
           case Parsed(rest) => Parsed(b + rest)
           case BadDigit => BadDigit
           case SlicePanic => SlicePanic
         }
  {
    hide HexByte, HexPair;
    if b == [] {
      assert Hex(b) + tail == tail;
      if ParseHex(tail).Parsed? {
        assert b + ParseHex(tail).bytes == ParseHex(tail).bytes;
      }
    } else {
      var last := Last(b);
      var rest := HexByte(last) + tail;
      HexParsesBefore(Front(b), rest);
      HexBytePairs(last);
      assert Hex(b) + tail == Hex(Front(b)) + rest;
      assert rest[2..] == tail;
      if ParseHex(tail).Parsed? {
        assert Front(b) + ([last] + ParseHex(tail).bytes) == b + ParseHex(tail).bytes;
      }
    }
  }

  /** Reading back a written hash gives the hash. */
  lemma {:induction false} HexReadsBack(d: Digest)
    ensures ParseHex(Hex(d)) == Parsed(d)
  {
    hide Hex;
    HexParsesBefore(d, []);
    assert Hex(d) + [] == Hex(d) && d + [] == d;
  }

  // ----- Records -----

  /** `HeadFile::get`: the first record of the stream. */
  function HeadGet(records: seq<HeadRecord>, stream: Text): Option<HeadRecord> {
    if records == [] then None
    else if records[0].streamId == stream then Some(records[0])
    else HeadGet(records[1..], stream)
  }

  /** `HeadFile::upsert`: replace the first record of the stream, or add one. */
  function HeadUpsert(records: seq<HeadRecord>, r: HeadRecord): seq<HeadRecord> {
    if records == [] then [r]
    else if records[0].streamId == r.streamId then [r] + records[1..]
    else [records[0]] + HeadUpsert(records[1..], r)
  }

  /** After an upsert, the stream's record is the new one and every other stream's is unchanged. */
  lemma {:induction false} UpsertSetsOneStream(records: seq<HeadRecord>, r: HeadRecord, stream: Text)
    ensures HeadGet(HeadUpsert(records, r), stream)
      == if stream == r.streamId then Some(r) else HeadGet(records, stream)
  {
    if records != [] && records[0].streamId != r.streamId {
      UpsertSetsOneStream(records[1..], r, stream);
      assert ([records[0]] + HeadUpsert(records[1..], r))[1..] == HeadUpsert(records[1..], r);
    } else if records != [] {
      assert ([r] + records[1..])[1..] == records[1..];
    }
  }

  lemma {:induction false} HeadGetIsOfStream(records: seq<HeadRecord>, stream: Text)
    requires HeadGet(records, stream).Some?
    ensures HeadGet(records, stream).value.streamId == stream
  {
    if records[0].streamId != stream {
      HeadGetIsOfStream(records[1..], stream);
    }
  }

  class HeadFile {
    var records: seq<HeadRecord>

    constructor ()
      ensures records == []
    {
      records := [];
    }

    method Upsert(record: HeadRecord)
      modifies this
      ensures records == HeadUpsert(old(records), record)
    {
      var i := 0;
      while i < |records| && records[i].streamId != record.streamId
        invariant i <= |records|
        invariant records == old(records)
        invariant HeadUpsert(records, record) == records[..i] + HeadUpsert(records[i..], record)
      {
        assert records[i..][1..] == records[i + 1..];
        i := i + 1;
      }
      if i < |records| {
        assert records[i..][1..] == records[i + 1..];
        records := records[..i] + [record] + records[i + 1..];
      } else {
        records := records + [record];
      }
    }
  }
}
