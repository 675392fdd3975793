/** The part of RFC 8949 the canonical encoder emits: unsigned integers, byte strings and text
    strings with the shortest head that holds the argument (sections 3 and 4.2.1), in definite
    length arrays. The decoder is strict: it refuses every other spelling. */
module Cbor {
  import opened Basics

  datatype Item =
    | UInt(n: nat)
    | ByteStr(bytes: Bytes)
    | TextStr(text: Text)

  datatype Head = Head(major: nat, argument: nat, rest: Bytes)

  const U32_LIMIT := 0x1_0000_0000
  const U64_LIMIT := 0x1_0000_0000_0000_0000

  // ----- Big-endian integers -----

  function BigEndian(n: nat, width: nat): (b: Bytes)
    ensures |b| == width
  {
    if width == 0 then [] else BigEndian(n / 256, width - 1) + [n % 256]
  }

  function FromBigEndian(b: Bytes): nat {
    if b == [] then 0 else FromBigEndian(Front(b)) * 256 + Last(b)
  }

  function Pow256(width: nat): nat {
    if width == 0 then 1 else 256 * Pow256(width - 1)
  }

  lemma {:induction false} Pow256Values()
    ensures Pow256(1) == 0x100
    ensures Pow256(2) == 0x1_0000
    ensures Pow256(4) == U32_LIMIT
    ensures Pow256(8) == U64_LIMIT
  {
    assert Pow256(1) == 0x100;
    assert Pow256(2) == 0x1_0000;
    assert Pow256(3) == 0x100_0000;
    assert Pow256(4) == 0x1_0000_0000;
    assert Pow256(5) == 0x100_0000_0000;
    assert Pow256(6) == 0x1_0000_0000_0000;
    assert Pow256(7) == 0x100_0000_0000_0000;
  }

  lemma {:induction false} BigEndianReadsBack(n: nat, width: nat)
    requires n < Pow256(width)
    ensures FromBigEndian(BigEndian(n, width)) == n
  {
    if width > 0 {
      var b := BigEndian(n, width);
      assert Front(b) == BigEndian(n / 256, width - 1);
      BigEndianReadsBack(n / 256, width - 1);
    }
  }

  lemma {:induction false} FromBigEndianWritesBack(b: Bytes)
    ensures FromBigEndian(b) < Pow256(|b|)
    ensures BigEndian(FromBigEndian(b), |b|) == b
  {
    if b != [] {
      FromBigEndianWritesBack(Front(b));
      assert b == Front(b) + [Last(b)];
    }
  }

  // ----- Heads -----

  /** Number of argument bytes that follow the initial byte. */
  function ArgumentWidth(n: nat): nat {
    if n < 24 then 0
    else if n < 0x100 then 1
    else if n < 0x1_0000 then 2
    else if n < U32_LIMIT then 4
    else 8
  }

  /** Additional information that announces a given argument width. */
  function WidthCode(width: nat): nat {
    if width == 1 then 24 else if width == 2 then 25 else if width == 4 then 26 else 27
  }

  function CodeWidth(info: nat): nat {
    if info == 24 then 1 else if info == 25 then 2 else if info == 26 then 4 else 8
  }

  function EncodeHead(major: nat, n: nat): Bytes
    requires major < 8
  {
    if n < 24 then [major * 32 + n]
    else [major * 32 + WidthCode(ArgumentWidth(n))] + BigEndian(n, ArgumentWidth(n))
  }

  function DecodeHead(b: Bytes): Option<Head> {
    if b == [] || b[0] % 32 > 27 then None
    else if b[0] % 32 < 24 then Some(Head(b[0] / 32, b[0] % 32, b[1..]))
    else DecodeLongHead(b, CodeWidth(b[0] % 32))
  }

  function DecodeLongHead(b: Bytes, width: nat): Option<Head>
    requires b != []
  {
    if |b| < 1 + width || ArgumentWidth(FromBigEndian(b[1..1 + width])) != width then None
    else Some(Head(b[0] / 32, FromBigEndian(b[1..1 + width]), b[1 + width..]))
  }

  lemma {:induction false} WidthFits(n: nat)
    requires 24 <= n < U64_LIMIT
    ensures ArgumentWidth(n) in {1, 2, 4, 8} && n < Pow256(ArgumentWidth(n))
  {
    Pow256Values();
  }

  lemma {:induction false} LongHeadDecodes(initial: byte, n: nat, width: nat, tail: Bytes)
    requires n < Pow256(width) && ArgumentWidth(n) == width
    ensures DecodeLongHead([initial] + BigEndian(n, width) + tail, width) == Some(Head(initial / 32, n, tail))
  {
    var b := [initial] + BigEndian(n, width) + tail;
    assert b[1..1 + width] == BigEndian(n, width);
    assert b[1 + width..] == tail;
    BigEndianReadsBack(n, width);
  }

  lemma {:induction false} HeadDecodes(major: nat, n: nat, tail: Bytes)
    requires major < 8 && n < U64_LIMIT
    ensures DecodeHead(EncodeHead(major, n) + tail) == Some(Head(major, n, tail))
  {
    hide BigEndian, FromBigEndian, Pow256, DecodeLongHead;
    if n < 24 {
      assert ([major * 32 + n] + tail)[1..] == tail;
    } else {
      WidthFits(n);
      var width := ArgumentWidth(n);
      LongHeadDecodes(major * 32 + WidthCode(width), n, width, tail);
    }
  }

  /** The bytes of a head: the argument itself below 24, and otherwise the code of the width, 24 for one
      byte up to 27 for eight, and the argument in that many bytes, the most significant first. */
  lemma {:induction false} HeadBytes(major: nat, n: nat)
    requires major < 8 && n < U64_LIMIT
    ensures n < 24 ==> EncodeHead(major, n) == [major * 32 + n]
    ensures 24 <= n < 0x100 ==> EncodeHead(major, n) == [major * 32 + 24, n]
    ensures 0x100 <= n < 0x1_0000 ==> EncodeHead(major, n) == [major * 32 + 25, n / 0x100, n % 0x100]
    ensures 0x1_0000 <= n ==>
      && |EncodeHead(major, n)| == (if n < U32_LIMIT then 5 else 9)
      && EncodeHead(major, n)[0] == major * 32 + (if n < U32_LIMIT then 26 else 27)
      && FromBigEndian(EncodeHead(major, n)[1..]) == n
  {
    Pow256Values();
    var width := ArgumentWidth(n);
    if n >= 24 {
      WidthFits(n);
      BigEndianReadsBack(n, width);
      assert EncodeHead(major, n)[1..] == BigEndian(n, width);
    }
    if 24 <= n < 0x1_0000 {
      ShortBigEndian(n);
    }
    hide BigEndian, FromBigEndian, Pow256;
  }

  lemma {:induction false} ShortBigEndian(n: nat)
    requires n < 0x1_0000
    ensures BigEndian(n, 1) == [n % 0x100]
    ensures BigEndian(n, 2) == [n / 0x100, n % 0x100]
  {
    OneByte(n);
    OneByte(n / 0x100);
    var m := n / 0x100;
    assert m < 0x100 && m % 0x100 == m;
  }

  lemma {:induction false} OneByte(n: nat)
    ensures BigEndian(n, 1) == [n % 0x100]
  {
    assert BigEndian(n / 0x100, 0) == [];
  }

  lemma WidthCodeReadsBack(info: nat)
    requires 24 <= info <= 27
    ensures CodeWidth(info) in {1, 2, 4, 8} && WidthCode(CodeWidth(info)) == info
  {
  }

  lemma {:induction false} WidthBounds(n: nat, width: nat)
    requires ArgumentWidth(n) == width && width in {1, 2, 4, 8} && n < Pow256(width)
    ensures n < U64_LIMIT
  {
    Pow256Values();
  }

  /** The multi-byte argument and the rest of an accepted head. */
  lemma {:induction false} LongHeadIsCanonical(b: Bytes, width: nat)
    requires b != [] && width in {1, 2, 4, 8} && DecodeLongHead(b, width).Some?
    ensures var h := DecodeLongHead(b, width).value;
      && h.major == b[0] / 32 && h.argument < U64_LIMIT && ArgumentWidth(h.argument) == width
      && b == [b[0]] + BigEndian(h.argument, width) + h.rest
  {
    hide BigEndian, FromBigEndian, Pow256, ArgumentWidth;
    FromBigEndianWritesBack(b[1..1 + width]);
    WidthBounds(FromBigEndian(b[1..1 + width]), width);
    assert b == [b[0]] + b[1..1 + width] + b[1 + width..];
  }

  lemma {:induction false} HeadIsCanonical(b: Bytes)
    requires DecodeHead(b).Some?
    ensures var h := DecodeHead(b).value;
      h.major < 8 && h.argument < U64_LIMIT && b == EncodeHead(h.major, h.argument) + h.rest
  {
    hide BigEndian, FromBigEndian, Pow256, DecodeLongHead, WidthCode, CodeWidth;
    if b[0] % 32 < 24 {
      assert b == [b[0]] + b[1..];
    } else {
      WidthCodeReadsBack(b[0] % 32);
      LongHeadIsCanonical(b, CodeWidth(b[0] % 32));
    }
  }

  // ----- Items -----

  predicate ItemInRange(item: Item) {
    match item
    case UInt(n) => n < U64_LIMIT
    case ByteStr(bytes) => |bytes| < U64_LIMIT
    case TextStr(text) => |text| < U64_LIMIT
  }

  function EncodeItem(item: Item): Bytes {
    match item
    case UInt(n) => EncodeHead(0, n)
    case ByteStr(bytes) => EncodeHead(2, |bytes|) + bytes
    case TextStr(text) => EncodeHead(3, |text|) + text
  }

  function DecodeItem(b: Bytes): Option<(Item, Bytes)> {
    match DecodeHead(b)
    case None => None
    case Some(Head(major, n, rest)) =>
      if major == 0 then Some((UInt(n), rest))
      else if (major != 2 && major != 3) || |rest| < n then None
      else if major == 2 then Some((ByteStr(rest[..n]), rest[n..]))
      else Some((TextStr(rest[..n]), rest[n..]))
  }

  lemma {:induction false} ItemDecodes(item: Item, tail: Bytes)
    requires ItemInRange(item)
    ensures DecodeItem(EncodeItem(item) + tail) == Some((item, tail))
  {
    hide EncodeHead, DecodeHead;
    match item
    case UInt(n) => HeadDecodes(0, n, tail);
    case ByteStr(bytes) =>
      HeadDecodes(2, |bytes|, bytes + tail);
      assert EncodeItem(item) + tail == EncodeHead(2, |bytes|) + (bytes + tail);
    case TextStr(text) =>
      HeadDecodes(3, |text|, text + tail);
      assert EncodeItem(item) + tail == EncodeHead(3, |text|) + (text + tail);
  }

  lemma {:induction false} ItemIsCanonical(b: Bytes)
    requires DecodeItem(b).Some?
    ensures var (item, rest) := DecodeItem(b).value;
      ItemInRange(item) && b == EncodeItem(item) + rest
  {
    hide EncodeHead, DecodeHead;
    HeadIsCanonical(b);
    var h := DecodeHead(b).value;
    if h.major != 0 {
      assert h.rest == h.rest[..h.argument] + h.rest[h.argument..];
    }
  }

  // ----- Item lists and arrays -----

  predicate ItemsInRange(items: seq<Item>) {
    forall i | 0 <= i < |items| :: ItemInRange(items[i])
  }

  function EncodeItems(items: seq<Item>): Bytes {
    if items == [] then [] else EncodeItem(items[0]) + EncodeItems(items[1..])
  }

  function DecodeItems(count: nat, b: Bytes): Option<(seq<Item>, Bytes)> {
    if count == 0 then Some(([], b))
    else
      match DecodeItem(b)
      case None => None
      case Some((first, rest)) =>
        match DecodeItems(count - 1, rest)
        case None => None
        case Some((others, tail)) => Some(([first] + others, tail))
  }

  lemma {:induction false} ItemsDecode(items: seq<Item>, tail: Bytes)
    requires ItemsInRange(items)
    ensures DecodeItems(|items|, EncodeItems(items) + tail) == Some((items, tail))
  {
    hide EncodeItem, DecodeItem;
    if items == [] {
      assert EncodeItems(items) + tail == tail;
    } else {
      var rest := EncodeItems(items[1..]) + tail;
      assert EncodeItems(items) + tail == EncodeItem(items[0]) + rest;
      ItemDecodes(items[0], rest);
      ItemsDecode(items[1..], tail);
      assert items == [items[0]] + items[1..];
    }
  }

  lemma {:induction false} ItemsAreCanonical(count: nat, b: Bytes)
    requires DecodeItems(count, b).Some?
    ensures var (items, rest) := DecodeItems(count, b).value;
      |items| == count && ItemsInRange(items) && b == EncodeItems(items) + rest
  {
    hide EncodeItem, DecodeItem;
    if count == 0 {
      assert EncodeItems([]) + b == b;
    } else {
      ItemIsCanonical(b);
      var (first, rest) := DecodeItem(b).value;
      ItemsAreCanonical(count - 1, rest);
      var (others, tail) := DecodeItems(count - 1, rest).value;
      assert ([first] + others)[1..] == others;
      assert b == EncodeItems([first] + others) + tail;
    }
  }

  function EncodeArray(items: seq<Item>): Bytes {
    EncodeHead(4, |items|) + EncodeItems(items)
  }

  function DecodeArray(b: Bytes): Option<(seq<Item>, Bytes)> {
    match DecodeHead(b)
    case None => None
    case Some(Head(major, n, rest)) => if major == 4 then DecodeItems(n, rest) else None
  }

  lemma {:induction false} ArrayDecodes(items: seq<Item>, tail: Bytes)
    requires |items| < U64_LIMIT && ItemsInRange(items)
    ensures DecodeArray(EncodeArray(items) + tail) == Some((items, tail))
  {
    hide EncodeHead, DecodeHead;
    HeadDecodes(4, |items|, EncodeItems(items) + tail);
    assert EncodeArray(items) + tail == EncodeHead(4, |items|) + (EncodeItems(items) + tail);
    ItemsDecode(items, tail);
  }

  lemma {:induction false} ArrayIsCanonical(b: Bytes)
    requires DecodeArray(b).Some?
    ensures var (items, rest) := DecodeArray(b).value;
      ItemsInRange(items) && b == EncodeArray(items) + rest
  {
    hide EncodeHead, DecodeHead;
    HeadIsCanonical(b);
    var h := DecodeHead(b).value;
    ItemsAreCanonical(h.argument, h.rest);
  }
}
