/**
 * The subset of CBOR (RFC 8949) that the egress encoder emits: unsigned integers
 * (major type 0), text strings (major type 3), indefinite-length maps (major type 5)
 * and the "break" stop code (major type 7), together with a decoder for that subset.
 */
module Cbor {
  import opened Base

  const MAJOR_UNSIGNED: nat := 0
  const MAJOR_TEXT: nat := 3
  const MAJOR_MAP: nat := 5
  const MAJOR_SIMPLE: nat := 7
  /** Additional information 31: indefinite length for a map, "break" for major type 7 (RFC 8949 section 3.2). */
  const INDEFINITE: nat := 31

  /** The initial byte of a data item: major type in the high 3 bits, additional information in the low 5. */
  function InitialByte(major: nat, info: nat): Byte
    requires major < 8 && info < 32
  {
    (major * 32 + info) as Byte
  }

  function Pow256(k: nat): (p: nat)
    ensures p >= 1
  {
    if k == 0 then 1 else 256 * Pow256(k - 1)
  }

  /** `n` as `width` bytes in network byte order (most significant first). */
  function BigEndian(n: nat, width: nat): (r: seq<Byte>)
    ensures |r| == width
  {
    if width == 0 then [] else BigEndian(n / 256, width - 1) + [(n % 256) as Byte]
  }

  /** The value of a big-endian byte string. */
  function FromBigEndian(s: seq<Byte>): (n: nat)
    ensures n < Pow256(|s|)
  {
    if s == [] then 0 else FromBigEndian(s[..|s| - 1]) * 256 + s[|s| - 1] as int
  }

  lemma {:induction false} BigEndianRoundTrip(n: nat, width: nat)
    requires n < Pow256(width)
    ensures FromBigEndian(BigEndian(n, width)) == n
  {
    if width > 0 {
      var s := BigEndian(n, width);
      assert s[..|s| - 1] == BigEndian(n / 256, width - 1);
      BigEndianRoundTrip(n / 256, width - 1);
    }
  }

  /** The number of argument bytes that follow the initial byte for additional information 24..27. */
  function ArgumentWidth(info: nat): nat
    requires 24 <= info <= 27
  {
    if info == 24 then 1 else if info == 25 then 2 else if info == 26 then 4 else 8
  }

  /**
   * The head of a data item (RFC 8949 section 3): the argument goes in the initial byte when it is
   * below 24, and otherwise in the fewest following bytes that hold it (preferred
   * serialisation, RFC 8949 section 4.1), which for a 32-bit argument is 1, 2 or 4.
   */
  function Head(major: nat, arg: nat): (r: seq<Byte>)
    requires major < 8 && arg < 0x1_0000_0000
    ensures 1 <= |r| <= 5
    ensures r[0] as int / 32 == major && r[0] as int % 32 <= 26
  {
    if arg < 24 then [InitialByte(major, arg)]
    else if arg < 0x100 then [InitialByte(major, 24)] + BigEndian(arg, 1)
    else if arg < 0x1_0000 then [InitialByte(major, 25)] + BigEndian(arg, 2)
    else [InitialByte(major, 26)] + BigEndian(arg, 4)
  }

  /** The bytes of a head written out, one case per width (RFC 8949 section 3.1). */
  lemma HeadBytes(major: nat, arg: nat)
    requires major < 8 && arg < 0x1_0000_0000
    ensures arg < 24 ==> Head(major, arg) == [InitialByte(major, arg)]
    ensures 24 <= arg < 0x100 ==> Head(major, arg) == [InitialByte(major, 24), arg as Byte]
    ensures 0x100 <= arg < 0x1_0000 ==>
              Head(major, arg) == [InitialByte(major, 25), (arg / 0x100) as Byte, (arg % 0x100) as Byte]
    ensures 0x1_0000 <= arg ==>
              Head(major, arg) == [InitialByte(major, 26), (arg / 0x100_0000) as Byte,
                                   (arg / 0x1_0000 % 0x100) as Byte, (arg / 0x100 % 0x100) as Byte,
                                   (arg % 0x100) as Byte]
  {
    if 0x1_0000 <= arg {
      assert BigEndian(arg, 4) == BigEndian(arg / 0x100, 3) + [(arg % 0x100) as Byte];
      assert BigEndian(arg / 0x100, 3) == BigEndian(arg / 0x1_0000, 2) + [(arg / 0x100 % 0x100) as Byte];
      assert BigEndian(arg / 0x1_0000, 2) == BigEndian(arg / 0x100_0000, 1) + [(arg / 0x1_0000 % 0x100) as Byte];
      assert BigEndian(arg / 0x100_0000, 1) == [(arg / 0x100_0000) as Byte];
      assert BigEndian(arg, 4) == [(arg / 0x100_0000) as Byte, (arg / 0x1_0000 % 0x100) as Byte,
                                   (arg / 0x100 % 0x100) as Byte, (arg % 0x100) as Byte];
    } else if 0x100 <= arg {
      assert BigEndian(arg, 2) == BigEndian(arg / 0x100, 1) + [(arg % 0x100) as Byte];
      assert BigEndian(arg / 0x100, 1) == [(arg / 0x100) as Byte];
    }
  }

  /**
   * Head uses the shortest form: any additional-information value that can carry `arg`
   * (the argument itself when below 24, or 24..27 with a wide enough argument) gives a
   * head at least as long.
   */
  lemma HeadIsShortest(major: nat, arg: nat, info: nat)
    requires major < 8 && arg < 0x1_0000_0000
    requires (info < 24 && info == arg) || (24 <= info <= 27 && arg < Pow256(ArgumentWidth(info)))
    ensures |Head(major, arg)| <= 1 + (if info < 24 then 0 else ArgumentWidth(info))
  {
    if 24 <= info {
      assert Pow256(1) == 0x100 && Pow256(2) == 0x1_0000;
    }
  }

  /** The data items the encoder writes, one `zcbor_*` call each. */
  datatype Item = MapStart | Break | Text(text: string) | Unsigned(value: nat)

  predicate IsAscii(s: string) {
    forall i :: 0 <= i < |s| ==> s[i] < 128 as char
  }

  predicate ValidItem(item: Item) {
    match item
    case Text(s) => IsAscii(s) && |s| < 0x1_0000_0000
    case Unsigned(n) => n < 0x1_0000_0000
    case _ => true
  }

  predicate AllValid(items: seq<Item>) {
    forall i :: 0 <= i < |items| ==> ValidItem(items[i])
  }

  /** UTF-8 of an ASCII string: one byte per character. */
  function TextBytes(s: string): (r: seq<Byte>)
    requires IsAscii(s)
    ensures |r| == |s|
  {
    seq(|s|, i requires 0 <= i < |s| => (s[i] as int) as Byte)
  }

  /**
   * The header of an indefinite-length map (RFC 8949 section 3.2.2), which is what zcbor
   * writes when built without canonical mode; the entry count is not on the wire.
   */
  function MapStartBytes(): (r: seq<Byte>)
    ensures r == [0xBF]
  {
    [InitialByte(MAJOR_MAP, INDEFINITE)]
  }

  /** The "break" stop code that closes an indefinite-length map (RFC 8949 section 3.2.1). */
  function BreakBytes(): (r: seq<Byte>)
    ensures r == [0xFF]
  {
    [InitialByte(MAJOR_SIMPLE, INDEFINITE)]
  }

  function ItemBytes(item: Item): (r: seq<Byte>)
    requires ValidItem(item)
    ensures 1 <= |r|
  {
    match item
    case MapStart => MapStartBytes()
    case Break => BreakBytes()
    case Text(s) => Head(MAJOR_TEXT, |s|) + TextBytes(s)
    case Unsigned(n) => Head(MAJOR_UNSIGNED, n)
  }

  /** The bytes of a sequence of items, written one after the other. */
  function Concat(items: seq<Item>): (r: seq<Byte>)
    requires AllValid(items)
    ensures |r| >= |items|
  {
    if items == [] then [] else ItemBytes(items[0]) + Concat(items[1..])
  }

  lemma ConcatSingle(item: Item)
    requires ValidItem(item)
    ensures Concat([item]) == ItemBytes(item)
  {
    assert [item][1..] == [];
  }

  lemma {:induction false} ConcatAppend(a: seq<Item>, b: seq<Item>)
    requires AllValid(a) && AllValid(b)
    ensures AllValid(a + b) && Concat(a + b) == Concat(a) + Concat(b)
  {
    if a != [] {
      assert (a + b)[1..] == a[1..] + b;
      ConcatAppend(a[1..], b);
    } else {
      assert a + b == b;
    }
  }

  // ---------------------------------------------------------------------------
  // Decoder for the same subset

  /**
   * Reads a head: its major type, argument and length. Additional information 27
   * (8-byte arguments), 28..30 (reserved) and 31 (indefinite) are not read as heads.
   */
  function DecodeHead(b: seq<Byte>): (r: Option<(nat, nat, nat)>)
    ensures r.Some? ==> r.value.0 < 8 && r.value.1 < 0x1_0000_0000 && 1 <= r.value.2 <= |b|
  {
    if |b| == 0 then None
    else
      var major := b[0] as int / 32;
      var info := b[0] as int % 32;
      if info < 24 then Some((major, info, 1))
      else if info <= 26 then
        var w := ArgumentWidth(info);
        if |b| < 1 + w then None
        else
          assert Pow256(4) == 0x1_0000_0000;
          Some((major, FromBigEndian(b[1..1 + w]), 1 + w))
      else None
  }

  predicate AsciiBytes(b: seq<Byte>) {
    forall i :: 0 <= i < |b| ==> b[i] < 128
  }

  function TextOf(b: seq<Byte>): (s: string)
    requires AsciiBytes(b)
    ensures |s| == |b|
  {
    seq(|b|, i requires 0 <= i < |b| => (b[i] as int) as char)
  }

  /** Reads one item from the front of `b`: the item and the number of bytes it took. */
  function DecodeItem(b: seq<Byte>): (r: Option<(Item, nat)>)
    ensures r.Some? ==> ValidItem(r.value.0) && 1 <= r.value.1 <= |b|
  {
    if |b| == 0 then None
    else if b[0] == InitialByte(MAJOR_MAP, INDEFINITE) then Some((MapStart, 1))
    else if b[0] == InitialByte(MAJOR_SIMPLE, INDEFINITE) then Some((Break, 1))
    else match DecodeHead(b)
      case None => None
      case Some((major, arg, n)) =>
        if major == MAJOR_UNSIGNED then Some((Unsigned(arg), n))
        else if major == MAJOR_TEXT && n + arg <= |b| && AsciiBytes(b[n..n + arg]) then
          var s := TextOf(b[n..n + arg]);
          assert IsAscii(s);
          Some((Text(s), n + arg))
        else None
  }

  /** Splits a whole byte string into items; None if any part is not an item of the subset. */
  function DecodeItems(b: seq<Byte>): (r: Option<seq<Item>>)
    ensures r.Some? ==> AllValid(r.value)
    decreases |b|
  {
    if b == [] then Some([])
    else match DecodeItem(b)
      case None => None
      case Some((item, n)) =>
        match DecodeItems(b[n..])
        case None => None
        case Some(rest) => Some([item] + rest)
  }

  lemma HeadRoundTrip(major: nat, arg: nat, rest: seq<Byte>)
    requires major < 8 && arg < 0x1_0000_0000
    ensures DecodeHead(Head(major, arg) + rest) == Some((major, arg, |Head(major, arg)|))
  {
    var h := Head(major, arg);
    var b := h + rest;
    assert b[0] == h[0];
    if arg >= 24 {
      var w := |h| - 1;
      assert b[1..1 + w] == h[1..];
      WideArgumentRoundTrip(major, arg);
    }
  }

  lemma WideArgumentRoundTrip(major: nat, arg: nat)
    requires major < 8 && 24 <= arg < 0x1_0000_0000
    ensures var h := Head(major, arg);
      && 24 <= h[0] as int % 32 <= 26
      && |h| == 1 + ArgumentWidth(h[0] as int % 32)
      && FromBigEndian(h[1..]) == arg
  {
    var h := Head(major, arg);
    if arg < 0x100 {
      assert h[1..] == BigEndian(arg, 1);
      BigEndianRoundTrip(arg, 1);
    } else if arg < 0x1_0000 {
      assert h[1..] == BigEndian(arg, 2);
      assert Pow256(2) == 0x1_0000;
      BigEndianRoundTrip(arg, 2);
    } else {
      assert h[1..] == BigEndian(arg, 4);
      assert Pow256(4) == 0x1_0000_0000;
      BigEndianRoundTrip(arg, 4);
    }
  }

  lemma TextRoundTrip(s: string)
    requires IsAscii(s)
    ensures AsciiBytes(TextBytes(s)) && TextOf(TextBytes(s)) == s
  {
  }

  lemma ItemRoundTrip(item: Item, rest: seq<Byte>)
    requires ValidItem(item)
    ensures DecodeItem(ItemBytes(item) + rest) == Some((item, |ItemBytes(item)|))
  {
    match item
    case MapStart =>
    case Break =>
    case Unsigned(n) =>
      HeadRoundTrip(MAJOR_UNSIGNED, n, rest);
    case Text(s) =>
      TextItemRoundTrip(s, rest);
  }

  /** The text case of `ItemRoundTrip`: the head gives the length, and the letters follow it. */
  lemma TextItemRoundTrip(s: string, rest: seq<Byte>)
    requires IsAscii(s) && |s| < 0x1_0000_0000
    ensures DecodeItem(ItemBytes(Text(s)) + rest) == Some((Text(s), |ItemBytes(Text(s))|))
  {
    var h := Head(MAJOR_TEXT, |s|);
    var b := h + TextBytes(s) + rest;
    assert b == h + (TextBytes(s) + rest);
    HeadRoundTrip(MAJOR_TEXT, |s|, TextBytes(s) + rest);
    assert b[|h|..|h| + |s|] == TextBytes(s);
    TextRoundTrip(s);
  }

  /** Decoding the bytes of any sequence of items gives back exactly those items. */
  lemma {:induction false} DecodeConcat(items: seq<Item>)
    requires AllValid(items)
    ensures DecodeItems(Concat(items)) == Some(items)
  {
    if items != [] {
      var first := ItemBytes(items[0]);
      var b := Concat(items);
      ItemRoundTrip(items[0], Concat(items[1..]));
      assert b[|first|..] == Concat(items[1..]);
      DecodeConcat(items[1..]);
      assert [items[0]] + items[1..] == items;
    }
  }
}
