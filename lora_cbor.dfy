/** `cbor_serialize` (src/lora/lora.c): an outgoing message as a two-entry CBOR map. */
module LoraCbor {
  import opened Base
  import opened Errno
  import opened Messages
  import opened Cbor

  /** The largest encoding of any message with a known tag (a telemetry message with four 4-byte values). */
  const MAX_ENCODED_SIZE: nat := 75

  /** A map entry whose key is a text string and whose value is an unsigned integer. */
  function Field(key: string, value: U32): (r: seq<Item>)
    requires IsAscii(key) && |key| < 24
    ensures AllValid(r)
  {
    assert ValidItem(Text(key)) && ValidItem(Unsigned(value));
    [Text(key), Unsigned(value)]
  }

  /** What is written before the tag is examined: outer map header, "type", the tag, "data". */
  function PrefixItems(m: Outgoing): (r: seq<Item>)
    ensures AllValid(r) && |r| == 4
  {
    [MapStart] + Field("type", m.Tag()) + [Text("data")]
  }

  /** The nested map of a telemetry message: four entries in declaration order. */
  function TelemetryItems(t: Telemetry): (r: seq<Item>)
    ensures AllValid(r) && |r| == 10
  {
    [MapStart]
    + Field("timestamp", t.timestamp) + Field("temperature", t.temperature)
    + Field("humidity", t.humidity) + Field("pressure", t.pressure)
    + [Break]
  }

  /** The nested map of a node-status message: three entries, the status as its ordinal. */
  function NodeStatusItems(s: NodeStatus): (r: seq<Item>)
    ensures AllValid(r) && |r| == 8
  {
    [MapStart]
    + Field("timestamp", s.timestamp) + Field("uptime", s.uptime)
    + Field("status", s.status.Ordinal())
    + [Break]
  }

  /** The `switch (msg->type)`: the nested map of the member the tag names. */
  function BodyItems(m: Outgoing): (r: seq<Item>)
    requires m.Known()
    ensures AllValid(r)
  {
    match m
    case TelemetryMsg(t) => TelemetryItems(t)
    case NodeStatusMsg(s) => NodeStatusItems(s)
  }

  /** Every item of a message with a known tag, in the order the encoder writes them. */
  function MessageItems(m: Outgoing): (r: seq<Item>)
    requires m.Known()
    ensures AllValid(r)
    ensures 13 <= |r| <= 15 && r[..4] == PrefixItems(m) && r[|r| - 1] == Break
  {
    PrefixItems(m) + BodyItems(m) + [Break]
  }

  /** The bytes on the air for a message with a known tag. */
  function Encode(m: Outgoing): (r: seq<Byte>)
    requires m.Known()
    ensures |r| >= 2 && r[0] == 0xBF && r[|r| - 1] == 0xFF
  {
    var items := MessageItems(m);
    var front := items[..|items| - 1];
    assert items == front + [Break];
    ConcatAppend(front, [Break]);
    ConcatSingle(Break);
    Concat(items)
  }

  /** Outcome of `cbor_serialize`: 0 with the bytes, or a negative errno. */
  datatype Serialization = Encoded(bytes: seq<Byte>) | Failed(code: int)

  /**
   * What `cbor_serialize` returns for a buffer of `bufLen` bytes: -ENOMEM when the
   * prefix does not fit; otherwise -EINVAL for a tag other than 0 or 1; otherwise
   * -ENOMEM when the whole encoding does not fit; otherwise the encoding.
   */
  function Serialized(m: Outgoing, bufLen: nat): (r: Serialization)
    ensures r.Encoded? ==> m.Known() && |r.bytes| <= bufLen && r.bytes == Encode(m)
  {
    if |Concat(PrefixItems(m))| > bufLen then Failed(-ENOMEM)
    else if !m.Known() then Failed(-EINVAL)
    else if |Encode(m)| > bufLen then Failed(-ENOMEM)
    else Encoded(Encode(m))
  }

  // ---------------------------------------------------------------------------
  // Lengths

  lemma FieldBytes(key: string, value: U32)
    requires IsAscii(key) && |key| < 24
    ensures Concat(Field(key, value)) == ItemBytes(Text(key)) + ItemBytes(Unsigned(value))
    ensures |Concat(Field(key, value))| == 1 + |key| + |Head(MAJOR_UNSIGNED, value)|
  {
    var f := Field(key, value);
    assert f[1..] == [Unsigned(value)] && f[1..][1..] == [];
    assert Concat(f[1..]) == ItemBytes(Unsigned(value));
    assert |Head(MAJOR_TEXT, |key|)| == 1;
  }

  lemma PrefixBytes(m: Outgoing)
    ensures Concat(PrefixItems(m)) == MapStartBytes() + Concat(Field("type", m.Tag())) + ItemBytes(Text("data"))
  {
    var f := Field("type", m.Tag());
    ConcatAppend([MapStart], f);
    ConcatAppend([MapStart] + f, [Text("data")]);
    assert [Text("data")][1..] == [];
  }

  lemma PrefixLength(m: Outgoing)
    ensures |Concat(PrefixItems(m))| == 11 + |Head(MAJOR_UNSIGNED, m.Tag())|
  {
    PrefixBytes(m);
    FieldBytes("type", m.Tag());
  }

  lemma TelemetryBytes(t: Telemetry)
    ensures Concat(TelemetryItems(t)) ==
              MapStartBytes()
              + Concat(Field("timestamp", t.timestamp)) + Concat(Field("temperature", t.temperature))
              + Concat(Field("humidity", t.humidity)) + Concat(Field("pressure", t.pressure))
              + BreakBytes()
  {
    var f1, f2 := Field("timestamp", t.timestamp), Field("temperature", t.temperature);
    var f3, f4 := Field("humidity", t.humidity), Field("pressure", t.pressure);
    var p1 := [MapStart] + f1;
    var p2 := p1 + f2;
    var p3 := p2 + f3;
    var p4 := p3 + f4;
    ConcatSingle(MapStart);
    ConcatSingle(Break);
    ConcatAppend([MapStart], f1);
    ConcatAppend(p1, f2);
    ConcatAppend(p2, f3);
    ConcatAppend(p3, f4);
    ConcatAppend(p4, [Break]);
  }

  lemma NodeStatusBytes(s: NodeStatus)
    ensures Concat(NodeStatusItems(s)) ==
              MapStartBytes()
              + Concat(Field("timestamp", s.timestamp)) + Concat(Field("uptime", s.uptime))
              + Concat(Field("status", s.status.Ordinal()))
              + BreakBytes()
  {
    var f1, f2, f3 := Field("timestamp", s.timestamp), Field("uptime", s.uptime), Field("status", s.status.Ordinal());
    var p1 := [MapStart] + f1;
    var p2 := p1 + f2;
    var p3 := p2 + f3;
    ConcatSingle(MapStart);
    ConcatSingle(Break);
    ConcatAppend([MapStart], f1);
    ConcatAppend(p1, f2);
    ConcatAppend(p2, f3);
    ConcatAppend(p3, [Break]);
  }

  lemma TelemetryLength(t: Telemetry)
    ensures 46 <= |Concat(TelemetryItems(t))| <= 62
  {
    TelemetryBytes(t);
    FieldBytes("timestamp", t.timestamp);
    FieldBytes("temperature", t.temperature);
    FieldBytes("humidity", t.humidity);
    FieldBytes("pressure", t.pressure);
  }

  lemma NodeStatusLength(s: NodeStatus)
    ensures 29 <= |Concat(NodeStatusItems(s))| <= 37
  {
    NodeStatusBytes(s);
    FieldBytes("timestamp", s.timestamp);
    FieldBytes("uptime", s.uptime);
    FieldBytes("status", s.status.Ordinal());
  }

  /** The encoding is the prefix, the nested map and one break byte. */
  lemma EncodeSplits(m: Outgoing)
    requires m.Known()
    ensures Encode(m) == Concat(PrefixItems(m)) + Concat(BodyItems(m)) + BreakBytes()
    ensures Encode(m) == Concat(PrefixItems(m)) + Concat(BodyItems(m) + [Break])
  {
    ConcatAppend(PrefixItems(m), BodyItems(m));
    ConcatAppend(PrefixItems(m) + BodyItems(m), [Break]);
    ConcatAppend(BodyItems(m), [Break]);
    assert Concat([Break]) == BreakBytes() by {
      assert [Break][1..] == [];
    }
  }

  /** Every message with a known tag encodes to 42..75 bytes, so it fits the 256-byte `cbor_buffer`. */
  lemma EncodedSize(m: Outgoing)
    requires m.Known()
    ensures 42 <= |Encode(m)| <= MAX_ENCODED_SIZE
  {
    EncodeSplits(m);
    PrefixLength(m);
    match m
    case TelemetryMsg(t) => TelemetryLength(t);
    case NodeStatusMsg(s) => NodeStatusLength(s);
  }

  // ---------------------------------------------------------------------------
  // Error cases

  /** Success exactly for a known tag whose whole encoding fits; the bytes are then that encoding. */
  lemma SerializedSucceedsIff(m: Outgoing, bufLen: nat)
    ensures Serialized(m, bufLen).Encoded? <==> m.Known() && |Encode(m)| <= bufLen
    ensures Serialized(m, bufLen).Encoded? ==>
              Serialized(m, bufLen).bytes == Encode(m) && |Serialized(m, bufLen).bytes| <= bufLen
  {
    if m.Known() {
      EncodeSplits(m);
    }
  }

  /** -EINVAL exactly for a foreign tag whose prefix fits; the prefix is 11 bytes plus the tag's head. */
  lemma SerializedInvalidIff(m: Outgoing, bufLen: nat)
    ensures Serialized(m, bufLen) == Failed(-EINVAL) <==>
              !m.Known() && 11 + |Head(MAJOR_UNSIGNED, m.Tag())| <= bufLen
  {
    PrefixLength(m);
  }

  /** Every failure is -ENOMEM or -EINVAL. */
  lemma SerializedFailureCodes(m: Outgoing, bufLen: nat)
    ensures Serialized(m, bufLen).Failed? ==>
              Serialized(m, bufLen).code in {-ENOMEM, -EINVAL}
  {
  }

  /** A buffer one byte too small for a known message gives -ENOMEM. */
  lemma OneByteShortFails(m: Outgoing)
    requires m.Known()
    ensures Serialized(m, |Encode(m)| - 1) == Failed(-ENOMEM)
  {
    EncodeSplits(m);
  }

  /** A buffer of at least 75 bytes always holds a known message. */
  lemma KnownMessagesFit(m: Outgoing, bufLen: nat)
    requires m.Known() && bufLen >= MAX_ENCODED_SIZE
    ensures Serialized(m, bufLen) == Encoded(Encode(m))
  {
    EncodedSize(m);
    EncodeSplits(m);
  }

  // ---------------------------------------------------------------------------
  // Decoding

  function StatusOf(n: nat): Option<Status> {
    if n == 0 then Some(Ok) else if n == 1 then Some(Error) else None
  }

  predicate IsU32Item(item: Item) {
    item.Unsigned? && item.value < 0x1_0000_0000
  }

  function TelemetryOf(body: seq<Item>): Option<Telemetry> {
    if |body| == 10 && body[0] == MapStart && body[9] == Break
       && body[1] == Text("timestamp") && IsU32Item(body[2])
       && body[3] == Text("temperature") && IsU32Item(body[4])
       && body[5] == Text("humidity") && IsU32Item(body[6])
       && body[7] == Text("pressure") && IsU32Item(body[8])
    then Some(Telemetry(body[2].value, body[4].value, body[6].value, body[8].value))
    else None
  }

  function NodeStatusOf(body: seq<Item>): Option<NodeStatus> {
    if |body| == 8 && body[0] == MapStart && body[7] == Break
       && body[1] == Text("timestamp") && IsU32Item(body[2])
       && body[3] == Text("uptime") && IsU32Item(body[4])
       && body[5] == Text("status") && body[6].Unsigned? && StatusOf(body[6].value).Some?
    then Some(NodeStatus(body[2].value, body[4].value, StatusOf(body[6].value).value))
    else None
  }

  /** Reads the item sequence of a message: the outer map, "type", the tag, "data", the nested map. */
  function MessageOf(items: seq<Item>): Option<Outgoing> {
    if |items| < 5 || items[0] != MapStart || items[1] != Text("type") || !items[2].Unsigned?
       || items[3] != Text("data") || items[|items| - 1] != Break
    then None
    else
      var body := items[4..|items| - 1];
      if items[2].value == TELEMETRY_TAG then
        match TelemetryOf(body)
        case Some(t) => Some(TelemetryMsg(t))
        case None => None
      else if items[2].value == NODE_STATUS_TAG then
        match NodeStatusOf(body)
        case Some(s) => Some(NodeStatusMsg(s))
        case None => None
      else None
  }

  /** A structural decoder of the wire format; the node itself ships none. */
  function Decode(b: seq<Byte>): Option<Outgoing> {
    match DecodeItems(b)
    case None => None
    case Some(items) => MessageOf(items)
  }

  lemma TelemetryRead(t: Telemetry)
    ensures TelemetryOf(TelemetryItems(t)) == Some(t)
  {
    var body := TelemetryItems(t);
    assert |body| == 10 && body[0] == MapStart && body[9] == Break;
  }

  lemma NodeStatusRead(s: NodeStatus)
    ensures NodeStatusOf(NodeStatusItems(s)) == Some(s)
  {
    var body := NodeStatusItems(s);
    assert |body| == 8 && body[0] == MapStart && body[7] == Break;
  }

  /** The outer frame of a message's items: four items in front of the body, one break behind it. */
  lemma MessageItemsShape(m: Outgoing)
    requires m.Known()
    ensures var items := MessageItems(m);
            |items| >= 5 && items[0] == MapStart && items[1] == Text("type")
            && items[2] == Unsigned(m.Tag()) && items[3] == Text("data")
            && items[|items| - 1] == Break && items[4..|items| - 1] == BodyItems(m)
  {
    var items := MessageItems(m);
    assert items == PrefixItems(m) + BodyItems(m) + [Break];
    assert |PrefixItems(m)| == 4;
  }

  /** Reading back the items of a message with a known tag gives the message. */
  lemma MessageOfItems(m: Outgoing)
    requires m.Known()
    ensures MessageOf(MessageItems(m)) == Some(m)
  {
    MessageItemsShape(m);
    match m
    case TelemetryMsg(t) => TelemetryRead(t);
    case NodeStatusMsg(s) => NodeStatusRead(s);
  }

  /** The decoder recovers the tag and every field of a message with a known tag. */
  lemma DecodeEncode(m: Outgoing)
    requires m.Known()
    ensures Decode(Encode(m)) == Some(m)
  {
    DecodeConcat(MessageItems(m));
    MessageOfItems(m);
  }

  /** Distinct messages with known tags never share an encoding. */
  lemma EncodeInjective(m1: Outgoing, m2: Outgoing)
    requires m1.Known() && m2.Known()
    requires Encode(m1) == Encode(m2)
    ensures m1 == m2
  {
    DecodeEncode(m1);
    DecodeEncode(m2);
  }

  // ---------------------------------------------------------------------------
  // Wire vectors

  /** A key of fewer than 24 letters takes one header byte, 0x60 plus its length. */
  lemma KeyItemBytes(key: string)
    requires IsAscii(key) && |key| < 24
    ensures ItemBytes(Text(key)) == [(0x60 + |key|) as Byte] + TextBytes(key)
  {
  }

  /**
   * A map entry on the wire: the key's one-byte text header and its letters, then the
   * value's bytes. (Grouped the way the proofs below build it.)
   */
  function Entry(header: Byte, key: string, value: seq<Byte>): seq<Byte>
    requires IsAscii(key)
  {
    ([header] + TextBytes(key)) + value
  }

  /** The first twelve bytes of every message whose tag is below 24: the outer map, "type", the tag, "data". */
  lemma PrefixWire(m: Outgoing)
    requires m.Tag() < 24
    ensures Concat(PrefixItems(m)) ==
              [0xBF] + Entry(0x64, "type", [m.Tag() as Byte]) + ([0x64] + TextBytes("data"))
  {
    PrefixBytes(m);
    FieldBytes("type", m.Tag());
    KeyItemBytes("type");
    KeyItemBytes("data");
  }

  /** The nested map of a telemetry message: four text keys, each followed by its field as an unsigned integer. */
  lemma TelemetryWire(t: Telemetry)
    ensures Concat(TelemetryItems(t)) ==
              [0xBF]
              + Entry(0x69, "timestamp", Head(MAJOR_UNSIGNED, t.timestamp))
              + Entry(0x6B, "temperature", Head(MAJOR_UNSIGNED, t.temperature))
              + Entry(0x68, "humidity", Head(MAJOR_UNSIGNED, t.humidity))
              + Entry(0x68, "pressure", Head(MAJOR_UNSIGNED, t.pressure))
              + [0xFF]
  {
    TelemetryBytes(t);
    FieldBytes("timestamp", t.timestamp);
    FieldBytes("temperature", t.temperature);
    FieldBytes("humidity", t.humidity);
    FieldBytes("pressure", t.pressure);
    KeyItemBytes("timestamp");
    KeyItemBytes("temperature");
    KeyItemBytes("humidity");
    KeyItemBytes("pressure");
  }

  /** The nested map of a node-status message: three text keys; the status is one byte, its ordinal. */
  lemma NodeStatusWire(s: NodeStatus)
    ensures Concat(NodeStatusItems(s)) ==
              [0xBF]
              + Entry(0x69, "timestamp", Head(MAJOR_UNSIGNED, s.timestamp))
              + Entry(0x66, "uptime", Head(MAJOR_UNSIGNED, s.uptime))
              + Entry(0x66, "status", [s.status.Ordinal() as Byte])
              + [0xFF]
  {
    NodeStatusBytes(s);
    FieldBytes("timestamp", s.timestamp);
    FieldBytes("uptime", s.uptime);
    FieldBytes("status", s.status.Ordinal());
    KeyItemBytes("timestamp");
    KeyItemBytes("uptime");
    KeyItemBytes("status");
  }

  /** A whole telemetry message on the wire: tag 0, then the nested map, then the outer break. */
  lemma TelemetryFrame(t: Telemetry)
    ensures Encode(TelemetryMsg(t)) ==
              ([0xBF] + Entry(0x64, "type", [0x00]) + ([0x64] + TextBytes("data")))
              + ([0xBF]
                 + Entry(0x69, "timestamp", Head(MAJOR_UNSIGNED, t.timestamp))
                 + Entry(0x6B, "temperature", Head(MAJOR_UNSIGNED, t.temperature))
                 + Entry(0x68, "humidity", Head(MAJOR_UNSIGNED, t.humidity))
                 + Entry(0x68, "pressure", Head(MAJOR_UNSIGNED, t.pressure))
                 + [0xFF])
              + [0xFF]
  {
    EncodeSplits(TelemetryMsg(t));
    PrefixWire(TelemetryMsg(t));
    TelemetryWire(t);
  }

  /** A whole node-status message on the wire: tag 1, then the nested map, then the outer break. */
  lemma NodeStatusFrame(s: NodeStatus)
    ensures Encode(NodeStatusMsg(s)) ==
              ([0xBF] + Entry(0x64, "type", [0x01]) + ([0x64] + TextBytes("data")))
              + ([0xBF]
                 + Entry(0x69, "timestamp", Head(MAJOR_UNSIGNED, s.timestamp))
                 + Entry(0x66, "uptime", Head(MAJOR_UNSIGNED, s.uptime))
                 + Entry(0x66, "status", [s.status.Ordinal() as Byte])
                 + [0xFF])
              + [0xFF]
  {
    EncodeSplits(NodeStatusMsg(s));
    PrefixWire(NodeStatusMsg(s));
    NodeStatusWire(s);
  }

  /** The heads of the telemetry scenario below, one per width. */
  lemma TelemetryScenarioHeads(t: Telemetry)
    requires t == Telemetry(100, 2500, 6000, 101300)
    ensures Head(MAJOR_UNSIGNED, t.timestamp) == [0x18, 0x64]
    ensures Head(MAJOR_UNSIGNED, t.temperature) == [0x19, 0x09, 0xC4]
    ensures Head(MAJOR_UNSIGNED, t.humidity) == [0x19, 0x17, 0x70]
    ensures Head(MAJOR_UNSIGNED, t.pressure) == [0x1A, 0x00, 0x01, 0x8B, 0xB4]
  {
    HeadBytes(MAJOR_UNSIGNED, t.timestamp);
    HeadBytes(MAJOR_UNSIGNED, t.temperature);
    HeadBytes(MAJOR_UNSIGNED, t.humidity);
    assert t.pressure / 0x100 == 0x018B && t.pressure % 0x100 == 0xB4;
    assert t.pressure / 0x1_0000 == 0x01 && t.pressure / 0x100_0000 == 0;
    HeadBytes(MAJOR_UNSIGNED, t.pressure);
  }

  /** Scenario: a telemetry reading {100, 2500, 6000, 101300} goes on the air as these bytes. */
  lemma TelemetryVector(t: Telemetry)
    requires t == Telemetry(100, 2500, 6000, 101300)
    ensures Encode(TelemetryMsg(t)) ==
              ([0xBF] + Entry(0x64, "type", [0x00]) + ([0x64] + TextBytes("data")))
              + ([0xBF]
                 + Entry(0x69, "timestamp", [0x18, 0x64])
                 + Entry(0x6B, "temperature", [0x19, 0x09, 0xC4])
                 + Entry(0x68, "humidity", [0x19, 0x17, 0x70])
                 + Entry(0x68, "pressure", [0x1A, 0x00, 0x01, 0x8B, 0xB4])
                 + [0xFF])
              + [0xFF]
  {
    TelemetryFrame(t);
    TelemetryScenarioHeads(t);
  }

  /** Scenario: a node status {50, 3600, OK} goes on the air as these bytes. */
  lemma NodeStatusVector(s: NodeStatus)
    requires s == NodeStatus(50, 3600, Ok)
    ensures Encode(NodeStatusMsg(s)) ==
              ([0xBF] + Entry(0x64, "type", [0x01]) + ([0x64] + TextBytes("data")))
              + ([0xBF]
                 + Entry(0x69, "timestamp", [0x18, 0x32])
                 + Entry(0x66, "uptime", [0x19, 0x0E, 0x10])
                 + Entry(0x66, "status", [0x00])
                 + [0xFF])
              + [0xFF]
  {
    NodeStatusFrame(s);
    assert Head(MAJOR_UNSIGNED, s.timestamp) == [0x18, 0x32] by {
      HeadBytes(MAJOR_UNSIGNED, s.timestamp);
    }
    assert Head(MAJOR_UNSIGNED, s.uptime) == [0x19, 0x0E, 0x10] by {
      assert s.uptime / 0x100 == 0x0E && s.uptime % 0x100 == 0x10;
      HeadBytes(MAJOR_UNSIGNED, s.uptime);
    }
  }

  // ---------------------------------------------------------------------------
  // The encoder proper, writing into the caller's buffer

  /** Copies `bytes` into `buf` from index `at` on (the payload copy inside each zcbor call). */
  method CopyInto(buf: array<Byte>, at: nat, bytes: seq<Byte>)
    requires at + |bytes| <= buf.Length
    modifies buf
    ensures buf[..] == old(buf[..at]) + bytes + old(buf[at + |bytes|..])
  {
    var j := 0;
    while j < |bytes|
      invariant 0 <= j <= |bytes|
      invariant forall i :: 0 <= i < at ==> buf[i] == old(buf[i])
      invariant forall i :: 0 <= i < j ==> buf[at + i] == bytes[i]
      invariant forall i :: at + j <= i < buf.Length ==> buf[i] == old(buf[i])
    {
      buf[at + j] := bytes[j];
      j := j + 1;
    }
  }

  /** One more item: its bytes follow the earlier ones, and a prefix of the items is never longer than all of them. */
  lemma ConcatStep(items: seq<Item>, k: nat)
    requires AllValid(items) && k < |items|
    ensures Concat(items[..k + 1]) == Concat(items[..k]) + ItemBytes(items[k])
    ensures |Concat(items[..k + 1])| <= |Concat(items)|
  {
    var head, next, tail := items[..k], [items[k]], items[k + 1..];
    assert items[..k + 1] == head + next;
    assert items == head + next + tail;
    ConcatAppend(head, next);
    ConcatAppend(head + next, tail);
    assert Concat(next) == ItemBytes(items[k]) by {
      assert next[1..] == [];
    }
  }

  /** What a copy at `end` does to the output so far and to the two ends of the buffer. */
  lemma CopyKeeps(before: seq<Byte>, after: seq<Byte>, pos: nat, end: nat, bufLen: nat, bytes: seq<Byte>)
    requires pos <= end && end + |bytes| <= bufLen <= |before|
    requires after == before[..end] + bytes + before[end + |bytes|..]
    ensures after[pos..end + |bytes|] == before[pos..end] + bytes
    ensures after[..pos] == before[..pos]
    ensures after[end + |bytes|..] == before[end + |bytes|..]
    ensures after[bufLen..] == before[bufLen..]
  {
  }

  /**
   * Writes `items` one after another from `pos` on and stops at the first one that
   * does not fit before `bufLen`: succeeds exactly when all of them fit, and never
   * touches the buffer before `pos` or after the last byte it wrote.
   */
  method PutItems(buf: array<Byte>, bufLen: nat, pos: nat, items: seq<Item>) returns (ok: bool, end: nat)
    requires bufLen <= buf.Length && pos <= bufLen && AllValid(items)
    modifies buf
    ensures ok <==> pos + |Concat(items)| <= bufLen
    ensures ok ==> end == pos + |Concat(items)| && buf[pos..end] == Concat(items)
    ensures pos <= end <= bufLen
    ensures buf[..pos] == old(buf[..pos])
    ensures buf[end..] == old(buf[end..])
  {
    end := pos;
    var k := 0;
    while k < |items|
      invariant k <= |items|
      invariant end == pos + |Concat(items[..k])| <= bufLen
      invariant buf[pos..end] == Concat(items[..k])
      invariant buf[..pos] == old(buf[..pos])
      invariant buf[end..] == old(buf[end..])
    {
      var bytes := ItemBytes(items[k]);
      ConcatStep(items, k);
      if end + |bytes| > bufLen {
        return false, end;
      }
      ghost var before := buf[..];
      CopyInto(buf, end, bytes);
      CopyKeeps(before, buf[..], pos, end, bufLen, bytes);
      end := end + |bytes|;
      k := k + 1;
    }
    assert items[..k] == items;
    ok := true;
  }

  /** Output written in two stretches reads as one. */
  lemma Joined(s: seq<Byte>, pos: nat, end: nat, done: seq<Byte>, more: seq<Byte>)
    requires pos <= end <= |s| && s[..pos] == done && s[pos..end] == more
    ensures s[..end] == done + more
  {
    assert s[..end] == s[..pos] + s[pos..end];
  }

  /** `PutItems` after output `done` already at the start of the buffer: the whole output so far. */
  method PutAfter(buf: array<Byte>, bufLen: nat, ghost done: seq<Byte>, pos: nat, items: seq<Item>)
      returns (ok: bool, end: nat)
    requires bufLen <= buf.Length && pos == |done| <= bufLen && buf[..pos] == done && AllValid(items)
    modifies buf
    ensures ok <==> pos + |Concat(items)| <= bufLen
    ensures ok ==> pos <= end == pos + |Concat(items)| && buf[..end] == done + Concat(items)
    ensures ok ==> buf[end..] == old(buf[end..])
    ensures buf[bufLen..] == old(buf[bufLen..])
  {
    ok, end := PutItems(buf, bufLen, pos, items);
    if ok {
      Joined(buf[..], pos, end, done, Concat(items));
    }
  }

  /**
   * The rest of a message with a known tag, after its prefix: the nested map's calls and
   * the closing `zcbor_map_end_encode`, each of which fails with -ENOMEM, written as one
   * run of items. Succeeds exactly when the whole encoding fits.
   */
  method PutBody(msg: Outgoing, buf: array<Byte>, bufLen: nat, pos: nat) returns (ok: bool, end: nat)
    requires msg.Known() && bufLen <= buf.Length
    requires pos == |Concat(PrefixItems(msg))| <= bufLen && buf[..pos] == Concat(PrefixItems(msg))
    modifies buf
    ensures ok <==> |Encode(msg)| <= bufLen
    ensures ok ==> pos <= end == |Encode(msg)| && buf[..end] == Encode(msg)
    ensures ok ==> buf[end..] == old(buf[end..])
    ensures buf[bufLen..] == old(buf[bufLen..])
  {
    var body := match msg
      case TelemetryMsg(t) => TelemetryItems(t)
      case NodeStatusMsg(s) => NodeStatusItems(s);
    assert body == BodyItems(msg);
    EncodeSplits(msg);
    ok, end := PutAfter(buf, bufLen, Concat(PrefixItems(msg)), pos, body + [Break]);
  }

  /**
   * `cbor_serialize(msg, p_buf, buf_len, p_size)`: `priorSize` is the value `*p_size`
   * held on entry, which only a successful call overwrites.
   */
  method Serialize(msg: Outgoing, buf: array<Byte>, bufLen: nat, priorSize: nat) returns (ret: int, size: nat)
    requires bufLen <= buf.Length
    modifies buf
    ensures ret == 0 <==> Serialized(msg, bufLen).Encoded?
    ensures ret != 0 ==> Serialized(msg, bufLen) == Failed(ret) && size == priorSize
    ensures ret == 0 ==> size <= bufLen && buf[..size] == Serialized(msg, bufLen).bytes
    ensures ret == 0 ==> buf[size..] == old(buf[size..])
    ensures buf[bufLen..] == old(buf[bufLen..])
  {
    size := priorSize;
    // The outer map header, "type", the tag and "data": three calls in the source,
    // each of which fails with -ENOMEM, written here as one run of four items.
    var ok, pos := PutItems(buf, bufLen, 0, PrefixItems(msg));
    if !ok {
      return -ENOMEM, size;
    }
    if !msg.Known() {
      return -EINVAL, size;
    }
    ghost var afterPrefix := buf[..];
    var ok2, end := PutBody(msg, buf, bufLen, pos);
    if !ok2 {
      return -ENOMEM, size;
    }
    assert buf[end..] == old(buf[end..]) by {
      assert afterPrefix[pos..] == old(buf[pos..]);
    }
    ret, size := 0, end;
  }
}
