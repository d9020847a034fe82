/** The MQTT packet codec (codec/mqtt_proto_codec.c): packet writers and the resumable decoder, on
    a connection whose session is established.

    Bytes are integers below 256, so the C masks and shifts appear as division and remainder. */
module Codec {
  import opened Wrappers
  import opened ByteBuffer

  type Text = seq<byte>

  datatype TopicQos = TopicQos(filter: Text, qos: byte)

  datatype Packet =
    | Publish(flags: nat, topic: Text, id: nat, payload: Text)   // id 0 stands for "none" with QoS 0
    | PubAck(id: nat)
    | PubRec(id: nat)
    | PubRel(id: nat)
    | PubComp(id: nat)
    | Subscribe(id: nat, topics: seq<TopicQos>)
    | SubAck(id: nat, codes: Text)
    | Unsubscribe(id: nat, filters: seq<Text>)
    | UnsubAck(id: nat)
    | PingReq
    | PingResp

  function TypeOf(p: Packet): (t: nat)
    ensures 3 <= t <= 13
  {
    match p
    case Publish(_, _, _, _) => 3
    case PubAck(_) => 4
    case PubRec(_) => 5
    case PubRel(_) => 6
    case PubComp(_) => 7
    case Subscribe(_, _) => 8
    case SubAck(_, _) => 9
    case Unsubscribe(_, _) => 10
    case UnsubAck(_) => 11
    case PingReq => 12
    case PingResp => 13
  }

  function FlagsOf(p: Packet): nat {
    if p.Publish? then p.flags else if p.PubRel? || p.Subscribe? || p.Unsubscribe? then 2 else 0
  }

  function Qos(flags: nat): nat {
    flags / 2 % 4
  }

  // ---------- writing ----------

  const LENGTH_LIMIT: nat := 0x1000_0000

  /** pack_uint16: the value is cut to sixteen bits, the high byte comes first. */
  function U16(n: nat): Text {
    [n / 256 % 256, n % 256]
  }

  /** Two length bytes and the characters. */
  function TextBytes(t: Text): Text {
    U16(|t|) + t
  }

  predicate ShortText(t: Text) {
    |t| < 0x1_0000
  }

  predicate GoodEntry(t: TopicQos) {
    ShortText(t.filter) && t.qos <= 2
  }

  predicate GoodEntries(ts: seq<TopicQos>) {
    ts == [] || (GoodEntry(ts[0]) && GoodEntries(ts[1..]))
  }

  predicate ShortTexts(fs: seq<Text>) {
    fs == [] || (ShortText(fs[0]) && ShortTexts(fs[1..]))
  }

  function EntryBytes(t: TopicQos): Text {
    TextBytes(t.filter) + [t.qos]
  }

  function TopicBytes(ts: seq<TopicQos>): Text {
    if ts == [] then [] else EntryBytes(ts[0]) + TopicBytes(ts[1..])
  }

  function FilterBytes(fs: seq<Text>): Text {
    if fs == [] then [] else TextBytes(fs[0]) + FilterBytes(fs[1..])
  }

  /** The fields fit into their places. */
  predicate Fits(p: Packet) {
    match p
    case Publish(flags, topic, id, _) =>
      flags < 16 && ShortText(topic) && id < 0x1_0000 && (Qos(flags) == 0 ==> id == 0)
    case Subscribe(id, ts) => id < 0x1_0000 && GoodEntries(ts)
    case Unsubscribe(id, fs) => id < 0x1_0000 && ShortTexts(fs)
    case PingReq => true
    case PingResp => true
    case _ => p.id < 0x1_0000
  }

  /** Variable header and payload. */
  function Body(p: Packet): Text {
    match p
    case Publish(flags, topic, id, payload) =>
      TextBytes(topic) + (if Qos(flags) > 0 then U16(id) else []) + payload
    case Subscribe(id, ts) => U16(id) + TopicBytes(ts)
    case SubAck(id, codes) => U16(id) + codes
    case Unsubscribe(id, fs) => U16(id) + FilterBytes(fs)
    case PingReq => []
    case PingResp => []
    case _ => U16(p.id)
  }

  /** The length field of section 2.2.3 of MQTT Version 3.1.1: seven bits a byte, low end first. */
  function LengthBytes(n: nat): (r: Text)
    ensures r != []
  {
    if n < 128 then [n] else [n % 128 + 128] + LengthBytes(n / 128)
  }

  function HeaderByte(p: Packet): byte {
    TypeOf(p) * 16 + FlagsOf(p) % 16
  }

  function Encode(p: Packet): Text {
    [HeaderByte(p)] + LengthBytes(|Body(p)|) + Body(p)
  }

  ghost predicate WellFormed(p: Packet) {
    Fits(p) && |Body(p)| < LENGTH_LIMIT
  }

  // ---------- reading: the parsers ----------

  function Word(hi: int, lo: int): int {
    hi * 256 + lo
  }

  function ReadU16(buf: Text): Option<(nat, Text)> {
    if |buf| < 2 then None else Some((Word(buf[0], buf[1]), buf[2..]))
  }

  function ReadText(buf: Text): Option<(Text, Text)> {
    if |buf| < 2 then None
    else
      var n := Word(buf[0], buf[1]);
      if |buf| - 2 < n then None else Some((buf[2..2 + n], buf[2 + n..]))
  }

  /** A topic filter and the QoS behind it, which is at most 2. */
  function ReadEntry(buf: Text): (r: Option<(TopicQos, Text)>)
    ensures r.Some? ==> |r.value.1| < |buf|
  {
    var t := ReadText(buf);
    if t.None? || t.value.1 == [] || t.value.1[0] > 2 then None
    else Some((TopicQos(t.value.0, t.value.1[0]), t.value.1[1..]))
  }

  function ReadTopics(buf: Text, len: int): (r: Option<(seq<TopicQos>, Text)>)
    ensures r.Some? ==> |r.value.1| <= |buf|
    decreases |buf|
  {
    if len == 0 then Some(([], buf))
    else
      var t := ReadEntry(buf);
      if t.None? || len < |t.value.0.filter| + 3 then None
      else
        var more := ReadTopics(t.value.1, len - |t.value.0.filter| - 3);
        if more.None? then None else Some(([t.value.0] + more.value.0, more.value.1))
  }

  function ReadFilters(buf: Text, len: int): (r: Option<(seq<Text>, Text)>)
    ensures r.Some? ==> |r.value.1| <= |buf|
    decreases |buf|
  {
    if len == 0 then Some(([], buf))
    else
      var t := ReadText(buf);
      if t.None? || len < |t.value.0| + 2 then None
      else
        var more := ReadFilters(t.value.1, len - |t.value.0| - 2);
        if more.None? then None else Some(([t.value.0] + more.value.0, more.value.1))
  }

  function ReadPublish(flags: nat, buf: Text, len: nat): (r: Option<(Packet, Text)>)
    ensures r.Some? ==> |r.value.1| <= |buf|
  {
    var t := ReadText(buf);
    if t.None? then None
    else if Qos(flags) != 0 then
      var i := ReadU16(t.value.1);
      var n := len - 4 - |t.value.0|;
      if i.None? || n < 0 || |i.value.1| < n then None
      else Some((Publish(flags, t.value.0, i.value.0, i.value.1[..n]), i.value.1[n..]))
    else
      var n := len - 2 - |t.value.0|;
      if n < 0 || |t.value.1| < n then None
      else Some((Publish(flags, t.value.0, 0, t.value.1[..n]), t.value.1[n..]))
  }

  /** What follows the packet id in the packets that start with one. */
  function RestOf(kind: int, id: nat, rest: Text, len: nat): (r: Option<(Packet, Text)>)
    requires 4 <= kind <= 11
    ensures r.Some? ==> |r.value.1| <= |rest|
  {
    if kind == 8 then
      var t := ReadTopics(rest, len - 2);
      if t.None? then None else Some((Subscribe(id, t.value.0), t.value.1))
    else if kind == 9 then
      if len < 2 || |rest| < len - 2 then None else Some((SubAck(id, rest[..len - 2]), rest[len - 2..]))
    else if kind == 10 then
      var t := ReadFilters(rest, len - 2);
      if t.None? then None else Some((Unsubscribe(id, t.value.0), t.value.1))
    else Some((AckPacket(kind, id), rest))
  }

  function AckPacket(kind: int, id: nat): Packet {
    match kind
    case 4 => PubAck(id)
    case 5 => PubRec(id)
    case 6 => PubRel(id)
    case 7 => PubComp(id)
    case _ => UnsubAck(id)
  }

  /** The parser of one packet type, on a buffer that holds at least `len` bytes; None stands for closing the
      connection.  `server` is the broker's side: each side refuses what only the other may receive. */
  function ParseBody(server: bool, tf: byte, buf: Text, len: nat): (r: Option<(Packet, Text)>)
    requires len <= |buf|
    ensures r.Some? ==> |r.value.1| <= |buf|
  {
    var kind, flags := tf / 16, tf % 16;
    if kind == 3 then ReadPublish(flags, buf, len)
    else if kind == 12 then (if server then Some((PingReq, buf)) else None)
    else if kind == 13 then (if server then None else Some((PingResp, buf)))
    else if !(4 <= kind <= 11) || ((kind == 8 || kind == 10) && !server) || ((kind == 9 || kind == 11) && server) then None
    else
      var i := ReadU16(buf);
      if i.None? then None
      else
        RestOf(kind, i.value.0, i.value.1, len)
  }

  predicate MayReceive(server: bool, p: Packet) {
    if p.Subscribe? || p.Unsubscribe? || p.PingReq? then server
    else if p.SubAck? || p.UnsubAck? || p.PingResp? then !server
    else true
  }

  /** What the parser answers before it delivers the packet. */
  function Replies(p: Packet): seq<Packet> {
    match p
    case Publish(flags, _, id, _) =>
      if Qos(flags) == 1 then [PubAck(id)] else if Qos(flags) == 2 then [PubRec(id)] else []
    case PubRel(id) => [PubComp(id)]
    case PingReq => [PingResp]
    case _ => []
  }

  lemma ReadU16Inverse(n: nat, rest: Text)
    requires n < 0x1_0000
    ensures ReadU16(U16(n) + rest) == Some((n, rest))
  {
    assert (U16(n) + rest)[2..] == rest;
  }

  lemma ReadTextInverse(t: Text, rest: Text)
    requires ShortText(t)
    ensures ReadText(TextBytes(t) + rest) == Some((t, rest))
  {
    var b := TextBytes(t) + rest;
    assert Word(b[0], b[1]) == |t|;
    assert b[2..2 + |t|] == t && b[2 + |t|..] == rest;
  }

  lemma ReadEntryInverse(t: TopicQos, tail: Text)
    requires GoodEntry(t)
    ensures ReadEntry(EntryBytes(t) + tail) == Some((t, tail)) && |EntryBytes(t)| == |t.filter| + 3
  {
    assert EntryBytes(t) + tail == TextBytes(t.filter) + ([t.qos] + tail);
    ReadTextInverse(t.filter, [t.qos] + tail);
    assert ([t.qos] + tail)[1..] == tail;
  }

  lemma Assoc3(a: Text, b: Text, c: Text)
    ensures a + b + c == a + (b + c)
  {
  }

  lemma ReadTopicsCons(ts: seq<TopicQos>, tail: Text, len: nat, rest: Text, buf: Text, n: nat)
    requires ts != [] && GoodEntry(ts[0]) && ReadTopics(tail, len) == Some((ts[1..], rest))
    requires buf == EntryBytes(ts[0]) + tail && n == len + |EntryBytes(ts[0])|
    ensures ReadTopics(buf, n) == Some((ts, rest))
  {
    ReadEntryInverse(ts[0], tail);
    assert [ts[0]] + ts[1..] == ts;
  }

  lemma TopicBytesCons(ts: seq<TopicQos>, rest: Text)
    requires ts != []
    ensures TopicBytes(ts) + rest == EntryBytes(ts[0]) + (TopicBytes(ts[1..]) + rest)
    ensures |TopicBytes(ts)| == |TopicBytes(ts[1..])| + |EntryBytes(ts[0])|
  {
    Assoc3(EntryBytes(ts[0]), TopicBytes(ts[1..]), rest);
  }

  lemma {:induction false} ReadTopicsInverse(ts: seq<TopicQos>, rest: Text, buf: Text, n: nat)
    requires GoodEntries(ts) && buf == TopicBytes(ts) + rest && n == |TopicBytes(ts)|
    ensures ReadTopics(buf, n) == Some((ts, rest))
    decreases |ts|
  {
    if ts == [] {
      assert buf == rest;
    } else {
      var tail, len := TopicBytes(ts[1..]) + rest, |TopicBytes(ts[1..])|;
      ReadTopicsInverse(ts[1..], rest, tail, len);
      TopicBytesCons(ts, rest);
      ReadTopicsCons(ts, tail, len, rest, buf, n);
    }
  }

  lemma {:induction false} ReadFiltersInverse(fs: seq<Text>, rest: Text)
    requires ShortTexts(fs)
    ensures ReadFilters(FilterBytes(fs) + rest, |FilterBytes(fs)|) == Some((fs, rest))
    decreases |fs|
  {
    if fs == [] {
      assert [] + rest == rest;
    } else {
      var e, tail := TextBytes(fs[0]), FilterBytes(fs[1..]);
      Assoc3(e, tail, rest);
      ReadTextInverse(fs[0], tail + rest);
      ReadFiltersInverse(fs[1..], rest);
      assert [fs[0]] + fs[1..] == fs;
    }
  }

  lemma ReadPublishInverse(p: Packet, rest: Text)
    requires Fits(p) && p.Publish?
    ensures ReadPublish(p.flags, Body(p) + rest, |Body(p)|) == Some((p, rest))
  {
    var tail := p.payload + rest;
    assert tail[..|p.payload|] == p.payload && tail[|p.payload|..] == rest;
    if Qos(p.flags) > 0 {
      assert Body(p) + rest == TextBytes(p.topic) + (U16(p.id) + tail);
      ReadTextInverse(p.topic, U16(p.id) + tail);
      ReadU16Inverse(p.id, tail);
    } else {
      assert Body(p) + rest == TextBytes(p.topic) + tail;
      ReadTextInverse(p.topic, tail);
    }
  }

  /** Packets that start with a packet id. */
  lemma ParseId(server: bool, tf: byte, id: nat, tail: Text, buf: Text, len: nat)
    requires id < 0x1_0000 && buf == U16(id) + tail && len <= |buf| && 4 <= tf / 16 <= 11
    requires (tf / 16 == 8 || tf / 16 == 10 ==> server) && (tf / 16 == 9 || tf / 16 == 11 ==> !server)
    ensures ParseBody(server, tf, buf, len) == RestOf(tf / 16, id, tail, len)
  {
    ReadU16Inverse(id, tail);
  }

  lemma RestInverse(p: Packet, tail: Text, rest: Text, n: nat)
    requires Fits(p) && 4 <= TypeOf(p) <= 11 && Body(p) == U16(p.id) + tail && n == |Body(p)|
    ensures RestOf(TypeOf(p), p.id, tail + rest, n) == Some((p, rest))
  {
    if p.Subscribe? {
      U16Cancels(p.id, tail, TopicBytes(p.topics));
      ReadTopicsInverse(p.topics, rest, tail + rest, |tail|);
    } else if p.Unsubscribe? {
      U16Cancels(p.id, tail, FilterBytes(p.filters));
      ReadFiltersInverse(p.filters, rest);
    } else if p.SubAck? {
      U16Cancels(p.id, tail, p.codes);
      assert (tail + rest)[..|tail|] == tail && (tail + rest)[|tail|..] == rest;
    } else {
      U16Cancels(p.id, tail, []);
      assert [] + rest == rest;
    }
  }

  lemma U16Cancels(id: nat, a: Text, b: Text)
    requires U16(id) + a == U16(id) + b || (U16(id) + a == U16(id) && b == [])
    ensures a == b
  {
    assert a == (U16(id) + a)[2..];
    assert b == (U16(id) + b)[2..];
  }

  /** Every parser inverts its writer, whatever follows in the buffer. */
  lemma ParseInverse(server: bool, p: Packet, tf: byte, rest: Text)
    requires Fits(p) && MayReceive(server, p) && tf == HeaderByte(p)
    ensures ParseBody(server, tf, Body(p) + rest, |Body(p)|) == Some((p, rest))
  {
    assert tf / 16 == TypeOf(p);
    if p.Publish? {
      assert tf % 16 == p.flags;
      ReadPublishInverse(p, rest);
    } else if p.PingReq? || p.PingResp? {
      assert [] + rest == rest;
    } else {
      var tail := Body(p)[2..];
      assert Body(p) == U16(p.id) + tail;
      RestInverse(p, tail, rest, |Body(p)|);
      Assoc3(U16(p.id), tail, rest);
      ParseId(server, tf, p.id, tail + rest, Body(p) + rest, |Body(p)|);
    }
  }

  // ---------- reading: the resumable decoder ----------

  /** parsing_ctx: what the decoder remembers between two calls. */
  datatype Context =
    | FixedHeader
    | RemainLength(tf: byte, remain: nat, multiplier: nat)
    | InBody(tf: byte, remain: nat)

  datatype LengthResult = NeedMore(remain: nat, multiplier: nat) | Length(remain: nat, rest: Text) | BadLength

  /** parse_remain_length, on a buffer that is not empty.  The fifth byte is refused whatever it is. */
  function ReadLength(remain: nat, multiplier: nat, buf: Text): (r: LengthResult)
    requires buf != []
    ensures r.Length? ==> |r.rest| < |buf|
    decreases |buf|
  {
    if multiplier > 128 * 128 * 128 then BadLength
    else
      var remain' := remain + buf[0] % 128 * multiplier;
      if buf[0] < 128 then Length(remain', buf[1..])
      else if |buf| == 1 then NeedMore(remain', multiplier * 128)
      else ReadLength(remain', multiplier * 128, buf[1..])
  }

  datatype FlagStatus = FlagsOk | BadFormat | BadProtocol

  function ValidateFlags(tf: byte): FlagStatus {
    var kind, flags := tf / 16, tf % 16;
    if kind == 3 then FlagsOk
    else if kind == 6 || kind == 8 || kind == 10 then (if flags == 2 then FlagsOk else BadFormat)
    else if flags == 0 then FlagsOk else BadProtocol
  }

  /** What a call of the decoder leaves behind and hands on. */
  datatype Decoded = Decoded(ctx: Context, buf: Text, packets: seq<Packet>, closed: bool)

  function Stop(ctx: Context, buf: Text): Decoded { Decoded(ctx, buf, [], false) }

  /** tmq_tcp_conn_force_close: whatever is left in the buffer is never looked at again. */
  const CLOSED := Decoded(FixedHeader, [], [], true)

  function After(p: Packet, d: Decoded): Decoded {
    d.(packets := [p] + d.packets)
  }

  /** One packet header; the verdict BadProtocol only counts if no further byte has arrived yet, because
      the status is overwritten by the length parser. */
  function DecodeHeader(server: bool, buf: Text): Decoded
    requires buf != []
    decreases |buf|, 0
  {
    var tf, rest := buf[0], buf[1..];
    var ctx := RemainLength(tf, 0, 1);
    if !(1 <= tf / 16 <= 14) then CLOSED
    else if ValidateFlags(tf) == BadFormat then CLOSED
    else if rest == [] then (if ValidateFlags(tf) == BadProtocol then CLOSED else Stop(ctx, rest))
    else DecodeLength(server, tf, 0, 1, rest)
  }

  function DecodeLength(server: bool, tf: byte, remain: nat, multiplier: nat, buf: Text): Decoded
    requires buf != []
    decreases |buf|, 0
  {
    match ReadLength(remain, multiplier, buf)
    case NeedMore(r, m) => Stop(RemainLength(tf, r, m), [])
    case Length(r, rest) => DecodeBody(server, tf, r, rest)
    case BadLength => CLOSED
  }

  function DecodeBody(server: bool, tf: byte, remain: nat, buf: Text): Decoded
    decreases |buf|, 1
  {
    if |buf| < remain then Stop(InBody(tf, remain), buf)
    else
      match ParseBody(server, tf, buf, remain)
      case None => CLOSED
      case Some((p, rest)) => After(p, if rest == [] then Stop(FixedHeader, []) else DecodeHeader(server, rest))
  }

  /** decode_tcp_message_: called when bytes have arrived, so with a buffer that is not empty. */
  function Decode(server: bool, ctx: Context, buf: Text): Decoded
    requires buf != []
  {
    match ctx
    case FixedHeader => DecodeHeader(server, buf)
    case RemainLength(tf, r, m) => DecodeLength(server, tf, r, m, buf)
    case InBody(tf, r) => DecodeBody(server, tf, r, buf)
  }

  /** More bytes arrive on a connection; a closed one ignores them. */
  function Feed(server: bool, d: Decoded, piece: Text): Decoded
    requires piece != []
  {
    if d.closed then d
    else
      var e := Decode(server, d.ctx, d.buf + piece);
      e.(packets := d.packets + e.packets)
  }

  const FRESH := Stop(FixedHeader, [])

  function FeedAll(server: bool, d: Decoded, pieces: seq<Text>): Decoded
    requires forall i :: 0 <= i < |pieces| ==> pieces[i] != []
    decreases |pieces|
  {
    if pieces == [] then d else FeedAll(server, Feed(server, d, pieces[0]), pieces[1..])
  }

  function Concat(pieces: seq<Text>): Text {
    if pieces == [] then [] else pieces[0] + Concat(pieces[1..])
  }

  ghost predicate Sendable(server: bool, ps: seq<Packet>) {
    forall i :: 0 <= i < |ps| ==> WellFormed(ps[i]) && MayReceive(server, ps[i])
  }

  function EncodeAll(ps: seq<Packet>): Text {
    if ps == [] then [] else Encode(ps[0]) + EncodeAll(ps[1..])
  }

  // ---------- the length field ----------

  predicate Power(m: nat) {
    m == 1 || m == 128 || m == 16384 || m == 2097152
  }

  lemma LengthArithmetic(acc: nat, v: nat, m: nat)
    ensures acc + v % 128 * m + v / 128 * (m * 128) == acc + v * m
  {
    var q, r := v / 128, v % 128;
    assert v == q * 128 + r;
    calc {
      v * m;
      (q * 128 + r) * m;
      q * 128 * m + r * m;
    }
    assert q * (m * 128) == q * 128 * m;
  }

  lemma NextPower(v: nat, m: nat)
    requires Power(m) && v >= 128 && v * m < LENGTH_LIMIT
    ensures Power(m * 128) && v / 128 * (m * 128) < LENGTH_LIMIT
  {
    LengthArithmetic(0, v, m);
    assert m != 2097152;
  }

  /** Reading a length field back, from any point in it. */
  lemma ReadLengthInverse(acc: nat, m: nat, v: nat, rest: Text)
    requires Power(m) && v * m < LENGTH_LIMIT
    ensures ReadLength(acc, m, LengthBytes(v) + rest) == Length(acc + v * m, rest)
  {
    ReadLengthInto(acc, m, v, rest, acc + v * m);
  }

  lemma {:induction false} ReadLengthInto(acc: nat, m: nat, v: nat, rest: Text, total: nat)
    requires Power(m) && v * m < LENGTH_LIMIT && total == acc + v * m
    ensures ReadLength(acc, m, LengthBytes(v) + rest) == Length(total, rest)
    decreases v
  {
    if v < 128 {
      ReadLengthLast(acc, m, v, rest);
    } else {
      var b, tail, acc' := v % 128 + 128, LengthBytes(v / 128), acc + v % 128 * m;
      NextPower(v, m);
      LengthArithmetic(acc, v, m);
      ReadLengthInto(acc', m * 128, v / 128, rest, total);
      ReadLengthFront(acc, m, b, tail, rest, acc');
    }
  }

  lemma ReadLengthFront(acc: nat, m: nat, b: byte, tail: Text, rest: Text, acc': nat)
    requires m <= 128 * 128 * 128 && b >= 128 && tail != [] && acc' == acc + (b - 128) * m
    ensures ReadLength(acc, m, [b] + tail + rest) == ReadLength(acc', m * 128, tail + rest)
  {
    Assoc3([b], tail, rest);
    ReadLengthStep(acc, m, b, tail + rest);
  }

  lemma ReadLengthLast(r: nat, m: nat, b: byte, tail: Text)
    requires m <= 128 * 128 * 128 && b < 128
    ensures ReadLength(r, m, [b] + tail) == Length(r + b * m, tail)
  {
    assert ([b] + tail)[1..] == tail && b % 128 == b;
  }

  lemma ReadLengthStep(r: nat, m: nat, b: byte, tail: Text)
    requires m <= 128 * 128 * 128 && b >= 128 && tail != []
    ensures ReadLength(r, m, [b] + tail) == ReadLength(r + (b - 128) * m, m * 128, tail)
  {
    assert ([b] + tail)[1..] == tail && b % 128 == b - 128;
  }

  /** Cutting a length field: reading goes on where it stopped. */
  lemma {:induction false} ReadLengthSplit(r: nat, m: nat, q: Text, more: Text)
    requires q != [] && more != [] && ReadLength(r, m, q).NeedMore?
    ensures var s := ReadLength(r, m, q); ReadLength(r, m, q + more) == ReadLength(s.remain, s.multiplier, more)
    decreases |q|
  {
    if |q| == 1 {
      assert (q + more)[1..] == more;
    } else {
      assert (q + more)[1..] == q[1..] + more;
      ReadLengthSplit(r + q[0] % 128 * m, m * 128, q[1..], more);
    }
  }

  /** A proper prefix of a length field never completes it. */
  lemma {:induction false} LengthPrefix(acc: nat, m: nat, v: nat, k: nat)
    requires Power(m) && v * m < LENGTH_LIMIT && 0 < k < |LengthBytes(v)|
    ensures ReadLength(acc, m, LengthBytes(v)[..k]).NeedMore?
    decreases v
  {
    var q := LengthBytes(v)[..k];
    NextPower(v, m);
    if k > 1 {
      assert q[1..] == LengthBytes(v / 128)[..k - 1];
      LengthPrefix(acc + q[0] % 128 * m, m * 128, v / 128, k - 1);
    }
  }

  // ---------- whole streams ----------

  lemma HeaderAccepted(p: Packet)
    requires Fits(p)
    ensures 1 <= HeaderByte(p) / 16 <= 14 && ValidateFlags(HeaderByte(p)) == FlagsOk
  {
  }

  /** Decoding bytes that have arrived in one piece on a fresh connection. */
  function DecodeOnce(server: bool, bytes: Text): Decoded {
    if bytes == [] then FRESH else DecodeHeader(server, bytes)
  }

  /** The header and the complete length field of a packet, and then anything. */
  lemma DecodeUpToBody(server: bool, p: Packet, tail: Text)
    requires WellFormed(p)
    ensures DecodeOnce(server, [HeaderByte(p)] + (LengthBytes(|Body(p)|) + tail))
         == DecodeBody(server, HeaderByte(p), |Body(p)|, tail)
  {
    var tf, n := HeaderByte(p), |Body(p)|;
    var rest := LengthBytes(n) + tail;
    HeaderAccepted(p);
    HeaderTaken(server, tf, rest);
    ReadLengthInverse(0, 1, n, tail);
  }

  lemma HeaderTaken(server: bool, tf: byte, rest: Text)
    requires rest != [] && 1 <= tf / 16 <= 14 && ValidateFlags(tf) == FlagsOk
    ensures DecodeOnce(server, [tf] + rest) == DecodeLength(server, tf, 0, 1, rest)
  {
    assert ([tf] + rest)[1..] == rest;
  }

  lemma EncodeParts(p: Packet, tail: Text)
    requires Fits(p)
    ensures Encode(p) + tail == [HeaderByte(p)] + (LengthBytes(|Body(p)|) + (Body(p) + tail))
  {
  }

  /** A whole packet at the front is delivered, and decoding goes on behind it. */
  lemma FirstPacket(server: bool, p: Packet, tail: Text)
    requires WellFormed(p) && MayReceive(server, p)
    ensures DecodeOnce(server, Encode(p) + tail) == After(p, DecodeOnce(server, tail))
  {
    EncodeParts(p, tail);
    DecodeUpToBody(server, p, Body(p) + tail);
    ParseInverse(server, p, HeaderByte(p), tail);
  }

  /** The bytes q have been decoded without completing a packet, and going on with `more` is the same as
      having received q and `more` together. */
  ghost predicate Resumes(server: bool, q: Text, more: Text) {
    var d := DecodeOnce(server, q);
    more != [] && !d.closed && d.packets == [] && Decode(server, d.ctx, d.buf + more) == DecodeOnce(server, q + more)
  }

  lemma ResumesFrom(server: bool, q: Text, more: Text, ctx: Context, buf: Text)
    requires more != [] && DecodeOnce(server, q) == Stop(ctx, buf)
    requires Decode(server, ctx, buf + more) == DecodeOnce(server, q + more)
    ensures Resumes(server, q, more)
  {
  }

  lemma DecodeAfterHeader(server: bool, tf: byte, rest: Text)
    requires 1 <= tf / 16 <= 14 && ValidateFlags(tf) == FlagsOk
    ensures DecodeOnce(server, [tf] + rest) ==
            if rest == [] then Stop(RemainLength(tf, 0, 1), []) else DecodeLength(server, tf, 0, 1, rest)
  {
    assert ([tf] + rest)[1..] == rest;
  }

  lemma ResumeInLength(server: bool, tf: byte, v: nat, k: nat, more: Text)
    requires 1 <= tf / 16 <= 14 && ValidateFlags(tf) == FlagsOk
    requires v < LENGTH_LIMIT && k < |LengthBytes(v)| && more != []
    ensures Resumes(server, [tf] + LengthBytes(v)[..k], more)
  {
    var len := LengthBytes(v)[..k];
    var q := [tf] + len;
    DecodeAfterHeader(server, tf, len);
    DecodeAfterHeader(server, tf, len + more);
    Assoc3([tf], len, more);
    assert [] + more == more;
    if k == 0 {
      assert len + more == more;
      ResumesFrom(server, q, more, RemainLength(tf, 0, 1), []);
    } else {
      LengthPrefix(0, 1, v, k);
      ReadLengthSplit(0, 1, len, more);
      var s := ReadLength(0, 1, len);
      ResumesFrom(server, q, more, RemainLength(tf, s.remain, s.multiplier), []);
    }
  }

  /** Prefixes of a header byte, a length field and a body. */
  lemma Prefixes(h: byte, len: Text, body: Text, n: nat)
    requires 0 < n <= 1 + |len| + |body|
    ensures n <= 1 + |len| ==> ([h] + len + body)[..n] == [h] + len[..n - 1]
    ensures n >= 1 + |len| ==> ([h] + len + body)[..n] == [h] + (len + body[..n - 1 - |len|])
  {
  }

  lemma ResumeInBody(server: bool, p: Packet, part: Text, more: Text, q: Text)
    requires WellFormed(p) && |part| < |Body(p)| && more != []
    requires q == [HeaderByte(p)] + (LengthBytes(|Body(p)|) + part)
    ensures Resumes(server, q, more)
  {
    var tf, len := HeaderByte(p), LengthBytes(|Body(p)|);
    DecodeUpToBody(server, p, part);
    DecodeUpToBody(server, p, part + more);
    Assoc3([tf], len + part, more);
    Assoc3(len, part, more);
    ResumesFrom(server, q, more, InBody(tf, |Body(p)|), part);
  }

  /** Cutting inside a packet, be it in the length field: what the decoder remembers is enough to go on. */
  lemma ResumeInside(server: bool, p: Packet, n: nat, more: Text)
    requires WellFormed(p) && n < |Encode(p)| && more != []
    ensures Resumes(server, Encode(p)[..n], more)
  {
    var tf, len, body := HeaderByte(p), LengthBytes(|Body(p)|), Body(p);
    var q := Encode(p)[..n];
    if n == 0 {
      assert q + more == more && [] + more == more;
      ResumesFrom(server, q, more, FixedHeader, []);
    } else {
      Prefixes(tf, len, body, n);
      if n <= |len| {
        HeaderAccepted(p);
        ResumeInLength(server, tf, |body|, n - 1, more);
      } else {
        ResumeInBody(server, p, body[..n - 1 - |len|], more, q);
      }
    }
  }

  lemma FeedAfter(server: bool, p: Packet, d: Decoded, more: Text)
    requires more != [] && !d.closed
    ensures Feed(server, After(p, d), more) == After(p, Feed(server, d, more))
  {
    var e := Decode(server, d.ctx, d.buf + more);
    assert [p] + d.packets + e.packets == [p] + (d.packets + e.packets);
  }

  /** Cutting a stream of packets anywhere. */
  lemma {:induction false} Resume(server: bool, ps: seq<Packet>, n: nat, more: Text)
    requires Sendable(server, ps) && n <= |EncodeAll(ps)| && more != []
    ensures var q := EncodeAll(ps)[..n];
            var d := DecodeOnce(server, q);
            !d.closed && Feed(server, d, more) == DecodeOnce(server, q + more)
    decreases |ps|
  {
    var q := EncodeAll(ps)[..n];
    if ps == [] {
      assert q == [] && [] + more == more;
      assert DecodeOnce(server, more).packets == [] + DecodeOnce(server, more).packets;
    } else {
      var e, tail := Encode(ps[0]), EncodeAll(ps[1..]);
      if n < |e| {
        assert q == e[..n];
        ResumeInFirst(server, ps[0], n, more);
      } else {
        assert q == e + tail[..n - |e|];
        Resume(server, ps[1..], n - |e|, more);
        ResumeBehind(server, ps[0], tail[..n - |e|], more);
      }
    }
  }

  lemma ResumeInFirst(server: bool, p: Packet, n: nat, more: Text)
    requires WellFormed(p) && MayReceive(server, p) && n < |Encode(p)| && more != []
    ensures var q := Encode(p)[..n];
            var d := DecodeOnce(server, q);
            !d.closed && Feed(server, d, more) == DecodeOnce(server, q + more)
  {
    ResumeInside(server, p, n, more);
    var d := DecodeOnce(server, Encode(p)[..n] + more);
    assert [] + d.packets == d.packets;
  }

  /** A packet in front makes no difference. */
  lemma ResumeBehind(server: bool, p: Packet, r: Text, more: Text)
    requires WellFormed(p) && MayReceive(server, p) && more != [] && !DecodeOnce(server, r).closed
    requires Feed(server, DecodeOnce(server, r), more) == DecodeOnce(server, r + more)
    ensures var d := DecodeOnce(server, Encode(p) + r);
            !d.closed && Feed(server, d, more) == DecodeOnce(server, Encode(p) + r + more)
  {
    FirstPacket(server, p, r);
    FirstPacket(server, p, r + more);
    Assoc3(Encode(p), r, more);
    FeedAfter(server, p, DecodeOnce(server, r), more);
  }

  /** A whole stream in one piece. */
  lemma {:induction false} WholeStream(server: bool, ps: seq<Packet>)
    requires Sendable(server, ps)
    ensures DecodeOnce(server, EncodeAll(ps)) == Decoded(FixedHeader, [], ps, false)
    decreases |ps|
  {
    if ps != [] {
      FirstPacket(server, ps[0], EncodeAll(ps[1..]));
      WholeStream(server, ps[1..]);
      assert [ps[0]] + ps[1..] == ps;
    }
  }

  lemma {:induction false} FeedPieces(server: bool, ps: seq<Packet>, n: nat, pieces: seq<Text>)
    requires Sendable(server, ps) && n <= |EncodeAll(ps)| && EncodeAll(ps)[n..] == Concat(pieces)
    requires forall i :: 0 <= i < |pieces| ==> pieces[i] != []
    ensures FeedAll(server, DecodeOnce(server, EncodeAll(ps)[..n]), pieces) == DecodeOnce(server, EncodeAll(ps))
    decreases |pieces|
  {
    var all := EncodeAll(ps);
    if pieces == [] {
      assert all[..n] == all;
    } else {
      var m := n + |pieces[0]|;
      CutOff(all, n, pieces[0], Concat(pieces[1..]));
      FeedPiece(server, ps, n, pieces[0]);
      FeedPieces(server, ps, m, pieces[1..]);
    }
  }

  lemma FeedPiece(server: bool, ps: seq<Packet>, n: nat, piece: Text)
    requires Sendable(server, ps) && n + |piece| <= |EncodeAll(ps)| && piece != []
    requires EncodeAll(ps)[..n] + piece == EncodeAll(ps)[..n + |piece|]
    ensures Feed(server, DecodeOnce(server, EncodeAll(ps)[..n]), piece) == DecodeOnce(server, EncodeAll(ps)[..n + |piece|])
  {
    Resume(server, ps, n, piece);
  }

  lemma CutOff(all: Text, n: nat, piece: Text, rest: Text)
    requires n <= |all| && all[n..] == piece + rest
    ensures n + |piece| <= |all|
    ensures all[..n] + piece == all[..n + |piece|] && all[n + |piece|..] == rest
  {
    var m := n + |piece|;
    assert |all[n..]| == |piece| + |rest|;
    assert all[n..][..|piece|] == piece && all[n..][|piece|..] == rest;
    assert all[n..][..|piece|] == all[n..m] && all[n..][|piece|..] == all[m..];
  }

  /** Decoding does not depend on how the bytes arrive: the bytes of any list of well-formed packets that
      this side may receive, cut into any non-empty pieces, decode to exactly that list, the
      connection stays open and nothing is left in the buffer. */
  lemma FragmentationIndependent(server: bool, ps: seq<Packet>, pieces: seq<Text>)
    requires Sendable(server, ps) && Concat(pieces) == EncodeAll(ps)
    requires forall i :: 0 <= i < |pieces| ==> pieces[i] != []
    ensures FeedAll(server, FRESH, pieces) == Decoded(FixedHeader, [], ps, false)
  {
    var all := EncodeAll(ps);
    assert all[0..] == all && all[..0] == [];
    FeedPieces(server, ps, 0, pieces);
    WholeStream(server, ps);
  }

  /** Without well-formed flags it does depend on it: a PUBACK whose reserved flags are not zero is accepted when
      the bytes arrive together and closes the connection when the first byte arrives alone. */
  lemma BadFlagsDependOnFragmentation()
    ensures FeedAll(true, FRESH, [[65, 2, 0, 1]]) == Decoded(FixedHeader, [], [PubAck(1)], false)
    ensures FeedAll(true, FRESH, [[65], [2, 0, 1]]).closed
  {
    var rest: Text := [2, 0, 1];
    HeaderAlone(true, 65);
    HeaderThen(true, 65, rest);
    BadAckBody();
    assert ReadLength(0, 1, rest) == Length(2, [0, 1]) by { assert rest[1..] == [0, 1]; }
    assert [65] + rest == [65, 2, 0, 1];
    FeedOne(true, [65, 2, 0, 1]);
    var pieces: seq<Text> := [[65], rest];
    assert pieces[1..] == [rest] && pieces[1..][1..] == [];
    FeedOne(true, [65]);
  }

  lemma FeedOne(server: bool, piece: Text)
    requires piece != []
    ensures FeedAll(server, FRESH, [piece]) == Feed(server, FRESH, piece) == DecodeOnce(server, piece)
  {
    assert [piece][1..] == [];
    assert [] + piece == piece;
  }

  lemma BadAckBody()
    ensures DecodeBody(true, 65, 2, [0, 1]) == After(PubAck(1), FRESH)
  {
    assert U16(1) == [0, 1] && [0, 1] + [] == [0, 1];
    ParseId(true, 65, 1, [], [0, 1], 2);
  }

  /** Exactly these flags do it: behind a header byte that arrives alone decoding goes on as if it had not, if
      and only if its flags are not of the kind that is only refused there. */
  lemma HeaderCutExact(server: bool, tf: byte)
    requires 1 <= tf / 16 <= 14
    ensures (forall rest: Text :: rest != [] ==> Feed(server, DecodeOnce(server, [tf]), rest) == DecodeOnce(server, [tf] + rest))
            <==> ValidateFlags(tf) != BadProtocol
  {
    HeaderAlone(server, tf);
    if ValidateFlags(tf) == BadProtocol {
      var rest: Text := [128];
      HeaderThen(server, tf, rest);
      assert ReadLength(0, 1, rest).NeedMore?;
      assert !DecodeOnce(server, [tf] + rest).closed;
    } else {
      forall rest: Text | rest != [] ensures Feed(server, DecodeOnce(server, [tf]), rest) == DecodeOnce(server, [tf] + rest) {
        HeaderThen(server, tf, rest);
        assert [] + rest == rest;
      }
    }
  }

  lemma HeaderAlone(server: bool, tf: byte)
    requires 1 <= tf / 16 <= 14
    ensures DecodeOnce(server, [tf]) == if ValidateFlags(tf) == FlagsOk then Stop(RemainLength(tf, 0, 1), []) else CLOSED
  {
    assert [tf][1..] == [];
  }

  lemma HeaderThen(server: bool, tf: byte, rest: Text)
    requires 1 <= tf / 16 <= 14 && rest != []
    ensures DecodeOnce(server, [tf] + rest) == if ValidateFlags(tf) == BadFormat then CLOSED else DecodeLength(server, tf, 0, 1, rest)
  {
    assert ([tf] + rest)[1..] == rest;
  }
}
