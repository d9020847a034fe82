/** The codec at work (codec/mqtt_proto_codec.c): the decoder of a connection, reading from its chunked
    buffer, and the packet writers.  Each method is proved against its function in module `Codec`. */
module Decoder {
  import opened Wrappers
  import opened ByteBuffer
  import opened Codec

  /** Results of the list parsers with earlier elements put in front. */
  function Behind<T>(acc: seq<T>, r: Option<(seq<T>, Text)>): Option<(seq<T>, Text)> {
    if r.None? then None else Some((acc + r.value.0, r.value.1))
  }

  lemma BehindMore<T>(acc: seq<T>, x: T, r: Option<(seq<T>, Text)>)
    ensures Behind(acc, Behind([x], r)) == Behind(acc + [x], r)
  {
    if r.Some? {
      assert acc + ([x] + r.value.0) == acc + [x] + r.value.0;
    }
  }

  lemma BehindEmpty<T>(acc: seq<T>, r: Option<(seq<T>, Text)>)
    ensures Behind([], r) == r && acc + [] == acc
  {
    if r.Some? {
      assert [] + r.value.0 == r.value.0;
    }
  }

  /** Packets delivered earlier, then what a call delivers. */
  function Prefixed(ps: seq<Packet>, d: Decoded): Decoded {
    d.(packets := ps + d.packets)
  }

  lemma PrefixedAfter(ps: seq<Packet>, p: Packet, d: Decoded)
    ensures Prefixed(ps, After(p, d)) == Prefixed(ps + [p], d)
  {
    assert ps + ([p] + d.packets) == ps + [p] + d.packets;
  }

  function AllReplies(ps: seq<Packet>): seq<Packet> {
    if ps == [] then [] else AllReplies(ps[..|ps| - 1]) + Replies(ps[|ps| - 1])
  }

  lemma AllRepliesSnoc(ps: seq<Packet>, p: Packet)
    ensures AllReplies(ps + [p]) == AllReplies(ps) + Replies(p)
  {
    assert (ps + [p])[..|ps|] == ps;
  }

  /** Header bytes that are not refused at once. */
  predicate HeaderStays(tf: byte) {
    1 <= tf / 16 <= 14 && ValidateFlags(tf) != BadFormat
  }

  lemma HeaderDecodes(server: bool, tf: byte, was: Text, rest: Text)
    requires was == [tf] + rest
    ensures Decode(server, FixedHeader, was) ==
            if !HeaderStays(tf) then CLOSED
            else if rest != [] then Decode(server, RemainLength(tf, 0, 1), rest)
            else if ValidateFlags(tf) == FlagsOk then Stop(RemainLength(tf, 0, 1), [])
            else CLOSED
  {
    assert was[1..] == rest;
  }

  lemma PrefixedNothing(ps: seq<Packet>)
    ensures ps + [] == ps
  {
  }

  class Decoder {
    const server: bool
    const buffer: Buffer
    var ctx: Context
    var closed: bool
    var packets: seq<Packet>   // delivered to the session, in order
    var replies: seq<Packet>   // written back by the parsers, in order

    ghost predicate Valid()
      reads this, buffer
    {
      buffer.Valid() && replies == AllReplies(packets)
    }

    ghost function View(): Decoded
      requires Valid()
      reads this, buffer
    {
      if closed then CLOSED.(packets := packets) else Decoded(ctx, buffer.Contents(), packets, false)
    }

    constructor (server: bool)
      ensures Valid() && fresh(buffer) && View() == FRESH && replies == [] && this.server == server
    {
      this.server := server;
      buffer := new Buffer();
      ctx, closed, packets, replies := FixedHeader, false, [], [];
    }

    method TakeWord() returns (r: Option<nat>)
      requires Valid()
      modifies buffer
      ensures Valid()
      ensures match ReadU16(old(buffer.Contents()))
              case None => r.None?
              case Some((n, rest)) => r == Some(n) && buffer.Contents() == rest
    {
      var b := buffer.Read(2);
      r := if |b| < 2 then None else Some(Word(b[0], b[1]));
    }

    method TakeText() returns (r: Option<Text>)
      requires Valid()
      modifies buffer
      ensures Valid()
      ensures match ReadText(old(buffer.Contents()))
              case None => r.None?
              case Some((t, rest)) => r == Some(t) && buffer.Contents() == rest
    {
      ghost var all := buffer.Contents();
      var n := TakeWord();
      if n.None? || buffer.readableBytes < n.value {
        return None;
      }
      var t := buffer.Read(n.value);
      assert all[2..][..n.value] == all[2..2 + n.value] && all[2..][n.value..] == all[2 + n.value..];
      r := Some(t);
    }

    method TakeEntry() returns (r: Option<TopicQos>)
      requires Valid()
      modifies buffer
      ensures Valid()
      ensures match ReadEntry(old(buffer.Contents()))
              case None => r.None?
              case Some((t, rest)) => r == Some(t) && buffer.Contents() == rest
    {
      var t := TakeText();
      if t.None? {
        return None;
      }
      var q := buffer.Read(1);
      r := if q == [] || q[0] > 2 then None else Some(TopicQos(t.value, q[0]));
    }

    method TakeTopics(length: int) returns (r: Option<seq<TopicQos>>)
      requires Valid()
      modifies buffer
      ensures Valid()
      ensures match ReadTopics(old(buffer.Contents()), length)
              case None => r.None?
              case Some((ts, rest)) => r == Some(ts) && buffer.Contents() == rest
    {
      ghost var goal := ReadTopics(buffer.Contents(), length);
      var ts, len := [], length;
      BehindEmpty(ts, goal);
      while len != 0
        invariant Valid() && goal == Behind(ts, ReadTopics(buffer.Contents(), len))
        decreases |buffer.Contents()|
      {
        var t := TakeEntry();
        if t.None? || len < |t.value.filter| + 3 {
          return None;
        }
        var entry := t.value;
        len := len - |entry.filter| - 3;
        BehindMore(ts, entry, ReadTopics(buffer.Contents(), len));
        ts := ts + [entry];
      }
      BehindEmpty(ts, goal);
      r := Some(ts);
    }

    method TakeFilters(length: int) returns (r: Option<seq<Text>>)
      requires Valid()
      modifies buffer
      ensures Valid()
      ensures match ReadFilters(old(buffer.Contents()), length)
              case None => r.None?
              case Some((fs, rest)) => r == Some(fs) && buffer.Contents() == rest
    {
      ghost var goal := ReadFilters(buffer.Contents(), length);
      var fs, len := [], length;
      BehindEmpty(fs, goal);
      while len != 0
        invariant Valid() && goal == Behind(fs, ReadFilters(buffer.Contents(), len))
        decreases |buffer.Contents()|
      {
        var t := TakeText();
        if t.None? || len < |t.value| + 2 {
          return None;
        }
        len := len - |t.value| - 2;
        BehindMore(fs, t.value, ReadFilters(buffer.Contents(), len));
        fs := fs + [t.value];
      }
      BehindEmpty(fs, goal);
      r := Some(fs);
    }

    method TakePublish(flags: nat, len: nat) returns (r: Option<Packet>)
      requires Valid()
      modifies buffer
      ensures Valid()
      ensures match ReadPublish(flags, old(buffer.Contents()), len)
              case None => r.None?
              case Some((p, rest)) => r == Some(p) && buffer.Contents() == rest
    {
      var t := TakeText();
      if t.None? {
        return None;
      }
      var n, id := len - 2 - |t.value|, 0;
      if Qos(flags) != 0 {
        var i := TakeWord();
        if i.None? {
          return None;
        }
        id := i.value;
        n := n - 2;
      }
      if n < 0 || buffer.readableBytes < n {
        return None;
      }
      var payload := buffer.Read(n);
      r := Some(Publish(flags, t.value, id, payload));
    }

    /** packet_parsers[...]. */
    method TakePacket(tf: byte, len: nat) returns (r: Option<Packet>)
      requires Valid() && len <= |buffer.Contents()|
      modifies buffer
      ensures Valid()
      ensures match ParseBody(server, tf, old(buffer.Contents()), len)
              case None => r.None?
              case Some((p, rest)) => r == Some(p) && buffer.Contents() == rest
    {
      var kind := tf / 16;
      if kind == 3 {
        r := TakePublish(tf % 16, len);
        return;
      }
      if kind == 12 {
        return if server then Some(PingReq) else None;
      }
      if kind == 13 {
        return if server then None else Some(PingResp);
      }
      if kind < 4 || kind > 11 || ((kind == 8 || kind == 10) && !server) || ((kind == 9 || kind == 11) && server) {
        return None;
      }
      var i := TakeWord();
      if i.None? {
        return None;
      }
      r := TakeRest(kind, i.value, len);
    }

    /** What follows the packet id. */
    method TakeRest(kind: int, id: nat, len: nat) returns (r: Option<Packet>)
      requires Valid() && 4 <= kind <= 11
      modifies buffer
      ensures Valid()
      ensures match RestOf(kind, id, old(buffer.Contents()), len)
              case None => r.None?
              case Some((p, rest)) => r == Some(p) && buffer.Contents() == rest
    {
      if kind == 8 {
        r := TakeSubscribe(id, len);
      } else if kind == 9 {
        if len < 2 || buffer.readableBytes < len - 2 {
          return None;
        }
        var codes := buffer.Read(len - 2);
        r := Some(SubAck(id, codes));
      } else if kind == 10 {
        r := TakeUnsubscribe(id, len);
      } else {
        r := Some(AckPacket(kind, id));
      }
    }

    method TakeSubscribe(id: nat, len: nat) returns (r: Option<Packet>)
      requires Valid()
      modifies buffer
      ensures Valid()
      ensures match ReadTopics(old(buffer.Contents()), len - 2)
              case None => r.None?
              case Some((ts, rest)) => r == Some(Subscribe(id, ts)) && buffer.Contents() == rest
    {
      var ts := TakeTopics(len - 2);
      r := if ts.None? then None else Some(Subscribe(id, ts.value));
    }

    method TakeUnsubscribe(id: nat, len: nat) returns (r: Option<Packet>)
      requires Valid()
      modifies buffer
      ensures Valid()
      ensures match ReadFilters(old(buffer.Contents()), len - 2)
              case None => r.None?
              case Some((fs, rest)) => r == Some(Unsubscribe(id, fs)) && buffer.Contents() == rest
    {
      var fs := TakeFilters(len - 2);
      r := if fs.None? then None else Some(Unsubscribe(id, fs.value));
    }

    /** parse_remain_length: one byte at a time until the field ends or the buffer is empty. */
    method TakeLength(remain0: nat, multiplier0: nat) returns (r: LengthResult)
      requires Valid() && buffer.Contents() != []
      modifies buffer
      ensures Valid()
      ensures match ReadLength(remain0, multiplier0, old(buffer.Contents()))
              case Length(n, rest) => r == Length(n, []) && buffer.Contents() == rest
              case NeedMore(n, m) => r == NeedMore(n, m) && buffer.Contents() == []
              case BadLength => r == BadLength
    {
      ghost var goal := ReadLength(remain0, multiplier0, buffer.Contents());
      var remain: nat, multiplier: nat := remain0, multiplier0;
      while true
        invariant Valid() && buffer.Contents() != []
        invariant ReadLength(remain, multiplier, buffer.Contents()) == goal
        decreases |buffer.Contents()|
      {
        var b := buffer.Read(1);
        remain := remain + b[0] % 128 * multiplier;
        if multiplier > 128 * 128 * 128 {
          return BadLength;
        }
        multiplier := multiplier * 128;
        if b[0] < 128 {
          return Length(remain, []);
        }
        if buffer.readableBytes == 0 {
          return NeedMore(remain, multiplier);
        }
      }
    }

    /** What this call is still to do from here. */
    ghost function Pending(): Decoded
      requires Valid() && buffer.Contents() != []
      reads this, buffer
    {
      Prefixed(packets, Decode(server, ctx, buffer.Contents()))
    }

    /** The first case of the switch; `go` means falling through to the next one. */
    method HeaderPhase() returns (go: bool)
      requires Valid() && !closed && ctx.FixedHeader? && buffer.Contents() != []
      modifies this, buffer
      ensures Valid()
      ensures go ==> !closed && ctx.RemainLength? && 0 < |buffer.Contents()| < |old(buffer.Contents())| && Pending() == old(Pending())
      ensures !go ==> View() == old(Pending())
    {
      ghost var ps, was := packets, buffer.Contents();
      var tf := TakeHeader();
      ghost var rest := buffer.Contents();
      HeaderDecodes(server, tf, was, rest);
      PrefixedNothing(ps);
      if closed {
        return false;
      }
      if buffer.readableBytes == 0 {
        closed := ValidateFlags(tf) != FlagsOk;
        return false;
      }
      go := true;
    }

    /** parse_fix_header and validate_flags: a type or flags that are refused at once close the connection. */
    method TakeHeader() returns (tf: byte)
      requires Valid() && !closed && buffer.Contents() != []
      modifies this, buffer
      ensures Valid() && old(buffer.Contents()) == [tf] + buffer.Contents() && packets == old(packets)
      ensures ctx == RemainLength(tf, 0, 1) && closed == !HeaderStays(tf)
    {
      ghost var was := buffer.Contents();
      var b := buffer.Read(1);
      tf := b[0];
      assert was == [tf] + was[1..];
      ctx := RemainLength(tf, 0, 1);
      closed := tf / 16 < 1 || tf / 16 > 14 || ValidateFlags(tf) == BadFormat;
    }

    method LengthPhase() returns (go: bool)
      requires Valid() && !closed && ctx.RemainLength? && buffer.Contents() != []
      modifies this, buffer
      ensures Valid()
      ensures go ==> !closed && ctx.InBody? && |buffer.Contents()| < |old(buffer.Contents())|
      ensures go ==> Prefixed(packets, DecodeBody(server, ctx.tf, ctx.remain, buffer.Contents())) == old(Pending())
      ensures !go ==> View() == old(Pending())
    {
      var r := TakeLength(ctx.remain, ctx.multiplier);
      match r
      case Length(n, _) =>
        ctx := InBody(ctx.tf, n);
        go := true;
      case NeedMore(n, m) =>
        ctx := RemainLength(ctx.tf, n, m);
        go := false;
      case BadLength =>
        closed := true;
        go := false;
    }

    /** The last case; `go` means another turn of the loop. */
    method BodyPhase() returns (go: bool)
      requires Valid() && !closed && ctx.InBody?
      modifies this, buffer
      ensures Valid()
      ensures go ==> !closed && ctx.FixedHeader? && 0 < |buffer.Contents()| <= |old(buffer.Contents())|
      ensures go ==> Pending() == old(Prefixed(packets, DecodeBody(server, ctx.tf, ctx.remain, buffer.Contents())))
      ensures !go ==> View() == old(Prefixed(packets, DecodeBody(server, ctx.tf, ctx.remain, buffer.Contents())))
    {
      if buffer.readableBytes < ctx.remain {
        assert packets + [] == packets;
        return false;
      }
      ghost var all := buffer.Contents();
      var p := TakePacket(ctx.tf, ctx.remain);
      if p.None? {
        closed := true;
        assert packets + [] == packets;
        return false;
      }
      ghost var rest := buffer.Contents();
      PrefixedAfter(packets, p.value, if rest == [] then FRESH else DecodeHeader(server, rest));
      AllRepliesSnoc(packets, p.value);
      replies := replies + Replies(p.value);
      packets := packets + [p.value];
      ctx := FixedHeader;
      assert packets + [] == packets;
      go := buffer.readableBytes > 0;
    }

    /** decode_tcp_message_: runs until the buffer is used up, a packet is incomplete or the connection
        is closed. */
    method DecodeTcpMessage()
      requires Valid() && !closed && buffer.Contents() != []
      modifies this, buffer
      ensures Valid() && View() == old(Pending())
    {
      while true
        invariant Valid() && !closed && buffer.Contents() != [] && Pending() == old(Pending())
        decreases |buffer.Contents()|, !ctx.FixedHeader?
      {
        var go := true;
        if ctx.FixedHeader? {
          go := HeaderPhase();
          if !go {
            return;
          }
        }
        if ctx.RemainLength? {
          go := LengthPhase();
          if !go {
            return;
          }
        }
        go := BodyPhase();
        if !go {
          return;
        }
      }
    }

    /** Bytes arrive from the network. */
    method OnData(piece: Text)
      requires Valid() && piece != []
      modifies this, buffer
      ensures Valid() && View() == Feed(server, old(View()), piece)
    {
      if closed {
        return;
      }
      buffer.Append(piece);
      DecodeTcpMessage();
    }
  }

  // ---------- the packet writers ----------

  /** Four length bytes are enough below the limit and only there. */
  lemma LengthFits(n: nat)
    ensures |LengthBytes(n)| <= 4 <==> n < LENGTH_LIMIT
  {
    if n >= 128 {
      var a := n / 128;
      assert |LengthBytes(n)| == 1 + |LengthBytes(a)|;
      if a >= 128 {
        var b := a / 128;
        assert |LengthBytes(a)| == 1 + |LengthBytes(b)|;
        if b >= 128 {
          var c := b / 128;
          assert |LengthBytes(b)| == 1 + |LengthBytes(c)|;
          assert c < 128 <==> |LengthBytes(c)| == 1;
        }
      }
    }
  }

  /** make_fixed_header; `ok` is false if the length does not fit into four bytes. */
  method MakeFixedHeader(kind: nat, flags: nat, length: nat) returns (buf: Text, ok: bool)
    requires kind < 16
    ensures buf == [kind * 16 + flags % 16] + LengthBytes(length)
    ensures ok <==> length < LENGTH_LIMIT
  {
    LengthFits(length);
    buf := [kind * 16 + flags % 16];
    ghost var head := buf;
    var remain, count, more := length, 0, true;
    while more
      invariant more ==> buf + LengthBytes(remain) == head + LengthBytes(length) && |buf| == 1 + count
      invariant !more ==> buf == head + LengthBytes(length) && |buf| == 1 + count
      decreases remain, more
    {
      var b := remain % 128;
      ghost var n := remain;
      remain := remain / 128;
      if remain > 0 {
        b := b + 128;
      }
      assert LengthBytes(n) == [b] + if remain > 0 then LengthBytes(remain) else [];
      assert buf + ([b] + LengthBytes(remain)) == buf + [b] + LengthBytes(remain);
      buf := buf + [b];
      count := count + 1;
      more := remain > 0;
    }
    ok := count <= 4;
  }

  lemma {:induction false} TopicBytesSnoc(ts: seq<TopicQos>, t: TopicQos)
    ensures TopicBytes(ts + [t]) == TopicBytes(ts) + EntryBytes(t)
  {
    if ts == [] {
      assert [] + [t] == [t] && [t][1..] == [];
    } else {
      assert (ts + [t])[1..] == ts[1..] + [t];
      TopicBytesSnoc(ts[1..], t);
      Assoc3(EntryBytes(ts[0]), TopicBytes(ts[1..]), EntryBytes(t));
    }
  }

  lemma {:induction false} FilterBytesSnoc(fs: seq<Text>, f: Text)
    ensures FilterBytes(fs + [f]) == FilterBytes(fs) + TextBytes(f)
  {
    if fs == [] {
      assert [] + [f] == [f] && [f][1..] == [];
    } else {
      assert (fs + [f])[1..] == fs[1..] + [f];
      FilterBytesSnoc(fs[1..], f);
      Assoc3(TextBytes(fs[0]), FilterBytes(fs[1..]), TextBytes(f));
    }
  }

  // The list writers make one pass for the length and one for the bytes.

  method TopicLength(topics: seq<TopicQos>) returns (length: nat)
    ensures length == |TopicBytes(topics)|
  {
    length := 0;
    for i := 0 to |topics|
      invariant length == |TopicBytes(topics[..i])|
    {
      assert topics[..i + 1] == topics[..i] + [topics[i]];
      TopicBytesSnoc(topics[..i], topics[i]);
      length := length + |topics[i].filter| + 3;
    }
    assert topics[..|topics|] == topics;
  }

  method WriteTopics(buf: Text, topics: seq<TopicQos>) returns (out: Text)
    ensures out == buf + TopicBytes(topics)
  {
    out := buf;
    for i := 0 to |topics|
      invariant out == buf + TopicBytes(topics[..i])
    {
      var x := topics[i];
      assert topics[..i + 1] == topics[..i] + [x];
      TopicBytesSnoc(topics[..i], x);
      Assoc3(buf, TopicBytes(topics[..i]), EntryBytes(x));
      out := out + (U16(|x.filter|) + x.filter + [x.qos]);
    }
    assert topics[..|topics|] == topics;
  }

  /** send_subscribe_packet. */
  method PackSubscribe(id: nat, topics: seq<TopicQos>) returns (out: Text)
    ensures var p := Subscribe(id, topics); out == if |Body(p)| < LENGTH_LIMIT then Encode(p) else []
  {
    var length := TopicLength(topics);
    var buf, ok := MakeFixedHeader(8, 2, 2 + length);
    if !ok {
      return [];
    }
    out := WriteTopics(buf + U16(id), topics);
    Assoc3(buf, U16(id), TopicBytes(topics));
  }

  method FilterLength(filters: seq<Text>) returns (length: nat)
    ensures length == |FilterBytes(filters)|
  {
    length := 0;
    for i := 0 to |filters|
      invariant length == |FilterBytes(filters[..i])|
    {
      assert filters[..i + 1] == filters[..i] + [filters[i]];
      FilterBytesSnoc(filters[..i], filters[i]);
      length := length + |filters[i]| + 2;
    }
    assert filters[..|filters|] == filters;
  }

  method WriteFilters(buf: Text, filters: seq<Text>) returns (out: Text)
    ensures out == buf + FilterBytes(filters)
  {
    out := buf;
    for i := 0 to |filters|
      invariant out == buf + FilterBytes(filters[..i])
    {
      var x := filters[i];
      assert filters[..i + 1] == filters[..i] + [x];
      FilterBytesSnoc(filters[..i], x);
      Assoc3(buf, FilterBytes(filters[..i]), TextBytes(x));
      out := out + (U16(|x|) + x);
    }
    assert filters[..|filters|] == filters;
  }

  /** send_unsubscribe_packet. */
  method PackUnsubscribe(id: nat, filters: seq<Text>) returns (out: Text)
    ensures var p := Unsubscribe(id, filters); out == if |Body(p)| < LENGTH_LIMIT then Encode(p) else []
  {
    var length := FilterLength(filters);
    var buf, ok := MakeFixedHeader(10, 2, 2 + length);
    if !ok {
      return [];
    }
    out := WriteFilters(buf + U16(id), filters);
    Assoc3(buf, U16(id), FilterBytes(filters));
  }

  /** pack_publish_packet. */
  method PackPublish(p: Packet) returns (out: Text)
    requires p.Publish?
    ensures out == if |Body(p)| < LENGTH_LIMIT then Encode(p) else []
  {
    var length := 4 + |p.topic| + |p.payload|;
    if Qos(p.flags) == 0 {
      length := length - 2;
    }
    var buf, ok := MakeFixedHeader(3, p.flags, length);
    if !ok {
      return [];
    }
    out := buf + U16(|p.topic|) + p.topic;
    if Qos(p.flags) > 0 {
      out := out + U16(p.id);
    }
    out := out + p.payload;
    assert out == buf + Body(p);
  }

  /** send_sub_ack_packet. */
  method PackSubAck(id: nat, codes: Text) returns (out: Text)
    ensures var p := SubAck(id, codes); out == if |Body(p)| < LENGTH_LIMIT then Encode(p) else []
  {
    var buf, ok := MakeFixedHeader(9, 0, 2 + |codes|);
    if !ok {
      return [];
    }
    out := buf + U16(id);
    for i := 0 to |codes|
      invariant out == buf + (U16(id) + codes[..i])
    {
      assert codes[..i + 1] == codes[..i] + [codes[i]];
      assert buf + (U16(id) + codes[..i]) + [codes[i]] == buf + (U16(id) + codes[..i + 1]);
      out := out + [codes[i]];
    }
    assert codes[..|codes|] == codes;
  }

  /** The writers whose packet is a packet id, or nothing at all. */
  method PackShort(p: Packet) returns (out: Text)
    requires !p.Publish? && !p.Subscribe? && !p.Unsubscribe? && !p.SubAck?
    ensures out == Encode(p)
  {
    var body := if p.PingReq? || p.PingResp? then [] else U16(p.id);
    var buf, ok := MakeFixedHeader(TypeOf(p), FlagsOf(p), |body|);
    out := buf + body;
  }
}
