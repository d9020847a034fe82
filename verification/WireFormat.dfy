/** The bytes of the packets, written out (section 2.2 and chapter 3 of MQTT Version 3.1.1): what the writers of module `Codec`
    produce and what its decoder makes of them, without naming the functions that pick the flags apart. */
module WireFormat {
  import opened Wrappers
  import opened ByteBuffer
  import opened Codec
  import MessageStore
  import Session

  // ---------- PUBLISH ----------

  /** Section 3.3.1: DUP, two bits of QoS, RETAIN. */
  lemma QosBits(dup: nat, qos: nat, retain: nat)
    requires dup <= 1 && qos <= 3 && retain <= 1
    ensures Qos(8 * dup + 2 * qos + retain) == qos
  {
  }

  /** Section 3.3.2: the topic with its length, a packet id if and only if the QoS is not 0, the payload. */
  function PublishBytes(topic: Text, qos: nat, id: nat, payload: Text): Text
    requires |topic| < 0x1_0000 && id < 0x1_0000
  {
    [|topic| / 256, |topic| % 256] + topic + (if qos > 0 then [id / 256, id % 256] else []) + payload
  }

  lemma PublishWritten(dup: nat, qos: nat, retain: nat, topic: Text, id: nat, payload: Text)
    requires dup <= 1 && qos <= 2 && retain <= 1 && |topic| < 0x1_0000 && id < 0x1_0000
    ensures var flags, body := 8 * dup + 2 * qos + retain, PublishBytes(topic, qos, id, payload);
            Encode(Publish(flags, topic, id, payload)) == [0x30 + flags] + LengthBytes(|body|) + body
  {
    var flags := 8 * dup + 2 * qos + retain;
    QosBits(dup, qos, retain);
    assert U16(|topic|) == [|topic| / 256, |topic| % 256] && U16(id) == [id / 256, id % 256];
    assert Body(Publish(flags, topic, id, payload)) == PublishBytes(topic, qos, id, payload);
  }

  /** What the decoder makes of these bytes: exactly one PUBLISH, whose id is 0 without a packet id field; and its answer. */
  lemma PublishRead(server: bool, dup: nat, qos: nat, retain: nat, topic: Text, id: nat, payload: Text)
    requires dup <= 1 && qos <= 2 && retain <= 1 && |topic| < 0x1_0000 && id < 0x1_0000
    requires |PublishBytes(topic, qos, id, payload)| < 268435456
    ensures var flags, body := 8 * dup + 2 * qos + retain, PublishBytes(topic, qos, id, payload);
            var p := Publish(flags, topic, if qos > 0 then id else 0, payload);
            && DecodeOnce(server, [0x30 + flags] + LengthBytes(|body|) + body) == Decoded(FixedHeader, [], [p], false)
            && Replies(p) == if qos == 1 then [PubAck(id)] else if qos == 2 then [PubRec(id)] else []
  {
    var flags := 8 * dup + 2 * qos + retain;
    var id' := if qos > 0 then id else 0;
    var p := Publish(flags, topic, id', payload);
    QosBits(dup, qos, retain);
    PublishWritten(dup, qos, retain, topic, id', payload);
    assert PublishBytes(topic, qos, id', payload) == PublishBytes(topic, qos, id, payload);
    OnePacket(server, p);
  }

  lemma OnePacket(server: bool, p: Packet)
    requires WellFormed(p) && MayReceive(server, p)
    ensures DecodeOnce(server, Encode(p)) == Decoded(FixedHeader, [], [p], false)
  {
    WholeStream(server, [p]);
    assert [p][1..] == [] && Encode(p) + [] == Encode(p);
  }

  // ---------- the other packets ----------

  /** The acknowledgements and the pings: type and flags in the first byte, then the length, then the packet id. */
  lemma ShortPackets(id: nat)
    requires id < 0x1_0000
    ensures Encode(PubAck(id)) == [0x40, 2, id / 256, id % 256]
    ensures Encode(PubRec(id)) == [0x50, 2, id / 256, id % 256]
    ensures Encode(PubRel(id)) == [0x62, 2, id / 256, id % 256]
    ensures Encode(PubComp(id)) == [0x70, 2, id / 256, id % 256]
    ensures Encode(UnsubAck(id)) == [0xB0, 2, id / 256, id % 256]
    ensures Encode(PingReq) == [0xC0, 0] && Encode(PingResp) == [0xD0, 0]
  {
    assert U16(id) == [id / 256, id % 256];
  }

  /** And what each side makes of them.  Only a client may be sent UNSUBACK and PINGRESP, only the broker PINGREQ. */
  lemma ShortPacketsRead(server: bool, id: nat)
    requires id < 0x1_0000
    ensures DecodeOnce(server, [0x40, 2, id / 256, id % 256]).packets == [PubAck(id)]
    ensures DecodeOnce(server, [0x50, 2, id / 256, id % 256]).packets == [PubRec(id)]
    ensures DecodeOnce(server, [0x62, 2, id / 256, id % 256]).packets == [PubRel(id)]
    ensures DecodeOnce(server, [0x70, 2, id / 256, id % 256]).packets == [PubComp(id)]
    ensures DecodeOnce(false, [0xB0, 2, id / 256, id % 256]).packets == [UnsubAck(id)]
    ensures DecodeOnce(true, [0xC0, 0]).packets == [PingReq] && DecodeOnce(false, [0xD0, 0]).packets == [PingResp]
  {
    ShortPackets(id);
    OnePacket(server, PubAck(id));
    OnePacket(server, PubRec(id));
    OnePacket(server, PubRel(id));
    OnePacket(server, PubComp(id));
    OnePacket(false, UnsubAck(id));
    OnePacket(true, PingReq);
    OnePacket(false, PingResp);
  }

  /** SUBSCRIBE, SUBACK and UNSUBSCRIBE: the packet id, and then entry after entry. */
  lemma ListPackets(id: nat, topics: seq<TopicQos>, codes: Text, filters: seq<Text>)
    requires id < 0x1_0000
    ensures var body := [id / 256, id % 256] + TopicBytes(topics);
            Encode(Subscribe(id, topics)) == [0x82] + LengthBytes(|body|) + body
    ensures var body := [id / 256, id % 256] + codes;
            Encode(SubAck(id, codes)) == [0x90] + LengthBytes(|body|) + body
    ensures var body := [id / 256, id % 256] + FilterBytes(filters);
            Encode(Unsubscribe(id, filters)) == [0xA2] + LengthBytes(|body|) + body
    ensures TopicBytes([]) == [] && FilterBytes([]) == []
  {
    assert U16(id) == [id / 256, id % 256];
  }

  lemma ListEntries(filter: Text, qos: byte, topics: seq<TopicQos>, filters: seq<Text>)
    requires |filter| < 0x1_0000
    ensures TopicBytes([TopicQos(filter, qos)] + topics) == [|filter| / 256, |filter| % 256] + filter + [qos] + TopicBytes(topics)
    ensures FilterBytes([filter] + filters) == [|filter| / 256, |filter| % 256] + filter + FilterBytes(filters)
  {
    assert ([TopicQos(filter, qos)] + topics)[1..] == topics && ([filter] + filters)[1..] == filters;
    assert U16(|filter|) == [|filter| / 256, |filter| % 256];
  }

  // ---------- the length field ----------

  /** The table of section 2.2.3: how many bytes, and which, for lengths of one and two; 321 is its example. */
  lemma LengthTable(n: nat)
    ensures |LengthBytes(n)| == 1 <==> n <= 127
    ensures |LengthBytes(n)| == 2 <==> 128 <= n <= 16383
    ensures |LengthBytes(n)| == 3 <==> 16384 <= n <= 2097151
    ensures |LengthBytes(n)| == 4 <==> 2097152 <= n <= 268435455
    ensures n <= 127 ==> LengthBytes(n) == [n]
    ensures 128 <= n <= 16383 ==> LengthBytes(n) == [n % 128 + 128, n / 128]
    ensures LengthBytes(321) == [193, 2]
  {
    if n >= 128 {
      var a := n / 128;
      assert LengthBytes(n) == [n % 128 + 128] + LengthBytes(a);
      if a >= 128 {
        var b := a / 128;
        assert LengthBytes(a) == [a % 128 + 128] + LengthBytes(b);
        if b >= 128 {
          var c := b / 128;
          assert LengthBytes(b) == [b % 128 + 128] + LengthBytes(c);
        }
      }
    }
    assert LengthBytes(321) == [321 % 128 + 128] + LengthBytes(2);
  }

  // ---------- what is refused ----------

  /** A type of 0 or 15, or a PUBREL, SUBSCRIBE or UNSUBSCRIBE whose flags are not 0010, closes the connection, whatever
      follows. */
  lemma RefusedHeaders(server: bool, tf: byte, rest: Text)
    requires tf < 0x10 || tf >= 0xF0 || ((tf / 16 == 6 || tf / 16 == 8 || tf / 16 == 10) && tf % 16 != 2)
    ensures DecodeOnce(server, [tf] + rest) == CLOSED
  {
    assert ([tf] + rest)[0] == tf;
  }

  /** A fifth byte of the length closes the connection: four with the continuation bit are followed by nothing. */
  lemma RefusedLength(server: bool, tf: byte, digits: Text, rest: Text)
    requires |digits| == 4 && (forall i :: 0 <= i < 4 ==> digits[i] >= 128) && rest != []
    ensures DecodeOnce(server, [tf] + (digits + rest)) == CLOSED
  {
    var buf := digits + rest;
    var r := Continued(0, 1, buf);
    r := Continued(r, 128, buf[1..]);
    r := Continued(r, 128 * 128, buf[1..][1..]);
    r := Continued(r, 128 * 128 * 128, buf[1..][1..][1..]);
    assert buf[1..][1..][1..][1..] == rest;
    assert ReadLength(r, 128 * 128 * 128 * 128, rest) == BadLength;
    var all := [tf] + buf;
    assert all[0] == tf && all[1..] == buf;
    assert DecodeHeader(server, all) == CLOSED;
  }

  lemma Continued(remain: nat, multiplier: nat, buf: Text) returns (r: nat)
    requires |buf| > 1 && buf[0] >= 128 && multiplier <= 128 * 128 * 128
    ensures ReadLength(remain, multiplier, buf) == ReadLength(r, multiplier * 128, buf[1..])
  {
    r := remain + buf[0] % 128 * multiplier;
  }

  /** A requested QoS above 2 is refused. */
  lemma RefusedQos(filter: Text, qos: byte, tail: Text)
    requires |filter| < 0x1_0000 && qos > 2
    ensures ReadEntry([|filter| / 256, |filter| % 256] + filter + ([qos] + tail)) == None
  {
    assert U16(|filter|) == [|filter| / 256, |filter| % 256];
    ReadTextInverse(filter, [qos] + tail);
  }

  /** The broker refuses SUBACK, UNSUBACK and PINGRESP, a client SUBSCRIBE, UNSUBSCRIBE and PINGREQ. */
  lemma WrongSide(server: bool, tf: byte, buf: Text, len: nat)
    requires len <= |buf|
    requires if server then tf / 16 == 9 || tf / 16 == 11 || tf / 16 == 13 else tf / 16 == 8 || tf / 16 == 10 || tf / 16 == 12
    ensures ParseBody(server, tf, buf, len) == None && DecodeBody(server, tf, len, buf) == CLOSED
  {
  }

  // ---------- the codec's answers are the session's ----------

  function OnWire(p: MessageStore.Packet): Packet {
    match p
    case Publish(id, qos, _) => Publish(2 * qos, [], id, [])
    case PubAck(id) => PubAck(id)
    case PubRec(id) => PubRec(id)
    case PubRel(id) => PubRel(id)
    case PubComp(id) => PubComp(id)
  }

  /** The parsers answer a PUBLISH and a PUBREL as the protocol of the sessions demands, a PINGREQ with a PINGRESP, and
      nothing else. */
  lemma RepliesAgree(ids: set<MessageStore.PacketId>, dup: nat, qos: nat, retain: nat, topic: Text, payload: Text,
                     id: MessageStore.PacketId, m: MessageStore.Message)
    requires dup <= 1 && qos <= 2 && retain <= 1
    ensures var r := Session.OnData(ids, MessageStore.Publish(id, qos, m)).replies;
            var c := Replies(Publish(8 * dup + 2 * qos + retain, topic, id, payload));
            |c| == |r| && forall i :: 0 <= i < |r| ==> c[i] == OnWire(r[i])
    ensures var r := Session.OnData(ids, MessageStore.PubRel(id)).replies;
            |r| == 1 && Replies(PubRel(id)) == [OnWire(r[0])]
    ensures Replies(PingReq) == [PingResp]
    ensures forall p: Packet :: !p.Publish? && !p.PubRel? && !p.PingReq? ==> Replies(p) == []
  {
    QosBits(dup, qos, retain);
  }
}
