/** The packets byte by byte, after MQTT Version 3.1.1. */
module MqttWire {
  import opened Prelude
  import opened Bytes
  import opened MqttCodec
  import opened MqttLaws

  // ----- length codes (section 2.2.3) ---------------------------------------------------------------

  /** The seven low bits of each byte, the first byte counting ones. */
  function LowBits(code: seq<Byte>): nat {
    if code == [] then 0 else code[0] % 128 + 128 * LowBits(code[1..])
  }

  /** `code` is the shortest code of a length: every byte but the last has its high bit set, the last has not, and it is
      zero only when it is alone. */
  predicate Spells(code: seq<Byte>, n: nat) {
    && code != [] && LowBits(code) == n
    && (forall i :: 0 <= i < |code| - 1 ==> code[i] >= 128) && code[|code| - 1] < 128
    && (|code| > 1 ==> code[|code| - 1] != 0)
  }

  /** The encoder spells every number. */
  lemma {:induction false} EncodeSpells(n: nat)
    ensures Spells(Encode(n), n)
  {
    if n < 128 {
      assert [n % 128][1..] == [];
      assert LowBits([n]) == n % 128 + 128 * LowBits([n][1..]);
    } else {
      EncodeSpells(n / 128);
      var rest := Encode(n / 128);
      var code := Encode(n);
      assert code[0] == n % 128 + 128 && code[1..] == rest;
      assert code[|code| - 1] == rest[|rest| - 1];
      forall i | 0 <= i < |code| - 1 ensures code[i] >= 128 {
        assert i > 0 ==> code[i] == rest[i - 1];
      }
      NotZero(n / 128);
    }
  }

  lemma {:induction false} NotZero(n: nat)
    requires n > 0
    ensures Encode(n)[|Encode(n)| - 1] != 0
  {
    if n >= 128 {
      NotZero(n / 128);
      assert Encode(n)[1..] == Encode(n / 128);
    }
  }

  // ----- packets ------------------------------------------------------------------------------------

  /** A packet on the wire: its first byte, the code of its length, its body. */
  ghost predicate OnTheWire(bytes: seq<Byte>, first: Byte, body: seq<Byte>) {
    exists code :: Spells(code, |body|) && bytes == [first] + code + body
  }

  /** Two bytes, the high one first. */
  predicate BigEndian(two: seq<Byte>, n: nat) {
    |two| == 2 && n == 256 * (two[0] as int) + two[1] as int
  }

  lemma {:induction false} TwoBytesAreBigEndian(n: nat)
    requires n < 65536
    ensures BigEndian(TwoBytes(n), n)
  {
  }

  lemma {:induction false} BuiltIsOnTheWire(first: Byte, body: seq<Byte>)
    ensures OnTheWire(BuildPacket(Packet(first, body)), first, body)
  {
    hide Encode, Spells;
    EncodeSpells(|body|);
  }

  /** The body of a PUBLISH: the topic behind its length, the packet id when there is one, the payload. */
  ghost predicate PublishBody(body: seq<Byte>, topic: seq<Byte>, id: Option<nat>, payload: seq<Byte>) {
    exists length, two :: Layout(body, length, topic, two, payload, id)
  }

  predicate Layout(body: seq<Byte>, length: seq<Byte>, topic: seq<Byte>, two: seq<Byte>, payload: seq<Byte>, id: Option<nat>) {
    && BigEndian(length, |topic|) && (if id.Some? then BigEndian(two, id.value) else two == [])
    && body == length + topic + two + payload
  }

  ghost predicate IsPublish(bytes: seq<Byte>, first: Byte, topic: seq<Byte>, id: Option<nat>, payload: seq<Byte>) {
    exists body :: OnTheWire(bytes, first, body) && PublishBody(body, topic, id, payload)
  }

  lemma {:induction false} PublishIsBuilt(first: Byte, topic: seq<Byte>, id: Option<nat>, payload: seq<Byte>)
    requires |topic| <= 65535 && (id.Some? ==> id.value < 65536)
    ensures var body := TwoBytes(|topic|) + topic + (if id.Some? then TwoBytes(id.value) else []) + payload;
            IsPublish(BuildPacket(Packet(first, body)), first, topic, id, payload) && PublishBody(body, topic, id, payload)
  {
    hide BuildPacket, TwoBytes, OnTheWire, BigEndian;
    TwoBytesAreBigEndian(|topic|);
    if id.Some? {
      TwoBytesAreBigEndian(id.value);
    }
    var two := if id.Some? then TwoBytes(id.value) else [];
    var body := TwoBytes(|topic|) + topic + two + payload;
    BuiltIsOnTheWire(first, body);
    assert Layout(body, TwoBytes(|topic|), topic, two, payload, id);
  }

  /** A PUBLISH is built exactly for the QoS 0 and, with a packet id of sixteen bits, 1, when topic and packet fit. Its first
      byte is 0x30 or 0x32. */
  lemma {:induction false} PublishOnTheWire(topic: seq<Byte>, payload: seq<Byte>, qos: int, packetId: Option<int>)
    ensures var r := BuildPublish(topic, payload, qos, packetId);
            && (r.Ok? <==>
                  && (qos == 0 || (qos == 1 && packetId.Some? && 0 <= packetId.value <= 65535)) && |topic| <= 65535
                  && 2 + |topic| + 2 * qos + |payload| <= 268435455)
            && (r.Ok? && qos == 0 ==> IsPublish(r.value, 0x30, topic, None, payload))
            && (r.Ok? && qos == 1 ==> IsPublish(r.value, 0x32, topic, Some(packetId.value), payload))
  {
    hide BuildPacket, TwoBytes, IsPublish, PublishBody;
    if |topic| <= 65535 {
      TwoBytesLength(|topic|);
      var text := TwoBytes(|topic|) + topic;
      if qos == 0 {
        assert text + [] + payload == text + payload;
        PublishIsBuilt(0x30, topic, None, payload);
      } else if qos == 1 && packetId.Some? && 0 <= packetId.value <= 65535 {
        TwoBytesLength(packetId.value);
        PublishIsBuilt(0x32, topic, Some(packetId.value), payload);
      }
    }
  }

  /** What the parser makes of a PUBLISH: its first byte holds, below the type, the bits DUP, QoS (two) and RETAIN. */
  lemma {:induction false} PublishIsParsed(first: Byte, body: seq<Byte>)
    requires ParsePublish(first, body).Ok?
    ensures var p := ParsePublish(first, body).value;
            && p.qos < 4 && first % 16 == Bit(p.dup, 8) + 2 * p.qos + Bit(p.retain, 1)
            && (p.packetId.Some? <==> p.qos > 0) && PublishBody(body, p.topic, p.packetId, p.payload)
  {
    hide TwoBytes, ReadText, PublishBody, IsPublish;
    ParsePublishAcceptsExactly(first, body);
    var p := ParsePublish(first, body).value;
    PublishIsBuilt(first, p.topic, p.packetId, p.payload);
    LowNibble(first / 16, first % 16);
    assert first == 16 * (first / 16) + first % 16;
  }

  lemma {:induction false} LowNibble(q: nat, m: nat)
    requires m < 16
    ensures m == Bit((16 * q + m) / 8 % 2 == 1, 8) + 2 * ((16 * q + m) / 2 % 4) + Bit((16 * q + m) % 2 == 1, 1)
  {
    var n := 16 * q + m;
    assert n / 8 == 2 * q + m / 8;
    assert n / 2 == 8 * q + m / 2;
    assert n % 2 == m % 2;
    assert (2 * q + m / 8) % 2 == m / 8;
    assert (8 * q + m / 2) % 4 == m / 2 % 4;
  }

  /** SUBACK is 0x90 and PUBACK 0x40, each with the packet id in front; SUBACK goes on with the granted codes. */
  lemma {:induction false} AcknowledgementsOnTheWire(packetId: nat, granted: seq<Byte>)
    requires packetId <= 65535 && 2 + |granted| <= 268435455
    ensures BuildPuback(packetId).Ok? && BuildSuback(packetId, granted).Ok?
    ensures exists id :: BigEndian(id, packetId) && OnTheWire(BuildPuback(packetId).value, 0x40, id)
                         && OnTheWire(BuildSuback(packetId, granted).value, 0x90, id + granted)
  {
    hide TwoBytes, OnTheWire;
    var id := TwoBytes(packetId);
    TwoBytesAreBigEndian(packetId);
    TwoBytesLength(packetId);
    BuiltIsOnTheWire(0x90, id + granted);
    assert BuildPacket(Packet(0x40, id)) == [0x40, 2] + id;
    BuiltIsOnTheWire(0x40, id);
  }
}
