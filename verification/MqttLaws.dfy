/** Round trips of the wire format: the length codec is minimal and inverted by its decoder, any
    stream of built packets is re-framed into the same packets, and the parsers invert the builders
    and accept nothing else. */
module MqttLaws {
  import opened Bytes
  import opened Prelude
  import opened MqttCodec

  // ----- the remaining length -----------------------------------------------------------------------

  function Pow128(k: nat): nat {
    if k == 0 then 1 else 128 * Pow128(k - 1)
  }

  /** The encoding uses the fewest bytes: k bytes exactly for the values that need k. */
  lemma {:induction false} EncodeLength(n: nat, k: nat)
    requires k >= 1
    ensures |Encode(n)| <= k <==> n < Pow128(k)
    decreases k
  {
    if n >= 128 {
      if k > 1 {
        EncodeLength(n / 128, k - 1);
        DivBound(n, Pow128(k - 1));
      } else {
        assert Pow128(1) == 128 * Pow128(0);
      }
    } else {
      PowPositive(k);
    }
  }

  lemma {:induction false} PowPositive(k: nat)
    ensures k >= 1 ==> Pow128(k) >= 128
    ensures Pow128(k) >= 1
  {
    if k >= 1 {
      PowPositive(k - 1);
    }
  }

  lemma {:induction false} DivBound(n: nat, p: nat)
    ensures n / 128 < p <==> n < 128 * p
  {
    var q, r := n / 128, n % 128;
    assert n == 128 * q + r;
  }

  /** Four bytes suffice exactly for the lengths the protocol allows. */
  lemma {:induction false} FourBytesSuffice(n: nat)
    ensures |Encode(n)| <= 4 <==> n <= 268435455
  {
    EncodeLength(n, 4);
    assert Pow128(4) == 128 * (128 * (128 * (128 * Pow128(0))));
  }

  lemma {:induction false} Weighted(n: nat, value: nat, multiplier: nat)
    ensures value + (n % 128) * multiplier + (n / 128) * (multiplier * 128) == value + n * multiplier
  {
    var q, r := n / 128, n % 128;
    assert n == 128 * q + r;
    assert n * multiplier == (128 * q + r) * multiplier;
    assert (128 * q + r) * multiplier == 128 * q * multiplier + r * multiplier;
    assert q * (multiplier * 128) == 128 * q * multiplier;
  }

  lemma {:induction false} DecodeEncodeFrom(n: nat, rest: seq<Byte>, k: nat, value: nat, multiplier: nat)
    requires |Encode(n)| <= k
    ensures DecodeFrom(Encode(n) + rest, k, value, multiplier) == Some((value + n * multiplier, |Encode(n)|))
    decreases n
  {
    var code := Encode(n);
    assert (code + rest)[0] == code[0];
    if n >= 128 {
      assert (code + rest)[1..] == Encode(n / 128) + rest;
      assert code[0] % 128 == n % 128;
      DecodeEncodeFrom(n / 128, rest, k - 1, value + (n % 128) * multiplier, multiplier * 128);
      Weighted(n, value, multiplier);
    }
  }

  /** Every length up to 268435455 decodes back, whatever follows it. */
  lemma {:induction false} DecodeInvertsEncode(n: nat, rest: seq<Byte>)
    requires n <= 268435455
    ensures Decode(Encode(n) + rest) == Some((n, |Encode(n)|))
  {
    FourBytesSuffice(n);
    DecodeEncodeFrom(n, rest, 4, 0, 1);
  }

  /** The value of a length code, read from its most significant end. */
  function CodeValue(data: seq<Byte>, k: nat): Option<(nat, nat)> {
    if k == 0 || data == [] then None
    else if data[0] < 128 then Some((data[0], 1))
    else
      match CodeValue(data[1..], k - 1)
      case None => None
      case Some((v, used)) => Some((data[0] % 128 + 128 * v, used + 1))
  }

  lemma {:induction false} Distribute(value: nat, d: nat, v: nat, m: nat)
    ensures value + d * m + v * (m * 128) == value + (d + 128 * v) * m
  {
    assert v * (m * 128) == (128 * v) * m;
    assert (d + 128 * v) * m == d * m + (128 * v) * m;
  }

  lemma {:induction false} DecodeIsCodeValue(data: seq<Byte>, k: nat, value: nat, multiplier: nat)
    ensures DecodeFrom(data, k, value, multiplier) ==
            match CodeValue(data, k) case None => None case Some((v, used)) => Some((value + v * multiplier, used))
    decreases k
  {
    if k > 0 && data != [] {
      var d := data[0] % 128;
      if data[0] >= 128 {
        DecodeIsCodeValue(data[1..], k - 1, value + d * multiplier, multiplier * 128);
        match CodeValue(data[1..], k - 1)
        case None =>
        case Some((v, used)) => Distribute(value, d, v, multiplier);
      }
    }
  }

  lemma {:induction false} CodeBound(data: seq<Byte>, k: nat)
    ensures match CodeValue(data, k)
            case None => true
            case Some((v, used)) => 1 <= used <= k && used <= |data| && v < Pow128(used)
    decreases k
  {
    if k > 0 && data != [] {
      if data[0] < 128 {
        assert Pow128(1) == 128 * Pow128(0);
      } else {
        CodeBound(data[1..], k - 1);
        match CodeValue(data[1..], k - 1)
        case None =>
        case Some((v, used)) => assert data[0] % 128 + 128 * v < 128 * Pow128(used);
      }
    }
  }

  /** No code for a value is shorter than the one written, and no code reaches past the limit. */
  lemma {:induction false} FewestBytes(data: seq<Byte>, n: nat, used: nat)
    requires Decode(data) == Some((n, used))
    ensures 1 <= |Encode(n)| <= used <= 4 && n <= 268435455
  {
    DecodeIsCodeValue(data, 4, 0, 1);
    CodeBound(data, 4);
    EncodeLength(n, used);
    FourBytesSuffice(n);
  }

  // ----- framing ------------------------------------------------------------------------------------

  /** A built packet within the size cap is read back, and the reader stops right after it. */
  lemma {:induction false} ReadInvertsBuild(p: Packet, rest: seq<Byte>, cap: nat)
    requires |p.payload| <= cap && |p.payload| <= 268435455
    ensures ReadPacket(BuildPacket(p) + rest, cap) == Complete(p, rest)
  {
    var code := Encode(|p.payload|);
    var stream := BuildPacket(p) + rest;
    DecodeInvertsEncode(|p.payload|, p.payload + rest);
    assert stream[1..] == code + (p.payload + rest);
    assert stream[1 + |code|..1 + |code| + |p.payload|] == p.payload;
    assert stream[1 + |code| + |p.payload|..] == rest;
  }

  function BuildAll(ps: seq<Packet>): seq<Byte> {
    if ps == [] then [] else BuildPacket(ps[0]) + BuildAll(ps[1..])
  }

  /** The packets a reader takes off a stream until it must wait or fails. */
  function ReadAll(stream: seq<Byte>, cap: nat): (seq<Packet>, Read)
    decreases |stream|
  {
    match ReadPacket(stream, cap)
    case Complete(p, rest) =>
      ReadShrinks(stream, cap);
      var (ps, last) := ReadAll(rest, cap);
      ([p] + ps, last)
    case stop => ([], stop)
  }

  /** The acknowledgements the broker builds are read back as what they are. */
  lemma {:induction false} AcknowledgementsAreRead(packetId: nat, granted: seq<Byte>, rest: seq<Byte>, cap: nat)
    requires 2 + |granted| <= cap && 2 + |granted| <= 268435455
    ensures packetId <= 65535 ==>
              && BuildPuback(packetId).Ok? && BuildSuback(packetId, granted).Ok?
              && ReadPacket(BuildPuback(packetId).value + rest, cap) == Complete(Packet(0x40, TwoBytes(packetId)), rest)
              && ReadPacket(BuildSuback(packetId, granted).value + rest, cap) == Complete(Packet(0x90, TwoBytes(packetId) + granted), rest)
    ensures packetId > 65535 ==> BuildPuback(packetId).Err? && BuildSuback(packetId, granted).Err?
  {
    hide ReadPacket;
    if packetId <= 65535 {
      var id := TwoBytes(packetId);
      ReadInvertsBuild(Packet(0x40, id), rest, cap);
      ReadInvertsBuild(Packet(0x90, id + granted), rest, cap);
      assert Encode(2) == [2];
      assert BuildPacket(Packet(0x40, id)) == [0x40, 2] + id;
    }
  }

  lemma {:induction false} ReadShrinks(stream: seq<Byte>, cap: nat)
    requires ReadPacket(stream, cap).Complete?
    ensures |ReadPacket(stream, cap).rest| < |stream|
  {
  }

  /** Any concatenation of built packets within the cap is re-framed into the same packets, with
      nothing left over. */
  lemma {:induction false} Reframes(ps: seq<Packet>, cap: nat)
    requires forall i :: 0 <= i < |ps| ==> |ps[i].payload| <= cap && |ps[i].payload| <= 268435455
    ensures ReadAll(BuildAll(ps), cap) == (ps, Incomplete)
    decreases |ps|
  {
    if ps != [] {
      hide ReadPacket, BuildPacket;
      ReadInvertsBuild(ps[0], BuildAll(ps[1..]), cap);
      Reframes(ps[1..], cap);
      assert ps == [ps[0]] + ps[1..];
    }
  }

  /** A packet cut short is never mistaken for another packet or for an error: the reader waits. */
  lemma {:induction false} PrefixWaits(p: Packet, n: nat, cap: nat)
    requires |p.payload| <= cap && |p.payload| <= 268435455 && n < |BuildPacket(p)|
    ensures ReadPacket(BuildPacket(p)[..n], cap) == Incomplete
  {
    hide Encode, DecodeFrom, CodeValue;
    var code := Encode(|p.payload|);
    var cut := BuildPacket(p)[..n];
    FourBytesSuffice(|p.payload|);
    if n > |code| {
      CutTail(p.first, code, p.payload, n);
      DecodeInvertsEncode(|p.payload|, p.payload[..n - 1 - |code|]);
    } else if n > 0 {
      CutTail(p.first, code, p.payload, n);
      CodePrefixUndecided(|p.payload|, n - 1, 4);
      DecodeIsCodeValue(code[..n - 1], 4, 0, 1);
    }
  }

  lemma {:induction false} CutTail(first: Byte, code: seq<Byte>, payload: seq<Byte>, n: nat)
    requires 0 < n <= 1 + |code| + |payload|
    ensures var cut := ([first] + code + payload)[..n];
            cut[1..] == if n > |code| then code + payload[..n - 1 - |code|] else code[..n - 1]
  {
  }

  lemma {:induction false} CodePrefixUndecided(n: nat, m: nat, k: nat)
    requires m < |Encode(n)|
    ensures CodeValue(Encode(n)[..m], k) == None
    decreases k
  {
    if m > 0 && k > 0 {
      assert Encode(n)[..m][1..] == Encode(n / 128)[..m - 1];
      CodePrefixUndecided(n / 128, m - 1, k - 1);
    }
  }

  /** What the reader takes is a header byte, a length code, and that many bytes; it takes exactly a
      built packet if and only if the length code is the shortest one. */
  lemma {:induction false} ReadTakesExactly(stream: seq<Byte>, cap: nat)
    requires ReadPacket(stream, cap).Complete?
    ensures var r := ReadPacket(stream, cap);
            var used := |stream| - |r.rest| - 1 - |r.packet.payload|;
            && 1 <= used <= 4
            && |Encode(|r.packet.payload|)| <= used
            && (stream == BuildPacket(r.packet) + r.rest <==> stream[1..1 + used] == Encode(|r.packet.payload|))
  {
    hide Encode, Decode, ReadPacket, BuildPacket;
    var length, used := ReadShape(stream, cap);
    var r := ReadPacket(stream, cap);
    FewestBytes(stream[1..], length, used);
    CutApart(stream, used, length);
    BuildShape(r.packet, r.rest);
    Recut([stream[0]], stream[1..1 + used], Encode(length), r.packet.payload + r.rest);
  }

  lemma {:induction false} ReadShape(stream: seq<Byte>, cap: nat) returns (length: nat, used: nat)
    requires ReadPacket(stream, cap).Complete?
    ensures Decode(stream[1..]) == Some((length, used)) && 1 + used + length <= |stream|
    ensures ReadPacket(stream, cap)
         == Complete(Packet(stream[0], stream[1 + used..1 + used + length]), stream[1 + used + length..])
  {
    hide Decode;
    length, used := Decode(stream[1..]).value.0, Decode(stream[1..]).value.1;
  }

  lemma {:induction false} BuildShape(p: Packet, rest: seq<Byte>)
    ensures BuildPacket(p) + rest == [p.first] + Encode(|p.payload|) + (p.payload + rest)
  {
    hide Encode;
  }

  lemma {:induction false} CutApart(stream: seq<Byte>, used: nat, length: nat)
    requires 1 + used + length <= |stream|
    ensures stream == [stream[0]] + stream[1..1 + used] + (stream[1 + used..1 + used + length] + stream[1 + used + length..])
  {
  }

  /** Two texts that agree around their middles are equal exactly when the middles are. */
  lemma {:induction false} Recut<T>(a: seq<T>, b: seq<T>, b': seq<T>, c: seq<T>)
    ensures a + b + c == a + b' + c <==> b == b'
  {
    if a + b + c == a + b' + c {
      assert |b| == |b'|;
      assert b == (a + b + c)[|a|..|a| + |b|];
      assert b' == (a + b' + c)[|a|..|a| + |b|];
    }
  }

  // ----- texts and PUBLISH ----------------------------------------------------------------------------

  lemma {:induction false} TwoBytesRoundTrip(n: nat, b: seq<Byte>)
    ensures n < 65536 ==> FromTwoBytes(TwoBytes(n)) == n
    ensures |b| == 2 ==> FromTwoBytes(b) < 65536 && TwoBytes(FromTwoBytes(b)) == b
  {
  }

  /** A written text in its place is read back, and reading stops right after it. */
  lemma {:induction false} ReadInvertsWrite(before: seq<Byte>, text: seq<Byte>, after: seq<Byte>)
    requires |text| <= 65535
    ensures ReadText(before + WriteText(text).value + after, |before|) == Ok((text, |before| + 2 + |text|))
  {
    var data := before + WriteText(text).value + after;
    TwoBytesRoundTrip(|text|, []);
    assert data == before + TwoBytes(|text|) + (text + after);
    assert data == (before + TwoBytes(|text|)) + text + after;
    assert data[|before|..|before| + 2] == TwoBytes(|text|);
    assert data[|before| + 2..|before| + 2 + |text|] == text;
  }

  /** What a successful read consumed is the written form of what it returned. */
  lemma {:induction false} ReadTextTakesExactly(data: seq<Byte>, offset: nat)
    requires ReadText(data, offset).Ok?
    ensures var (text, next) := ReadText(data, offset).value;
            |text| <= 65535 && next == offset + 2 + |text| && next <= |data| && data[offset..next] == WriteText(text).value
  {
    var header := data[offset..offset + 2];
    TwoBytesRoundTrip(0, header);
    var (text, next) := ReadText(data, offset).value;
    assert data[offset..next] == header + data[offset + 2..next];
  }

  /** `parse_publish` inverts `build_publish`: reading the packet and parsing it gives back the
      topic, the payload, the QoS and, for QoS 1, the packet id. */
  lemma {:induction false} ParseInvertsBuildPublish(topic: seq<Byte>, payload: seq<Byte>, qos: int, packetId: Option<int>, rest: seq<Byte>, cap: nat)
    requires BuildPublish(topic, payload, qos, packetId).Ok?
    requires |topic| + |payload| + 4 <= cap
    ensures var r := ReadPacket(BuildPublish(topic, payload, qos, packetId).value + rest, cap);
            && r.Complete? && r.rest == rest
            && ParsePublish(r.packet.first, r.packet.payload)
               == Ok(Publish(topic, payload, qos, if qos == 1 then Some(packetId.value) else None, false, false))
  {
    hide ReadPacket, BuildPacket;
    var text := WriteText(topic).value;
    var body := if qos == 0 then text + payload else text + TwoBytes(packetId.value) + payload;
    var p := Packet(if qos == 0 then 0x30 else 0x32, body);
    ReadInvertsBuild(p, rest, cap);
    var tail := body[|text|..];
    assert body == [] + text + tail;
    ReadInvertsWrite([], topic, tail);
    if qos == 0 {
      assert body[2 + |topic|..] == payload;
    } else {
      TwoBytesRoundTrip(packetId.value, []);
      assert body[2 + |topic|..2 + |topic| + 2] == TwoBytes(packetId.value);
      assert body[2 + |topic| + 2..] == payload;
    }
  }

  /** The parser accepts nothing but a written topic, a packet id when the QoS bits ask for one, and
      the payload. */
  lemma {:induction false} ParsePublishAcceptsExactly(first: Byte, body: seq<Byte>)
    requires ParsePublish(first, body).Ok?
    ensures var p := ParsePublish(first, body).value;
            && |p.topic| <= 65535 && p.qos == (first / 2) % 4 && (p.packetId.Some? <==> p.qos != 0)
            && (p.packetId.Some? ==> p.packetId.value < 65536)
            && body == WriteText(p.topic).value
                       + (if p.packetId.Some? then TwoBytes(p.packetId.value) else []) + p.payload
  {
    ReadTextTakesExactly(body, 0);
    var (topic, o) := ReadText(body, 0).value;
    if (first / 2) % 4 != 0 {
      TwoBytesRoundTrip(0, body[o..o + 2]);
      assert body == body[0..o] + body[o..o + 2] + body[o + 2..];
    } else {
      assert body == body[0..o] + [] + body[o..];
    }
  }

  // ----- SUBSCRIBE ------------------------------------------------------------------------------------

  /** The payload a client writes: each topic and its options byte. */
  function WriteTopics(topics: seq<(seq<Byte>, Byte)>): seq<Byte>
    requires forall i :: 0 <= i < |topics| ==> |topics[i].0| <= 65535
  {
    if topics == [] then []
    else WriteText(topics[0].0).value + [topics[0].1] + WriteTopics(topics[1..])
  }

  function Wanted(topics: seq<(seq<Byte>, Byte)>): seq<(seq<Byte>, nat)> {
    seq(|topics|, i requires 0 <= i < |topics| => var qos: nat := topics[i].1 % 4; (topics[i].0, qos))
  }

  lemma {:induction false} TopicsStep(payload: seq<Byte>, offset: nat, topic: seq<Byte>, next: nat)
    requires offset < |payload| && ReadText(payload, offset) == Ok((topic, next)) && next < |payload|
    ensures var qos: nat := payload[next] % 4;
            TopicsFrom(payload, offset) == Joined([(topic, qos)], TopicsFrom(payload, next + 1))
  {
  }

  lemma {:induction false} WantedCons(topics: seq<(seq<Byte>, Byte)>)
    requires topics != []
    ensures var qos: nat := topics[0].1 % 4;
            Wanted(topics) == [(topics[0].0, qos)] + Wanted(topics[1..])
  {
  }

  lemma {:induction false} NoTopics(payload: seq<Byte>)
    ensures TopicsFrom(payload, |payload|) == Ok([]) && Wanted([]) == []
  {
  }

  lemma {:induction false} TopicLayout(before: seq<Byte>, text: seq<Byte>, options: Byte, rest: seq<Byte>)
    requires |text| >= 2
    ensures var payload := before + (text + [options] + rest);
            && payload == before + text + ([options] + rest) && payload == before + text + [options] + rest
            && |before| <= |before + text| < |payload| && payload[|before + text|] == options
            && |before + text| + 1 == |before + text + [options]|
  {
  }

  lemma {:induction false} JoinedOk(a: seq<(seq<Byte>, nat)>, b: seq<(seq<Byte>, nat)>)
    ensures Joined(a, Ok(b)) == Ok(a + b)
  {
  }

  lemma {:induction false} TopicsRoundTrip(before: seq<Byte>, topics: seq<(seq<Byte>, Byte)>)
    requires forall i :: 0 <= i < |topics| ==> |topics[i].0| <= 65535
    ensures TopicsFrom(before + WriteTopics(topics), |before|) == Ok(Wanted(topics))
    decreases |topics|
  {
    hide ReadText, WriteText, TopicsFrom, Wanted, Joined;
    var payload := before + WriteTopics(topics);
    if topics == [] {
      NoTopics(payload);
    } else {
      WrittenLength(topics[0].0);
      var text := WriteText(topics[0].0).value;
      var rest := WriteTopics(topics[1..]);
      var shown := before + text + [topics[0].1];
      TopicLayout(before, text, topics[0].1, rest);
      ReadInvertsWrite(before, topics[0].0, [topics[0].1] + rest);
      TopicsStep(payload, |before|, topics[0].0, |before + text|);
      TopicsRoundTrip(shown, topics[1..]);
      WantedCons(topics);
      var qos: nat := topics[0].1 % 4;
      JoinedOk([(topics[0].0, qos)], Wanted(topics[1..]));
    }
  }

  /** Every subscription a client can write is read back with its requested QoS. */
  lemma {:induction false} ParseInvertsSubscribe(packetId: nat, topics: seq<(seq<Byte>, Byte)>)
    requires packetId < 65536 && forall i :: 0 <= i < |topics| ==> |topics[i].0| <= 65535
    ensures ParseSubscribe(TwoBytes(packetId) + WriteTopics(topics)) == Ok((packetId, Wanted(topics)))
  {
    TopicsRoundTrip(TwoBytes(packetId), topics);
    TwoBytesRoundTrip(packetId, []);
    assert (TwoBytes(packetId) + WriteTopics(topics))[..2] == TwoBytes(packetId);
  }

  lemma {:induction false} TopicsTakeExactly(payload: seq<Byte>, offset: nat) returns (topics: seq<(seq<Byte>, Byte)>)
    requires offset <= |payload| && TopicsFrom(payload, offset).Ok?
    ensures forall i :: 0 <= i < |topics| ==> |topics[i].0| <= 65535
    ensures payload[offset..] == WriteTopics(topics) && TopicsFrom(payload, offset).value == Wanted(topics)
    decreases |payload| - offset
  {
    if offset == |payload| {
      topics := [];
      NoTopics(payload);
    } else {
      TopicsNeedText(payload, offset);
      hide ReadText, WriteText, TopicsFrom, Wanted, Joined;
      ReadTextTakesExactly(payload, offset);
      var (topic, next) := ReadText(payload, offset).value;
      var rest := TopicsTakeExactly(payload, next + 1);
      topics := [(topic, payload[next])] + rest;
      assert topics[1..] == rest;
      assert payload[offset..] == payload[offset..next] + [payload[next]] + payload[next + 1..];
      TopicsStep(payload, offset, topic, next);
      WantedCons(topics);
      var qos: nat := payload[next] % 4;
      JoinedOk([(topic, qos)], Wanted(rest));
    }
  }

  lemma {:induction false} TopicsNeedText(payload: seq<Byte>, offset: nat)
    requires offset < |payload| && TopicsFrom(payload, offset).Ok?
    ensures ReadText(payload, offset).Ok?
    ensures var (topic, next) := ReadText(payload, offset).value; next < |payload| && TopicsFrom(payload, next + 1).Ok?
  {
    hide ReadText;
  }

  /** The parser accepts exactly the payloads a client can write. */
  lemma {:induction false} SubscribeAcceptsExactly(payload: seq<Byte>)
    ensures ParseSubscribe(payload).Ok? <==>
            exists packetId: nat, topics: seq<(seq<Byte>, Byte)> ::
              packetId < 65536 && (forall i :: 0 <= i < |topics| ==> |topics[i].0| <= 65535)
              && payload == TwoBytes(packetId) + WriteTopics(topics)
  {
    if ParseSubscribe(payload).Ok? {
      TwoBytesRoundTrip(0, payload[..2]);
      var topics := TopicsTakeExactly(payload, 2);
      assert payload == TwoBytes(FromTwoBytes(payload[..2])) + WriteTopics(topics);
    }
    forall packetId: nat, topics: seq<(seq<Byte>, Byte)> |
      packetId < 65536 && (forall i :: 0 <= i < |topics| ==> |topics[i].0| <= 65535)
      && payload == TwoBytes(packetId) + WriteTopics(topics)
      ensures ParseSubscribe(payload).Ok?
    {
      ParseInvertsSubscribe(packetId, topics);
    }
  }

  // ----- CONNECT ----------------------------------------------------------------------------------------

  function WriteOptional(text: Option<seq<Byte>>): seq<Byte>
    requires text.Some? ==> |text.value| <= 65535
  {
    if text.Some? then WriteText(text.value).value else []
  }

  lemma {:induction false} OptionalRoundTrip(before: seq<Byte>, text: Option<seq<Byte>>, after: seq<Byte>)
    requires text.Some? ==> |text.value| <= 65535
    ensures ReadOptional(before + WriteOptional(text) + after, |before|, text.Some?)
            == Ok((text, |before| + |WriteOptional(text)|))
  {
    if text.Some? {
      ReadInvertsWrite(before, text.value, after);
    }
  }

  function Bit(on: bool, weight: nat): nat {
    if on then weight else 0
  }

  /** The flag byte of CONNECT, from its highest bit down: user name, password, will retain, the two bits of the will's
      QoS, will, clean session, and the reserved bit. */
  predicate FlagByte(flags: Byte, user: bool, pass: bool, retain: bool, qos: nat, will: bool, clean: bool, reserved: bool) {
    && qos < 4
    && flags == Bit(user, 128) + Bit(pass, 64) + Bit(retain, 32) + 8 * qos + Bit(will, 4) + Bit(clean, 2) + Bit(reserved, 1)
  }

  /** A well-formed CONNECT: every text fits and the flags announce exactly the texts present. */
  ghost predicate Writable(c: Connect, will: Option<(seq<Byte>, seq<Byte>)>) {
    && |c.protocolName| <= 65535 && |c.clientId| <= 65535 && c.keepAlive < 65536
    && (c.username.Some? ==> |c.username.value| <= 65535) && (c.password.Some? ==> |c.password.value| <= 65535)
    && (will.Some? ==> |will.value.0| <= 65535 && |will.value.1| <= 65535)
    && exists retain, qos, reserved ::
         FlagByte(c.flags, c.username.Some?, c.password.Some?, retain, qos, will.Some?, c.cleanSession, reserved)
  }

  lemma {:induction false} FlagsAreRead(c: Connect, will: Option<(seq<Byte>, seq<Byte>)>)
    requires Writable(c, will)
    ensures (will.Some? <==> Flag(c.flags, 4)) && (c.username.Some? <==> Flag(c.flags, 128))
    ensures (c.password.Some? <==> Flag(c.flags, 64)) && (c.cleanSession <==> Flag(c.flags, 2))
  {
  }

  /** The payload a client writes; the will's topic and message are not kept by the broker. */
  ghost function WriteConnect(c: Connect, will: Option<(seq<Byte>, seq<Byte>)>): seq<Byte>
    requires Writable(c, will)
  {
    var head := WriteText(c.protocolName).value + ([c.protocolLevel, c.flags] + TwoBytes(c.keepAlive));
    var w1 := WriteOptional(if will.Some? then Some(will.value.0) else None);
    var w2 := WriteOptional(if will.Some? then Some(will.value.1) else None);
    head + WriteText(c.clientId).value + w1 + w2 + WriteOptional(c.username) + WriteOptional(c.password)
  }

  /** The parser's chain of reads, one after the other. */
  lemma {:induction false} ConnectFromReads(payload: seq<Byte>, c: Connect, w1: Option<seq<Byte>>, w2: Option<seq<Byte>>,
      o1: nat, o2: nat, o3: nat, o4: nat, o5: nat)
    requires ReadText(payload, 0) == Ok((c.protocolName, o1)) && o1 + 4 <= |payload|
    requires payload[o1] == c.protocolLevel && payload[o1 + 1] == c.flags
    requires FromTwoBytes(payload[o1 + 2..o1 + 4]) == c.keepAlive
    requires ReadText(payload, o1 + 4) == Ok((c.clientId, o2))
    requires ReadOptional(payload, o2, Flag(c.flags, 4)) == Ok((w1, o3))
    requires ReadOptional(payload, o3, Flag(c.flags, 4)) == Ok((w2, o4))
    requires ReadOptional(payload, o4, Flag(c.flags, 128)) == Ok((c.username, o5))
    requires ReadOptional(payload, o5, Flag(c.flags, 64)) == Ok((c.password, |payload|))
    requires c.cleanSession == Flag(c.flags, 2)
    ensures ParseConnect(payload) == Ok(c)
  {
    hide ReadText, ReadOptional, Flag, FromTwoBytes;
  }

  /** One concatenation, seen around each of its parts. */
  lemma {:induction false} Around(a: seq<Byte>, b: seq<Byte>, c: seq<Byte>, d: seq<Byte>, e: seq<Byte>, f: seq<Byte>, g: seq<Byte>)
    ensures a + b + c + d + e + f + g == [] + a + (b + c + d + e + f + g)
    ensures a + b + c + d + e + f + g == (a + b) + c + (d + e + f + g)
    ensures a + b + c + d + e + f + g == (a + b + c) + d + (e + f + g)
    ensures a + b + c + d + e + f + g == (a + b + c + d) + e + (f + g)
    ensures a + b + c + d + e + f + g == (a + b + c + d + e) + f + g
    ensures a + b + c + d + e + f + g == (a + b + c + d + e + f) + g + []
    ensures (a + b + c + d + e + f + g)[|a|..|a| + |b|] == b
  {
  }

  lemma {:induction false} FixedHeader(payload: seq<Byte>, o: nat, level: Byte, flags: Byte, keepAlive: nat)
    requires keepAlive < 65536 && o + 4 <= |payload| && payload[o..o + 4] == [level, flags] + TwoBytes(keepAlive)
    ensures payload[o] == level && payload[o + 1] == flags && FromTwoBytes(payload[o + 2..o + 4]) == keepAlive
  {
    var h := payload[o..o + 4];
    assert h[0] == payload[o] && h[1] == payload[o + 1];
    assert payload[o + 2..o + 4] == h[2..];
    TwoBytesRoundTrip(keepAlive, []);
  }

  /** Every well-formed CONNECT is read back. */
  lemma {:induction false} ParseInvertsConnect(c: Connect, will: Option<(seq<Byte>, seq<Byte>)>)
    requires Writable(c, will)
    ensures ParseConnect(WriteConnect(c, will)) == Ok(c)
  {
    hide ReadText, WriteText, WriteOptional, ReadOptional, Flag, FlagByte, ParseConnect, TwoBytes, FromTwoBytes;
    FlagsAreRead(c, will);
    WrittenLength(c.protocolName);
    WrittenLength(c.clientId);
    var name := WriteText(c.protocolName).value;
    var client := WriteText(c.clientId).value;
    var fixed := [c.protocolLevel, c.flags] + TwoBytes(c.keepAlive);
    var t1 := if will.Some? then Some(will.value.0) else None;
    var t2 := if will.Some? then Some(will.value.1) else None;
    var w1, w2 := WriteOptional(t1), WriteOptional(t2);
    var user, pass := WriteOptional(c.username), WriteOptional(c.password);
    var payload := name + fixed + client + w1 + w2 + user + pass;
    assert payload == WriteConnect(c, will);
    TwoBytesLength(c.keepAlive);
    Around(name, fixed, client, w1, w2, user, pass);
    FixedHeader(payload, |name|, c.protocolLevel, c.flags, c.keepAlive);
    ReadInvertsWrite([], c.protocolName, fixed + client + w1 + w2 + user + pass);
    ReadInvertsWrite(name + fixed, c.clientId, w1 + w2 + user + pass);
    OptionalRoundTrip(name + fixed + client, t1, w2 + user + pass);
    OptionalRoundTrip(name + fixed + client + w1, t2, user + pass);
    OptionalRoundTrip(name + fixed + client + w1 + w2, c.username, pass);
    OptionalRoundTrip(name + fixed + client + w1 + w2 + user, c.password, []);
    var o2 := |name| + 4 + |client|;
    ConnectFromReads(payload, c, t1, t2, |name|, o2, o2 + |w1|, o2 + |w1| + |w2|, o2 + |w1| + |w2| + |user|);
  }

  lemma {:induction false} TwoBytesLength(n: nat)
    requires n < 65536
    ensures |TwoBytes(n)| == 2
  {
  }

  lemma {:induction false} WrittenLength(text: seq<Byte>)
    requires |text| <= 65535
    ensures WriteText(text).Ok? && |WriteText(text).value| == 2 + |text|
  {
  }
}
