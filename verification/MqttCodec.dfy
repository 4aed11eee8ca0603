/** The MQTT 3.1.1 wire format as the broker reads and writes it (vprinter/mqtt_broker.py). Texts
    are byte strings: UTF-8 is not part of this model. */
module MqttCodec {
  import opened Bytes
  import opened Prelude

  const MAX_REMAINING: nat := 268435455

  datatype MqttError =
    | LengthOutOfRange | MalformedLength | PacketTooLarge | Truncated | TrailingBytes
    | BadQos | MissingPacketId | BadPacketId | TextTooLong

  // ----- remaining length (section 2.2.3 of MQTT Version 3.1.1) ------------------------------------

  /** Seven bits at a time, least significant first; the high bit marks continuation. */
  function Encode(n: nat): (r: seq<Byte>)
    ensures r != []
  {
    if n < 128 then [n] else [n % 128 + 128] + Encode(n / 128)
  }

  method EncodeRemainingLength(length: int) returns (r: Result<seq<Byte>, MqttError>)
    ensures r == if 0 <= length <= MAX_REMAINING then Ok(Encode(length)) else Err(LengthOutOfRange)
  {
    if length < 0 || length > MAX_REMAINING {
      return Err(LengthOutOfRange);
    }
    var rest: nat := length;
    var encoded: seq<Byte> := [];
    while true
      invariant encoded + Encode(rest) == Encode(length)
      decreases rest
    {
      var digit: Byte := rest % 128;
      rest := rest / 128;
      if rest > 0 {
        encoded := encoded + [digit + 128];
      } else {
        return Ok(encoded + [digit]);
      }
    }
  }

  /** Decode up to `k` bytes, adding to `value` with weight `multiplier`: the value and the number
      of bytes read, or None when no final byte is among them. */
  function DecodeFrom(data: seq<Byte>, k: nat, value: nat, multiplier: nat): Option<(nat, nat)> {
    if k == 0 || data == [] then None
    else
      var value' := value + (data[0] % 128) * multiplier;
      if data[0] < 128 then Some((value', 1))
      else After(1, DecodeFrom(data[1..], k - 1, value', multiplier * 128))
  }

  /** The same value, `n` bytes further on. */
  function After(n: nat, r: Option<(nat, nat)>): Option<(nat, nat)> {
    match r
    case None => None
    case Some((v, used)) => Some((v, used + n))
  }

  lemma {:induction false} DecodeStep(data: seq<Byte>, idx: nat, value: nat, multiplier: nat)
    requires idx < 4 && idx < |data|
    ensures DecodeFrom(data[idx..], 4 - idx, value, multiplier) ==
            var value' := value + (data[idx] % 128) * multiplier;
            if data[idx] < 128 then Some((value', 1))
            else After(1, DecodeFrom(data[idx + 1..], 3 - idx, value', multiplier * 128))
  {
    assert data[idx..][1..] == data[idx + 1..];
  }

  function Decode(data: seq<Byte>): Option<(nat, nat)> {
    DecodeFrom(data, 4, 0, 1)
  }

  method DecodeRemainingLength(data: seq<Byte>) returns (r: Result<(nat, nat), MqttError>)
    ensures r == match Decode(data) case Some(p) => Ok(p) case None => Err(MalformedLength)
  {
    var multiplier: int, value: int := 1, 0;
    for idx := 0 to Min(4, |data|)
      invariant value >= 0 && multiplier >= 0
      invariant Decode(data) == After(idx, DecodeFrom(data[idx..], 4 - idx, value, multiplier))
    {
      DecodeStep(data, idx, value, multiplier);
      value := value + (data[idx] % 128) * multiplier;
      if data[idx] < 128 {
        return Ok((value, idx + 1));
      }
      multiplier := multiplier * 128;
    }
    return Err(MalformedLength);
  }

  // ----- packets ------------------------------------------------------------------------------------

  datatype Packet = Packet(first: Byte, payload: seq<Byte>)

  /** Reading one packet off a stream: the packet and what follows it, a wait for more bytes, or a
      protocol error. */
  datatype Read = Complete(packet: Packet, rest: seq<Byte>) | Incomplete | Failed(error: MqttError)

  function ReadPacket(stream: seq<Byte>, cap: nat): Read {
    if stream == [] then Incomplete
    else
      match Decode(stream[1..])
      case None => if |stream| < 5 then Incomplete else Failed(MalformedLength)
      case Some((length, used)) =>
        if length > cap then Failed(PacketTooLarge)
        else if |stream| < 1 + used + length then Incomplete
        else Complete(Packet(stream[0], stream[1 + used..1 + used + length]), stream[1 + used + length..])
  }

  /** The reader: byte by byte through the length, then the payload. */
  method ReadOnePacket(stream: seq<Byte>, cap: nat) returns (r: Read)
    ensures r == ReadPacket(stream, cap)
  {
    if stream == [] {
      return Incomplete;
    }
    var length := DecodeRemainingLength(stream[1..]);
    match length {
      case Err(_) =>
        return if |stream| < 5 then Incomplete else Failed(MalformedLength);
      case Ok((remaining, used)) =>
        if remaining > cap {
          return Failed(PacketTooLarge);
        }
        if |stream| < 1 + used + remaining {
          return Incomplete;
        }
        return Complete(Packet(stream[0], stream[1 + used..1 + used + remaining]), stream[1 + used + remaining..]);
    }
  }

  function BuildPacket(p: Packet): seq<Byte> {
    [p.first] + Encode(|p.payload|) + p.payload
  }

  // ----- texts --------------------------------------------------------------------------------------

  function TwoBytes(n: nat): seq<Byte>
    requires n < 65536
  {
    [n / 256, n % 256]
  }

  function FromTwoBytes(b: seq<Byte>): nat
    requires |b| == 2
  {
    (b[0] as int) * 256 + (b[1] as int)
  }

  function WriteText(text: seq<Byte>): Result<seq<Byte>, MqttError> {
    if |text| > 65535 then Err(TextTooLong) else Ok(TwoBytes(|text|) + text)
  }

  function ReadText(data: seq<Byte>, offset: nat): Result<(seq<Byte>, nat), MqttError> {
    if offset + 2 > |data| then Err(Truncated)
    else
      var length := FromTwoBytes(data[offset..offset + 2]);
      if offset + 2 + length > |data| then Err(Truncated)
      else Ok((data[offset + 2..offset + 2 + length], offset + 2 + length))
  }

  // ----- PUBLISH, SUBACK, PUBACK ----------------------------------------------------------------------

  datatype Publish = Publish(topic: seq<Byte>, payload: seq<Byte>, qos: nat, packetId: Option<nat>, retain: bool, dup: bool)

  function Frame(first: Byte, body: seq<Byte>): Result<seq<Byte>, MqttError> {
    if |body| > MAX_REMAINING then Err(LengthOutOfRange) else Ok(BuildPacket(Packet(first, body)))
  }

  function BuildPublish(topic: seq<Byte>, payload: seq<Byte>, qos: int, packetId: Option<int>): Result<seq<Byte>, MqttError> {
    if qos != 0 && qos != 1 then Err(BadQos)
    else
      match WriteText(topic)
      case Err(e) => Err(e)
      case Ok(text) =>
        if qos == 0 then Frame(0x30, text + payload)
        else if packetId.None? then Err(MissingPacketId)
        else if packetId.value < 0 || packetId.value > 65535 then Err(BadPacketId)
        else Frame(0x32, text + TwoBytes(packetId.value) + payload)
  }

  function ParsePublish(first: Byte, payload: seq<Byte>): Result<Publish, MqttError> {
    var qos := (first / 2) % 4;
    var retain := first % 2 == 1;
    var dup := (first / 8) % 2 == 1;
    match ReadText(payload, 0)
    case Err(e) => Err(e)
    case Ok((topic, offset)) =>
      if qos == 0 then Ok(Publish(topic, payload[offset..], qos, None, retain, dup))
      else if offset + 2 > |payload| then Err(Truncated)
      else Ok(Publish(topic, payload[offset + 2..], qos, Some(FromTwoBytes(payload[offset..offset + 2])), retain, dup))
  }

  function BuildSuback(packetId: nat, granted: seq<Byte>): Result<seq<Byte>, MqttError> {
    if packetId > 65535 then Err(BadPacketId) else Frame(0x90, TwoBytes(packetId) + granted)
  }

  function BuildPuback(packetId: nat): Result<seq<Byte>, MqttError> {
    if packetId > 65535 then Err(BadPacketId) else Ok([0x40, 2] + TwoBytes(packetId))
  }

  // ----- SUBSCRIBE ----------------------------------------------------------------------------------

  /** The topics from `offset` on, each with the two low bits of its options byte. */
  function TopicsFrom(payload: seq<Byte>, offset: nat): Result<seq<(seq<Byte>, nat)>, MqttError>
    decreases |payload| - offset
  {
    if offset >= |payload| then Ok([])
    else
      match ReadText(payload, offset)
      case Err(e) => Err(e)
      case Ok((topic, next)) =>
        if next >= |payload| then Err(Truncated)
        else
          var qos: nat := payload[next] % 4;
          Joined([(topic, qos)], TopicsFrom(payload, next + 1))
  }

  function ParseSubscribe(payload: seq<Byte>): Result<(nat, seq<(seq<Byte>, nat)>), MqttError> {
    if |payload| < 2 then Err(Truncated)
    else
      match TopicsFrom(payload, 2)
      case Err(e) => Err(e)
      case Ok(topics) => Ok((FromTwoBytes(payload[..2]), topics))
  }

  /** Topics already read, in front of a result. */
  function Joined(topics: seq<(seq<Byte>, nat)>, r: Result<seq<(seq<Byte>, nat)>, MqttError>): Result<seq<(seq<Byte>, nat)>, MqttError> {
    match r
    case Err(e) => Err(e)
    case Ok(rest) => Ok(topics + rest)
  }

  lemma {:induction false} JoinedLaws(a: seq<(seq<Byte>, nat)>, b: seq<(seq<Byte>, nat)>, r: Result<seq<(seq<Byte>, nat)>, MqttError>)
    ensures Joined([], r) == r
    ensures Joined(a, Joined(b, r)) == Joined(a + b, r)
  {
    if r.Ok? {
      assert [] + r.value == r.value;
      assert a + (b + r.value) == a + b + r.value;
    }
  }

  method ParseSubscribePacket(payload: seq<Byte>) returns (r: Result<(nat, seq<(seq<Byte>, nat)>), MqttError>)
    ensures r == ParseSubscribe(payload)
  {
    if |payload| < 2 {
      return Err(Truncated);
    }
    var packetId := FromTwoBytes(payload[..2]);
    var offset := 2;
    var topics: seq<(seq<Byte>, nat)> := [];
    JoinedLaws([], [], TopicsFrom(payload, 2));
    while offset < |payload|
      invariant TopicsFrom(payload, 2) == Joined(topics, TopicsFrom(payload, offset))
    {
      match ReadText(payload, offset) {
        case Err(e) => return Err(e);
        case Ok((topic, next)) =>
          if next >= |payload| {
            return Err(Truncated);
          }
          var qos: nat := payload[next] % 4;
          JoinedLaws(topics, [(topic, qos)], TopicsFrom(payload, next + 1));
          topics := topics + [(topic, qos)];
          offset := next + 1;
      }
    }
    assert topics + [] == topics;
    return Ok((packetId, topics));
  }

  // ----- CONNECT ------------------------------------------------------------------------------------

  datatype Connect = Connect(
    protocolName: seq<Byte>, protocolLevel: Byte, flags: Byte, keepAlive: nat, clientId: seq<Byte>,
    username: Option<seq<Byte>>, password: Option<seq<Byte>>, cleanSession: bool)

  predicate Flag(flags: Byte, weight: nat)
    requires weight > 0
  {
    (flags / weight) % 2 == 1
  }

  /** Read a text only when `present`. */
  function ReadOptional(payload: seq<Byte>, offset: nat, present: bool): Result<(Option<seq<Byte>>, nat), MqttError> {
    if !present then Ok((None, offset))
    else
      match ReadText(payload, offset)
      case Err(e) => Err(e)
      case Ok((text, next)) => Ok((Some(text), next))
  }

  function ParseConnect(payload: seq<Byte>): Result<Connect, MqttError> {
    match ReadText(payload, 0)
    case Err(e) => Err(e)
    case Ok((name, o1)) =>
      if o1 + 4 > |payload| then Err(Truncated)
      else
        var flags := payload[o1 + 1];
        match ReadText(payload, o1 + 4)
        case Err(e) => Err(e)
        case Ok((client, o2)) =>
          match ReadOptional(payload, o2, Flag(flags, 4))
          case Err(e) => Err(e)
          case Ok((_, o3)) =>
            match ReadOptional(payload, o3, Flag(flags, 4))
            case Err(e) => Err(e)
            case Ok((_, o4)) =>
              match ReadOptional(payload, o4, Flag(flags, 128))
              case Err(e) => Err(e)
              case Ok((user, o5)) =>
                match ReadOptional(payload, o5, Flag(flags, 64))
                case Err(e) => Err(e)
                case Ok((pass, o6)) =>
                  if o6 != |payload| then Err(TrailingBytes)
                  else Ok(Connect(name, payload[o1], flags, FromTwoBytes(payload[o1 + 2..o1 + 4]), client, user, pass,
                                  Flag(flags, 2)))
  }
}
