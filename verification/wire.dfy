/** The telemetry wire format: packet identifiers, the frame delimiter and the
    decoder that turns one BLE notification into an optional packet. */
module Wire {
  import opened Wrappers

  /** One octet of a notification payload. */
  type byte = x: int | 0 <= x < 256

  /** Packet identifiers of the bike's protocol. Only the battery state of
      charge and the temperature are interpreted; the others are known but
      ignored. */
  const PacketIdBatterySoc: byte := 0x0A
  const PacketIdVoltage: byte := 0x01
  const PacketIdSpeedRpm: byte := 0x05
  const PacketIdCurrentPower: byte := 0x06
  const PacketIdTemperature: byte := 0x07
  const PacketIdPedalCadence: byte := 0x08
  const PacketIdMotorStatus: byte := 0x09

  /** The 8-byte delimiter `ee00000000000000` that separates frames in the
      notification stream and carries no telemetry. */
  const FrameDelimiter: seq<byte> := [0xEE, 0x00, 0x00, 0x00, 0x00, 0x00, 0x00, 0x00]

  /** A packet the decoder accepted: its identifier and its parsed integer value. */
  datatype Packet = Packet(packetId: byte, parsedValue: int)

  /** The identifiers the decoder interprets. */
  predicate IsKnownId(id: byte) {
    id == PacketIdBatterySoc || id == PacketIdTemperature
  }

  /** Big-endian unsigned 16-bit unpacking. Like Python's `struct.unpack(">H", b)`
      it fails (here: None, there: `struct.error`) unless given exactly two bytes. */
  function UnpackU16BE(b: seq<byte>): (r: Option<int>)
    ensures r.Some? <==> |b| == 2
    ensures r.Some? ==> 0 <= r.value < 0x1_0000
    ensures r.Some? ==> r.value / 256 == b[0] && r.value % 256 == b[1]
  {
    if |b| != 2 then None else Some(b[0] as int * 256 + b[1] as int)
  }

  /** Decodes one notification. Frames shorter than two bytes, frames with an
      uninterpreted identifier, and temperature frames with fewer than two
      payload bytes decode to nothing. */
  function ParsePacket(data: seq<byte>): (r: Option<Packet>)
    ensures r.Some? ==> |data| >= 2 && r.value.packetId == data[0] && IsKnownId(data[0])
    ensures r.Some? && r.value.packetId == PacketIdBatterySoc ==> 0 <= r.value.parsedValue < 256
    ensures r.Some? && r.value.packetId == PacketIdTemperature ==>
              |data| >= 3 && 0 <= r.value.parsedValue < 0x1_0000
  {
    if |data| < 2 then None
    else
      var packetId := data[0];
      var packetData := data[1..];
      if packetId == PacketIdBatterySoc && |packetData| >= 1 then
        Some(Packet(packetId, packetData[0]))
      else if packetId == PacketIdTemperature && |packetData| >= 2 then
        match UnpackU16BE(packetData[..2])
        case None => None
        case Some(tempRaw) => Some(Packet(packetId, tempRaw))
      else
        None
  }

  /** A packet that some frame decodes to: a known identifier carrying a value
      that fits its field. */
  predicate Encodable(p: Packet) {
    || (p.packetId == PacketIdBatterySoc && 0 <= p.parsedValue < 256)
    || (p.packetId == PacketIdTemperature && 0 <= p.parsedValue < 0x1_0000)
  }

  /** The shortest frame that carries packet p: the identifier followed by
      its value, one byte for the state of charge, two big-endian bytes for
      the temperature. */
  function Encode(p: Packet): (frame: seq<byte>)
    requires Encodable(p)
    ensures |frame| == (if p.packetId == PacketIdBatterySoc then 2 else 3)
    ensures frame[0] == p.packetId
  {
    if p.packetId == PacketIdBatterySoc then [p.packetId, p.parsedValue]
    else [p.packetId, p.parsedValue / 256, p.parsedValue % 256]
  }

  /** Decoding the encoding of a packet gives the packet back, whatever
      bytes follow it in the notification. */
  lemma DecodeEncode(p: Packet, trailer: seq<byte>)
    requires Encodable(p)
    ensures ParsePacket(Encode(p) + trailer) == Some(p)
  {
    var frame := Encode(p) + trailer;
    if p.packetId == PacketIdTemperature {
      assert frame[1..][..2] == [p.parsedValue / 256, p.parsedValue % 256];
    }
  }

  /** Conversely, every decoded packet is encodable and its encoding is the
      prefix of the frame it came from: the decoder reads nothing else. */
  lemma EncodeDecode(data: seq<byte>)
    requires ParsePacket(data).Some?
    ensures Encodable(ParsePacket(data).value)
    ensures |Encode(ParsePacket(data).value)| <= |data|
    ensures data[..|Encode(ParsePacket(data).value)|] == Encode(ParsePacket(data).value)
  {
    var p := ParsePacket(data).value;
    if p.packetId == PacketIdTemperature {
      assert data[1..][..2] == [data[1], data[2]];
    }
  }

  /** The three ways a frame decodes to nothing, and no others. */
  lemma ParsePacketRejects(data: seq<byte>)
    ensures ParsePacket(data).None? <==>
              || |data| < 2
              || !IsKnownId(data[0])
              || (data[0] == PacketIdTemperature && |data| < 3)
  {
    if |data| >= 3 && data[0] == PacketIdTemperature {
      assert UnpackU16BE(data[1..][..2]).Some?;
    }
  }

  /** A state-of-charge frame decodes to exactly its second byte; nothing
      clamps it to 100. */
  lemma DecodeBatterySoc(data: seq<byte>)
    requires |data| >= 2 && data[0] == PacketIdBatterySoc
    ensures ParsePacket(data) == Some(Packet(PacketIdBatterySoc, data[1]))
  {
  }

  /** A temperature frame decodes to the big-endian value of bytes 1 and 2;
      the length guard makes the unpacking failure unreachable. */
  lemma DecodeTemperature(data: seq<byte>)
    requires |data| >= 3 && data[0] == PacketIdTemperature
    ensures UnpackU16BE(data[1..][..2]).Some?
    ensures ParsePacket(data) == Some(Packet(PacketIdTemperature, data[1] as int * 256 + data[2] as int))
  {
  }

  /** The delimiter's identifier 0xEE is not interpreted, so the decoder
      rejects it even without the handler's explicit check. */
  lemma DelimiterDecodesToNothing()
    ensures ParsePacket(FrameDelimiter) == None
  {
  }

  /** Every identifier the protocol lists but this integration leaves
      uninterpreted decodes to nothing, whatever its payload. */
  lemma IgnoredIdsDecodeToNothing(data: seq<byte>)
    requires |data| >= 1
    requires data[0] in {PacketIdVoltage, PacketIdSpeedRpm, PacketIdCurrentPower,
                         PacketIdPedalCadence, PacketIdMotorStatus}
    ensures ParsePacket(data) == None
  {
  }
}
