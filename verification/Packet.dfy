/** reticulum-patched/src/buffer.rs: bounded output and input cursors over byte slices. */
module Buffers {
  import opened Common

  class OutputBuffer {
    const buffer: array<byte>
    var offset: nat

    ghost predicate Valid()
      reads this
    {
      offset <= buffer.Length
    }

    constructor (buffer: array<byte>)
      ensures Valid() && this.buffer == buffer && offset == 0
    {
      this.buffer := buffer;
      offset := 0;
    }

    function AsSlice(): (s: seq<byte>)
      requires Valid()
      reads this, buffer
      ensures |s| == offset
    {
      buffer[..offset]
    }

    /** All or nothing: a write that does not fit leaves the buffer as it was. */
    method Write(data: seq<byte>) returns (r: Result<nat, RnsError>)
      requires Valid()
      modifies this`offset, buffer
      ensures Valid()
      ensures r == if old(offset) + |data| <= buffer.Length then Ok(|data|) else Err(OutOfMemory)
      ensures AsSlice() == old(AsSlice()) + (if r.Ok? then data else [])
    {
      if |data| == 0 {
        return Ok(0);
      }
      if offset + |data| > buffer.Length {
        return Err(OutOfMemory);
      }
      ghost var before := buffer[..offset];
      for i := 0 to |data|
        invariant offset == old(offset)
        invariant buffer[..offset] == before
        invariant buffer[offset..offset + i] == data[..i]
      {
        buffer[offset + i] := data[i];
        assert buffer[offset..offset + i] == data[..i];
        assert buffer[offset..offset + i + 1] == buffer[offset..offset + i] + [data[i]];
      }
      assert buffer[..offset + |data|] == buffer[..offset] + buffer[offset..offset + |data|];
      offset := offset + |data|;
      return Ok(|data|);
    }

    method WriteByte(b: byte) returns (r: Result<nat, RnsError>)
      requires Valid()
      modifies this`offset, buffer
      ensures Valid()
      ensures r == if old(offset) + 1 <= buffer.Length then Ok(1) else Err(OutOfMemory)
      ensures AsSlice() == old(AsSlice()) + (if r.Ok? then [b] else [])
    {
      r := Write([b]);
    }
  }

  class InputBuffer {
    const buffer: seq<byte>
    var offset: nat

    ghost predicate Valid()
      reads this
    {
      offset <= |buffer|
    }

    constructor (buffer: seq<byte>)
      ensures Valid() && this.buffer == buffer && offset == 0
    {
      this.buffer := buffer;
      offset := 0;
    }

    function BytesLeft(): nat
      requires Valid()
      reads this
    {
      |buffer| - offset
    }

    method Read(size: nat) returns (r: Result<seq<byte>, RnsError>)
      requires Valid()
      modifies this`offset
      ensures Valid()
      ensures r == if size <= old(BytesLeft()) then Ok(buffer[old(offset)..old(offset) + size]) else Err(OutOfMemory)
      ensures offset == old(offset) + (if r.Ok? then size else 0)
    {
      if offset + size > |buffer| {
        return Err(OutOfMemory);
      }
      r := Ok(buffer[offset..offset + size]);
      offset := offset + size;
    }

    method ReadByte() returns (r: Result<byte, RnsError>)
      requires Valid()
      modifies this`offset
      ensures Valid()
      ensures r == if old(offset) < |buffer| then Ok(buffer[old(offset)]) else Err(OutOfMemory)
      ensures offset == old(offset) + (if r.Ok? then 1 else 0)
    {
      var bytes := Read(1);
      match bytes
      case Ok(b) => r := Ok(b[0]);
      case Err(e) => r := Err(e);
    }
  }
}

/** reticulum-patched/src/packet.rs and serde.rs: the bit-packed packet header and the packet layout. */
module Packets {
  import opened Common
  import opened Buffers

  const PACKET_MDU: nat := 2048

  datatype IfacFlag = Open | Authenticated
  datatype HeaderType = Type1 | Type2
  datatype PropagationType = Broadcast | Transport | Reserved1 | Reserved2
  datatype DestinationType = Single | Group | Plain | Link
  datatype PacketType = Data | Announce | LinkRequest | Proof

  datatype PacketContext =
    | NoContext
    | Resource
    | ResourceAdvertisement
    | ResourceRequest
    | ResourceHashUpdate
    | ResourceProof
    | ResourceInitiatorCancel
    | ResourceReceiverCancel
    | CacheRequest
    | Request
    | Response
    | PathResponse
    | Command
    | CommandStatus
    | Channel
    | KeepAlive
    | LinkIdentify
    | LinkClose
    | LinkProof
    | LinkRTT
    | LinkRequestProof

  datatype Header = Header(
    ifacFlag: IfacFlag,
    headerType: HeaderType,
    propagationType: PropagationType,
    destinationType: DestinationType,
    packetType: PacketType,
    hops: byte)

  /** The payload of a packet sits in a StaticBuffer of PACKET_MDU bytes, so it is never longer. */
  type Payload = s: seq<byte> | |s| <= PACKET_MDU

  datatype Packet = Packet(
    header: Header,
    ifac: Option<seq<byte>>,
    destination: Address,
    transport: Option<Address>,
    context: PacketContext,
    data: Payload)

  function PropagationCode(t: PropagationType): byte {
    match t case Broadcast => 0 case Transport => 1 case Reserved1 => 2 case Reserved2 => 3
  }

  function PropagationFrom(v: byte): PropagationType {
    match v % 4 case 0 => Broadcast case 1 => Transport case 2 => Reserved1 case _ => Reserved2
  }

  function DestinationCode(t: DestinationType): byte {
    match t case Single => 0 case Group => 1 case Plain => 2 case Link => 3
  }

  function DestinationFrom(v: byte): DestinationType {
    match v % 4 case 0 => Single case 1 => Group case 2 => Plain case _ => Link
  }

  function PacketTypeCode(t: PacketType): byte {
    match t case Data => 0 case Announce => 1 case LinkRequest => 2 case Proof => 3
  }

  function PacketTypeFrom(v: byte): PacketType {
    match v % 4 case 0 => Data case 1 => Announce case 2 => LinkRequest case _ => Proof
  }

  /** The five fields occupy disjoint bits (7, 6, 5-4, 3-2, 1-0), so the shifted `or` is a sum. */
  function ToMeta(h: Header): byte {
    (if h.ifacFlag.Open? then 0 else 128)
    + (if h.headerType.Type1? then 0 else 64)
    + PropagationCode(h.propagationType) * 16
    + DestinationCode(h.destinationType) * 4
    + PacketTypeCode(h.packetType)
  }

  function FromMeta(meta: byte): Header {
    Header(
      if meta / 128 == 1 then Authenticated else Open,
      if (meta / 64) % 2 == 1 then Type2 else Type1,
      PropagationFrom(meta / 16),
      DestinationFrom(meta / 4),
      PacketTypeFrom(meta),
      0)
  }

  function ContextCode(c: PacketContext): byte {
    match c
    case NoContext => 0x00
    case Resource => 0x01
    case ResourceAdvertisement => 0x02
    case ResourceRequest => 0x03
    case ResourceHashUpdate => 0x04
    case ResourceProof => 0x05
    case ResourceInitiatorCancel => 0x06
    case ResourceReceiverCancel => 0x07
    case CacheRequest => 0x08
    case Request => 0x09
    case Response => 0x0A
    case PathResponse => 0x0B
    case Command => 0x0C
    case CommandStatus => 0x0D
    case Channel => 0x0E
    case KeepAlive => 0xFA
    case LinkIdentify => 0xFB
    case LinkClose => 0xFC
    case LinkProof => 0xFD
    case LinkRTT => 0xFE
    case LinkRequestProof => 0xFF
  }

  function ContextFrom(v: byte): PacketContext {
    match v
    case 0x01 => Resource
    case 0x02 => ResourceAdvertisement
    case 0x03 => ResourceRequest
    case 0x04 => ResourceHashUpdate
    case 0x05 => ResourceProof
    case 0x06 => ResourceInitiatorCancel
    case 0x07 => ResourceReceiverCancel
    case 0x08 => CacheRequest
    case 0x09 => Request
    case 0x0A => Response
    case 0x0B => PathResponse
    case 0x0C => Command
    case 0x0D => CommandStatus
    case 0x0E => Channel
    case 0xFA => KeepAlive
    case 0xFB => LinkIdentify
    case 0xFC => LinkClose
    case 0xFD => LinkProof
    case 0xFE => LinkRTT
    case 0xFF => LinkRequestProof
    case _ => NoContext
  }

  /** The shifts and masks of the header read back the five packed fields. */
  lemma FieldsOfMeta(a: byte, b: byte, c: byte, d: byte, e: byte)
    requires a < 2 && b < 2 && c < 4 && d < 4 && e < 4
    ensures var m := a * 128 + b * 64 + c * 16 + d * 4 + e;
            && m < 256
            && m / 128 == a && (m / 64) % 2 == b && (m / 16) % 4 == c && (m / 4) % 4 == d && m % 4 == e
  {
    var m := a * 128 + b * 64 + c * 16 + d * 4 + e;
    assert m / 4 == a * 32 + b * 16 + c * 4 + d;
    assert m / 16 == a * 8 + b * 4 + c;
    assert m / 64 == a * 2 + b;
  }

  lemma HeaderOfMeta(h: Header)
    ensures FromMeta(ToMeta(h)) == h.(hops := 0)
  {
    FieldsOfMeta(if h.ifacFlag.Open? then 0 else 1, if h.headerType.Type1? then 0 else 1,
                 PropagationCode(h.propagationType), DestinationCode(h.destinationType), PacketTypeCode(h.packetType));
  }

  lemma CodesOfFields(v: byte)
    ensures PropagationCode(PropagationFrom(v)) == v % 4
    ensures DestinationCode(DestinationFrom(v)) == v % 4
    ensures PacketTypeCode(PacketTypeFrom(v)) == v % 4
  {
  }

  lemma DigitsOfMeta(meta: byte)
    ensures meta == (meta / 128) * 128 + ((meta / 64) % 2) * 64 + ((meta / 16) % 4) * 16 + ((meta / 4) % 4) * 4
        + meta % 4
    ensures meta / 128 < 2
  {
    var q1 := meta / 4;
    var q2 := q1 / 4;
    var q3 := q2 / 4;
    assert q2 == meta / 16 && q3 == meta / 64 && q3 / 2 == meta / 128;
  }

  lemma MetaOfHeader(meta: byte)
    ensures ToMeta(FromMeta(meta)) == meta
  {
    DigitsOfMeta(meta);
    CodesOfFields(meta / 16);
    CodesOfFields(meta / 4);
    CodesOfFields(meta);
  }

  /** Two headers share a meta byte only if they agree in everything but the hop count. */
  lemma MetaInjective(h: Header, k: Header)
    ensures ToMeta(h) == ToMeta(k) <==> h.(hops := 0) == k.(hops := 0)
  {
    HeaderOfMeta(h);
    HeaderOfMeta(k);
  }

  /** The bytes of a packet on the wire. */
  function Serialized(p: Packet): (s: seq<byte>)
    ensures 19 + |p.data| <= |s| <= 35 + |p.data|
  {
    [ToMeta(p.header), p.header.hops]
    + (if p.header.headerType.Type2? && p.transport.Some? then p.transport.value else [])
    + p.destination
    + [ContextCode(p.context)]
    + p.data
  }

  /** Panicked: the slice `buffer[..len]` with len > PACKET_MDU taken by the payload read. */
  datatype ParseResult = Parsed(packet: Packet) | Rejected(error: RnsError) | Panicked

  function Deserialized(s: seq<byte>): ParseResult {
    if |s| < 2 then Rejected(OutOfMemory) else
    var header := FromMeta(s[0]).(hops := s[1]);
    var skip := if header.headerType.Type2? then 16 else 0;
    if |s| < 19 + skip then Rejected(OutOfMemory)
    else if |s| - (19 + skip) > PACKET_MDU then Panicked
    else
      Parsed(Packet(header, None, s[2 + skip..18 + skip],
                    if header.headerType.Type2? then Some(s[2..18]) else None,
                    ContextFrom(s[18 + skip]), s[19 + skip..]))
  }

  ghost predicate WellFormed(p: Packet) {
    p.header.headerType.Type2? <==> p.transport.Some?
  }

  /**
   * The layout loses nothing but the access code (which is never written) exactly for packets
   * whose header type agrees with the presence of a transport address.
   */
  lemma SerdeRoundTripIff(p: Packet)
    ensures Deserialized(Serialized(p)) == Parsed(p.(ifac := None)) <==> WellFormed(p)
  {
    HeaderOfMeta(p.header);
    var s := Serialized(p);
    assert s[0] == ToMeta(p.header) && s[1] == p.header.hops;
    if WellFormed(p) {
      var skip := if p.header.headerType.Type2? then 16 else 0;
      var route := if p.header.headerType.Type2? then p.transport.value else [];
      assert s == ([s[0], s[1]] + route) + (p.destination + ([ContextCode(p.context)] + p.data));
      assert s[2 + skip..18 + skip] == p.destination;
      assert s[18 + skip] == ContextCode(p.context);
      assert s[19 + skip..] == p.data;
      if p.header.headerType.Type2? {
        assert s[2..18] == p.transport.value;
      }
    }
  }

  /** Where each field is: the transport address, if any, comes before the destination. */
  lemma PacketBytes(p: Packet)
    requires WellFormed(p)
    ensures var s := Serialized(p);
            var at := if p.header.headerType.Type2? then 18 else 2;
            && |s| == at + 17 + |p.data|
            && (s[0] >= 128 <==> p.header.ifacFlag.Authenticated?)
            && ((s[0] / 64) % 2 == 1 <==> p.header.headerType.Type2?)
            && s[1] == p.header.hops
            && (p.header.headerType.Type2? ==> s[2..18] == p.transport.value)
            && s[at..at + 16] == p.destination
            && s[at + 17..] == p.data
  {
    SerdeRoundTripIff(p);
    HeaderOfMeta(p.header);
  }

  /**
   * Which bytes are a packet: at least 19, or 35 with bit 6 of the first set, and at most 2048 more. What was read
   * is written back as the same bytes iff the context is a known one.
   */
  lemma PacketReadIff(s: seq<byte>)
    ensures var least := if s != [] && (s[0] / 64) % 2 == 1 then 35 else 19;
            && (Deserialized(s).Rejected? <==> |s| < least)
            && (Deserialized(s).Panicked? <==> |s| > least + 2048)
    ensures Deserialized(s).Parsed? ==>
              var context := s[if (s[0] / 64) % 2 == 1 then 34 else 18];
              (Serialized(Deserialized(s).packet) == s <==> context <= 0x0E || context >= 0xFA)
  {
    if Deserialized(s).Parsed? {
      MetaOfHeader(s[0]);
      var p := Deserialized(s).packet;
      var at := if p.header.headerType.Type2? then 18 else 2;
      var written := Serialized(p);
      assert ToMeta(p.header) == s[0];
      assert s == s[..at] + s[at..at + 16] + [s[at + 16]] + s[at + 17..];
      assert written == s[..at] + s[at..at + 16] + [ContextCode(p.context)] + s[at + 17..];
      assert written[at + 16] == ContextCode(p.context);
    }
  }

  /** Packet::serialize: five writes, stopping at the first that does not fit. */
  method Serialize(p: Packet, out: OutputBuffer) returns (r: Result<nat, RnsError>)
    requires out.Valid()
    modifies out`offset, out.buffer
    ensures out.Valid()
    ensures r.Ok? <==> old(out.offset) + |Serialized(p)| <= out.buffer.Length
    ensures r.Err? ==> r.error == OutOfMemory
    ensures r.Ok? ==> out.AsSlice() == old(out.AsSlice()) + Serialized(p) && r.value == |p.data|
  {
    ghost var start := out.AsSlice();
    r := out.Write([ToMeta(p.header), p.header.hops]);
    if r.Err? { return; }
    if p.header.headerType.Type2? && p.transport.Some? {
      r := out.Write(p.transport.value);
      if r.Err? { return; }
    }
    ghost var head := start + [ToMeta(p.header), p.header.hops]
                      + (if p.header.headerType.Type2? && p.transport.Some? then p.transport.value else []);
    assert out.AsSlice() == head;
    r := SerializeRest(p, out);
    assert r.Ok? ==> out.AsSlice() == start + Serialized(p);
  }

  /** The fields behind the addresses' optional part: destination, context, payload. */
  method SerializeRest(p: Packet, out: OutputBuffer) returns (r: Result<nat, RnsError>)
    requires out.Valid()
    modifies out`offset, out.buffer
    ensures out.Valid()
    ensures r.Ok? <==> old(out.offset) + 17 + |p.data| <= out.buffer.Length
    ensures r.Err? ==> r.error == OutOfMemory
    ensures r.Ok? ==> out.AsSlice() == old(out.AsSlice()) + p.destination + [ContextCode(p.context)] + p.data
    ensures r.Ok? ==> r.value == |p.data|
  {
    r := out.Write(p.destination);
    if r.Err? { return; }
    r := out.Write([ContextCode(p.context)]);
    if r.Err? { return; }
    r := out.Write(p.data);
  }

  /** Packet::deserialize: a header, an optional transport address, a destination, a context, the rest. */
  method Deserialize(input: InputBuffer) returns (r: ParseResult)
    requires input.Valid()
    modifies input`offset
    ensures r == Deserialized(input.buffer[old(input.offset)..])
  {
    ghost var start := input.offset;
    var meta := input.ReadByte();
    if meta.Err? { return Rejected(meta.error); }
    var header := FromMeta(meta.value);
    var hops := input.ReadByte();
    if hops.Err? { return Rejected(hops.error); }
    header := header.(hops := hops.value);
    var transport: Option<Address> := None;
    if header.headerType.Type2? {
      var address := input.Read(16);
      if address.Err? { return Rejected(address.error); }
      transport := Some(address.value);
    }
    ghost var skip := if header.headerType.Type2? then 16 else 0;
    var destination := input.Read(16);
    if destination.Err? { return Rejected(destination.error); }
    var context := input.ReadByte();
    if context.Err? { return Rejected(context.error); }
    if input.BytesLeft() > PACKET_MDU {
      return Panicked;
    }
    var data := input.Read(input.BytesLeft());
    ghost var whole := input.buffer[start..];
    assert transport.Some? ==> whole[2..18] == transport.value;
    assert whole[2 + skip..18 + skip] == input.buffer[start + 2 + skip..start + 18 + skip];
    assert whole[19 + skip..] == input.buffer[start + 19 + skip..];
    return Parsed(Packet(header, None, destination.value, transport, ContextFrom(context.value), data.value));
  }
}
