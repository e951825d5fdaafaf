/** reticulum-patched/src/iface/hdlc.rs: octet stuffing as in section 4.2 of RFC 1662, without a checksum. */
module Hdlc {
  import opened Common
  import opened Buffers

  const FLAG: byte := 0x7e
  const ESCAPE: byte := 0x7d

  /** `b ^ 0b0010_0000`. */
  function ToggleBit5(b: byte): (r: byte)
    ensures r != b
  {
    if (b / 32) % 2 == 0 then b + 32 else b - 32
  }

  function StuffByte(b: byte): seq<byte> {
    if b == FLAG || b == ESCAPE then [ESCAPE, ToggleBit5(b)] else [b]
  }

  function Stuff(data: seq<byte>): (s: seq<byte>)
    ensures |data| <= |s| <= 2 * |data|
    ensures FLAG !in s
  {
    if data == [] then [] else StuffByte(data[0]) + Stuff(data[1..])
  }

  /** The whole frame. */
  function Frame(data: seq<byte>): seq<byte> {
    [FLAG] + Stuff(data) + [FLAG]
  }

  /** What a decoder in the given state recovers from the bytes still to come; None if no closing flag is met. */
  function Unstuff(data: seq<byte>, started: bool, escape: bool): Option<seq<byte>> {
    if data == [] then None
    else if escape then Prepend([ToggleBit5(data[0])], Unstuff(data[1..], started, false))
    else if data[0] == FLAG then
      if started then Some([]) else Unstuff(data[1..], true, false)
    else if data[0] == ESCAPE then Unstuff(data[1..], started, true)
    else Prepend([data[0]], Unstuff(data[1..], started, false))
  }

  function Prepend(head: seq<byte>, tail: Option<seq<byte>>): Option<seq<byte>> {
    if tail.Some? then Some(head + tail.value) else None
  }

  lemma PrependTwice(done: seq<byte>, x: byte, tail: Option<seq<byte>>)
    ensures Prepend(done, Prepend([x], tail)) == Prepend(done + [x], tail)
  {
    if tail.Some? {
      assert done + ([x] + tail.value) == (done + [x]) + tail.value;
    }
  }

  lemma {:induction false} StuffConcat(a: seq<byte>, b: seq<byte>)
    ensures Stuff(a + b) == Stuff(a) + Stuff(b)
  {
    if a == [] {
      assert a + b == b;
    } else {
      assert (a + b)[1..] == a[1..] + b;
      StuffConcat(a[1..], b);
    }
  }

  lemma StuffSplit(data: seq<byte>, i: nat)
    requires i < |data|
    ensures Stuff(data[..i + 1]) == Stuff(data[..i]) + StuffByte(data[i])
    ensures |Stuff(data[..i + 1])| <= |Stuff(data)|
  {
    assert data[..i + 1] == data[..i] + [data[i]];
    StuffConcat(data[..i], [data[i]]);
    assert Stuff([data[i]]) == StuffByte(data[i]) + Stuff([]);
    assert data == data[..i + 1] + data[i + 1..];
    StuffConcat(data[..i + 1], data[i + 1..]);
  }

  /** Inside a frame, stuffed data decodes to itself, whatever follows the closing flag. */
  lemma {:induction false} UnstuffStuff(data: seq<byte>, rest: seq<byte>)
    ensures Unstuff(Stuff(data) + [FLAG] + rest, true, false) == Some(data)
  {
    var s := Stuff(data) + [FLAG] + rest;
    if data == [] {
      assert s[0] == FLAG;
    } else {
      var tail := Stuff(data[1..]) + [FLAG] + rest;
      UnstuffStuff(data[1..], rest);
      assert s == StuffByte(data[0]) + tail;
      if data[0] == FLAG || data[0] == ESCAPE {
        assert s[1..] == [ToggleBit5(data[0])] + tail;
        assert s[1..][1..] == tail;
        assert ToggleBit5(ToggleBit5(data[0])) == data[0];
      } else {
        assert s[1..] == tail;
      }
      assert [data[0]] + data[1..] == data;
    }
  }

  /** Decoding a frame gives back the data, and frames of different data differ. */
  lemma FrameRoundTrip(data: seq<byte>)
    ensures Unstuff(Frame(data), false, false) == Some(data)
  {
    UnstuffStuff(data, []);
    assert Frame(data)[1..] == Stuff(data) + [FLAG] + [];
  }

  /** On the wire: 0x7e at both ends and nowhere between, 0x7d before the two octets that are sent changed. */
  lemma FrameOctets(data: seq<byte>, b: byte)
    ensures var f := Frame(data);
            && f[0] == 0x7e && f[|f| - 1] == 0x7e && 0x7e !in f[1..|f| - 1]
    ensures Frame([b]) == if b == 0x7e then [0x7e, 0x7d, 0x5e, 0x7e]
                          else if b == 0x7d then [0x7e, 0x7d, 0x5d, 0x7e]
                          else [0x7e, b, 0x7e]
  {
    assert Frame(data)[1..|Frame(data)| - 1] == Stuff(data);
    assert Stuff([b]) == StuffByte(b) + [];
  }

  /** The body of the encoding loop: one byte, escaped where needed. */
  method WriteStuffed(b: byte, out: OutputBuffer) returns (r: Result<nat, RnsError>)
    requires out.Valid()
    modifies out`offset, out.buffer
    ensures out.Valid()
    ensures r.Ok? <==> old(out.offset) + |StuffByte(b)| <= out.buffer.Length
    ensures r.Ok? ==> out.AsSlice() == old(out.AsSlice()) + StuffByte(b)
  {
    if b == FLAG || b == ESCAPE {
      r := out.Write([ESCAPE, ToggleBit5(b)]);
    } else {
      r := out.WriteByte(b);
    }
  }

  method Encode(data: seq<byte>, out: OutputBuffer) returns (r: Result<nat, RnsError>)
    requires out.Valid()
    modifies out`offset, out.buffer
    ensures out.Valid()
    ensures r.Ok? <==> old(out.offset) + |Frame(data)| <= out.buffer.Length
    ensures r.Ok? ==> out.AsSlice() == old(out.AsSlice()) + Frame(data) && r.value == out.offset
  {
    ghost var before := out.AsSlice();
    r := out.WriteByte(FLAG);
    if r.Err? { return; }
    ghost var sofar: seq<byte> := [FLAG];
    for i := 0 to |data|
      invariant out.Valid()
      invariant sofar == [FLAG] + Stuff(data[..i])
      invariant out.AsSlice() == before + sofar
    {
      StuffSplit(data, i);
      r := WriteStuffed(data[i], out);
      if r.Err? { return; }
      AppendAssociates(before, sofar, StuffByte(data[i]));
      AppendAssociates([FLAG], Stuff(data[..i]), StuffByte(data[i]));
      sofar := sofar + StuffByte(data[i]);
    }
    assert data[..|data|] == data;
    r := out.WriteByte(FLAG);
    if r.Err? { return; }
    AppendAssociates(before, sofar, [FLAG]);
    return Ok(out.offset);
  }

  lemma AppendAssociates(a: seq<byte>, b: seq<byte>, c: seq<byte>)
    ensures (a + b) + c == a + (b + c)
  {
  }

  /** Hdlc::find: the positions of the first two flags. */
  method Find(data: seq<byte>) returns (r: Option<(nat, nat)>)
    ensures r.Some? ==>
      var (i, j) := r.value;
      i < j < |data| && data[i] == FLAG == data[j] && FLAG !in data[..i] && FLAG !in data[i + 1..j]
    ensures r.None? ==> forall i, j :: 0 <= i < j < |data| ==> data[i] != FLAG || data[j] != FLAG
  {
    var start, startIndex := false, 0;
    for i := 0 to |data|
      invariant !start ==> FLAG !in data[..i]
      invariant start ==> startIndex < i && data[startIndex] == FLAG
      invariant start ==> FLAG !in data[..startIndex] && FLAG !in data[startIndex + 1..i]
    {
      if data[i] != FLAG {
        continue;
      }
      if !start {
        startIndex := i;
        start := true;
      } else {
        return Some((startIndex, i));
      }
    }
    if start {
      assert forall k :: 0 <= k < |data| && k != startIndex ==> data[k] != FLAG by {
        forall k | 0 <= k < |data| && k != startIndex
          ensures data[k] != FLAG
        {
          if k < startIndex {
            assert data[k] == data[..startIndex][k];
          } else {
            assert data[k] == data[startIndex + 1..|data|][k - startIndex - 1];
          }
        }
      }
    } else {
      assert data[..|data|] == data;
    }
    return None;
  }

  /** Hdlc::decode; a missing closing flag and a full output buffer give the same error. */
  method Decode(data: seq<byte>, out: OutputBuffer) returns (r: Result<nat, RnsError>)
    requires out.Valid()
    modifies out`offset, out.buffer
    ensures out.Valid()
    ensures var u := Unstuff(data, false, false);
            r.Ok? <==> u.Some? && old(out.offset) + |u.value| <= out.buffer.Length
    ensures r.Err? ==> r.error == OutOfMemory
    ensures r.Ok? ==> out.AsSlice() == old(out.AsSlice()) + Unstuff(data, false, false).value && r.value == out.offset
  {
    var started, finished, escape := false, false, false;
    ghost var before := out.AsSlice();
    ghost var whole := Unstuff(data, false, false);
    ghost var done: seq<byte> := [];
    var i := 0;
    assert data[0..] == data && (whole.Some? ==> [] + whole.value == whole.value);
    while i < |data|
      invariant 0 <= i <= |data| && !finished
      invariant out.Valid() && out.AsSlice() == before + done
      invariant whole == Prepend(done, Unstuff(data[i..], started, escape))
    {
      var b := data[i];
      ghost var rest := data[i + 1..];
      assert data[i..][0] == b && data[i..][1..] == rest;
      if escape || (b != FLAG && b != ESCAPE) {
        var x := if escape then ToggleBit5(b) else b;
        r := out.WriteByte(x);
        PrependTwice(done, x, Unstuff(rest, started, false));
        if r.Err? { return; }
        assert before + done + [x] == before + (done + [x]);
        done := done + [x];
        escape := false;
      } else if b == FLAG {
        if started {
          finished := true;
          assert whole == Some(done + []);
          break;
        }
        started := true;
      } else {
        escape := true;
      }
      i := i + 1;
    }
    if !finished {
      assert data[i..] == [];
      return Err(OutOfMemory);
    }
    return Ok(out.offset);
  }
}

/**
 * reticulum-patched/src/iface/tcp_client.rs: the byte-by-byte sliding window that recovers HDLC
 * frames from a TCP stream, and the transmit side that produces them.
 */
module TcpFraming {
  import opened Common
  import opened Buffers
  import opened Packets
  import opened Hdlc

  /** Two header bytes, two addresses and a context byte around a full payload. */
  const MAX_SERIALIZED: nat := 2 + 16 + 16 + 1 + PACKET_MDU

  /** Every payload byte escaped, between two flags. */
  const MAX_FRAME: nat := 2 * MAX_SERIALIZED + 2

  /** The sizes of the fields of `Packet` add up to this; `size_of::<Packet>()` cannot be smaller. */
  const PACKET_FIELD_BYTES: nat := 6 + 73 + 16 + 17 + 1 + (PACKET_MDU + 8)

  lemma BuffersHoldEveryFrame(sizeOfPacket: nat, p: Packet)
    requires sizeOfPacket >= PACKET_FIELD_BYTES
    ensures |Serialized(p)| <= MAX_SERIALIZED
    ensures |Frame(Serialized(p))| <= MAX_FRAME == 4168 <= 2 * sizeOfPacket
  {
  }

  /**
   * The abstract deframer. `pending` holds the bytes since an opening flag; `stopped` is set when the
   * receive task has panicked; `delivered` is what was sent to the receive channel.
   */
  datatype Rx = Rx(pending: Option<seq<byte>>, stopped: bool, delivered: seq<Packet>)

  function Accept(s: Rx, frame: seq<byte>, size: nat): Rx {
    var raw := Unstuff(frame, false, false);
    if raw.None? || |raw.value| > size then s else
    match Deserialized(raw.value)
    case Parsed(p) => s.(delivered := s.delivered + [p])
    case Rejected(_) => s
    case Panicked => s.(stopped := true)
  }

  /** A frame whose opening flag would leave a window of `size` bytes is forgotten. */
  function Step(s: Rx, b: byte, size: nat): Rx {
    if s.stopped then s
    else if s.pending.None? then
      if b == FLAG then s.(pending := Some([])) else s
    else if b == FLAG then Accept(s.(pending := None), [FLAG] + s.pending.value + [FLAG], size)
    else if |s.pending.value| + 3 <= size then s.(pending := Some(s.pending.value + [b]))
    else s.(pending := None)
  }

  function Run(s: Rx, bytes: seq<byte>, size: nat): Rx
    decreases |bytes|
  {
    if bytes == [] then s else Run(Step(s, bytes[0], size), bytes[1..], size)
  }

  lemma {:induction false} RunConcat(s: Rx, a: seq<byte>, b: seq<byte>, size: nat)
    ensures Run(s, a + b, size) == Run(Run(s, a, size), b, size)
    decreases |a|
  {
    if a == [] {
      assert a + b == b;
    } else {
      assert (a + b)[1..] == a[1..] + b;
      RunConcat(Step(s, a[0], size), a[1..], b, size);
    }
  }

  /** Flag-free bytes that fit in the window pile up behind an opening flag. */
  lemma {:induction false} RunBody(s: Rx, body: seq<byte>, size: nat)
    requires !s.stopped && s.pending.Some? && FLAG !in body
    requires |s.pending.value| + |body| + 2 <= size
    ensures Run(s, body, size) == s.(pending := Some(s.pending.value + body))
    decreases |body|
  {
    if body == [] {
      assert s.pending.value + body == s.pending.value;
    } else {
      var s1 := s.(pending := Some(s.pending.value + [body[0]]));
      assert Step(s, body[0], size) == s1;
      RunBody(s1, body[1..], size);
      assert s1.pending.value + body[1..] == s.pending.value + body;
    }
  }

  lemma RunFrame(s: Rx, data: seq<byte>, size: nat)
    requires !s.stopped && s.pending.None? && |Frame(data)| <= size
    ensures Run(s, Frame(data), size) == Accept(s, Frame(data), size)
  {
    var started := s.(pending := Some([]));
    assert Frame(data) == [FLAG] + (Stuff(data) + [FLAG]);
    assert Step(s, FLAG, size) == started;
    assert Frame(data)[1..] == Stuff(data) + [FLAG];
    RunConcat(started, Stuff(data), [FLAG], size);
    RunBody(started, Stuff(data), size);
    var full := Run(started, Stuff(data), size);
    assert full.pending.value == Stuff(data);
    assert full.(pending := None) == s;
    assert Run(full, [FLAG], size) == Run(Step(full, FLAG, size), [], size);
  }

  /** The byte stream a sender produces for a sequence of packets. */
  function Wire(packets: seq<Packet>): seq<byte> {
    if packets == [] then [] else Frame(Serialized(packets[0])) + Wire(packets[1..])
  }

  /** What arrives: the access code is not transmitted. */
  function Received(packets: seq<Packet>): seq<Packet> {
    seq(|packets|, i requires 0 <= i < |packets| => packets[i].(ifac := None))
  }

  /** One well-formed packet through encoder, stream, window, decoder and parser. */
  lemma PacketDelivered(s: Rx, p: Packet, size: nat)
    requires !s.stopped && s.pending.None? && size >= MAX_FRAME && WellFormed(p)
    ensures Run(s, Frame(Serialized(p)), size) == s.(delivered := s.delivered + [p.(ifac := None)])
  {
    RunFrame(s, Serialized(p), size);
    FrameRoundTrip(Serialized(p));
    SerdeRoundTripIff(p);
  }

  lemma {:induction false} WireDelivers(s: Rx, packets: seq<Packet>, size: nat)
    requires !s.stopped && s.pending.None? && size >= MAX_FRAME
    requires forall p :: p in packets ==> WellFormed(p)
    ensures Run(s, Wire(packets), size) == s.(delivered := s.delivered + Received(packets))
    decreases |packets|
  {
    if packets == [] {
      assert s.delivered + Received(packets) == s.delivered;
    } else {
      var rest := packets[1..];
      var s1 := s.(delivered := s.delivered + [packets[0].(ifac := None)]);
      RunConcat(s, Frame(Serialized(packets[0])), Wire(rest), size);
      PacketDelivered(s, packets[0], size);
      WireDelivers(s1, rest, size);
      assert s1.delivered + Received(rest) == s.delivered + Received(packets);
    }
  }

  // ---------------------------------------------------------------------------------------------
  // Streams that are not aligned with the frames

  /** Between frames, octets other than the flag are skipped. */
  lemma {:induction false} RunSkips(s: Rx, body: seq<byte>, size: nat)
    requires !s.stopped && s.pending.None? && FLAG !in body
    ensures Run(s, body, size) == s
    decreases |body|
  {
    if body != [] {
      RunSkips(s, body[1..], size);
    }
  }

  /** An opening flag that leaves the window is forgotten, and the rest of its frame skipped. */
  lemma {:induction false} RunOverflows(s: Rx, body: seq<byte>, size: nat)
    requires !s.stopped && s.pending.Some? && FLAG !in body
    requires |s.pending.value| + 2 <= size < |s.pending.value| + |body| + 2
    ensures Run(s, body, size) == s.(pending := None)
    decreases |body|
  {
    var s1 := Step(s, body[0], size);
    if |s.pending.value| + 3 <= size {
      RunOverflows(s1, body[1..], size);
    } else {
      RunSkips(s1, body[1..], size);
    }
  }

  /** The window holds a flag that opened no frame. */
  ghost predicate Misaligned(s: Rx) {
    !s.stopped && s.pending == Some([])
  }

  /** A frame is handed over iff it fits the window; one that does not leaves its closing flag behind. */
  lemma FrameFitsIff(s: Rx, data: seq<byte>, size: nat)
    requires !s.stopped && s.pending.None? && size >= 2
    ensures Run(s, Frame(data), size)
         == if |Frame(data)| <= size then Accept(s, Frame(data), size) else s.(pending := Some([]))
  {
    if |Frame(data)| <= size {
      RunFrame(s, data, size);
    } else {
      var started := s.(pending := Some([]));
      assert Step(s, FLAG, size) == started;
      assert Frame(data)[1..] == Stuff(data) + [FLAG];
      RunConcat(started, Stuff(data), [FLAG], size);
      RunOverflows(started, Stuff(data), size);
      assert Run(s, [FLAG], size) == Run(started, [], size);
    }
  }

  /** The frame after such a flag is lost, and leaves its own closing flag behind. */
  lemma FrameLost(s: Rx, data: seq<byte>, size: nat)
    requires Misaligned(s)
    ensures Run(s, Frame(data), size) == s
  {
    var closed := s.(pending := None);
    assert [FLAG] + [] + [FLAG] == [FLAG, FLAG];
    assert Unstuff([FLAG, FLAG], false, false) == Some([]) by {
      assert [FLAG, FLAG][1..] == [FLAG];
    }
    assert Step(s, FLAG, size) == closed;
    assert Frame(data)[1..] == Stuff(data) + [FLAG];
    RunConcat(closed, Stuff(data), [FLAG], size);
    RunSkips(closed, Stuff(data), size);
    assert Run(closed, [FLAG], size) == Run(s, [], size);
  }

  lemma {:induction false} MisalignedLosesAll(s: Rx, packets: seq<Packet>, size: nat)
    requires Misaligned(s)
    ensures Run(s, Wire(packets), size) == s
    decreases |packets|
  {
    if packets != [] {
      var first := Serialized(packets[0]);
      RunConcat(s, Frame(first), Wire(packets[1..]), size);
      FrameLost(s, first, size);
      MisalignedLosesAll(s, packets[1..], size);
    }
  }

  /**
   * A receiver that joins the stream at octet k of a frame gets the packets to come iff no part of that frame
   * is missing or all of it is; otherwise it gets nothing, ever.
   */
  lemma JoinedAt(s: Rx, p: Packet, k: nat, rest: seq<Packet>, size: nat)
    requires !s.stopped && s.pending.None? && size >= MAX_FRAME
    requires WellFormed(p) && (forall q :: q in rest ==> WellFormed(q)) && k <= |Frame(Serialized(p))|
    ensures var frame := Frame(Serialized(p));
            var z := Run(s, frame[k..] + Wire(rest), size);
            z.delivered == s.delivered + (if k == 0 then Received([p] + rest)
                                          else if k == |frame| then Received(rest) else [])
  {
    var frame := Frame(Serialized(p));
    if k == 0 {
      assert ([p] + rest)[1..] == rest;
      assert frame[k..] + Wire(rest) == Wire([p] + rest);
      WireDelivers(s, [p] + rest, size);
    } else if k == |frame| {
      assert frame[k..] + Wire(rest) == Wire(rest);
      WireDelivers(s, rest, size);
    } else {
      var body := Stuff(Serialized(p))[k - 1..];
      var open := s.(pending := Some([]));
      assert frame[k..] == body + [FLAG];
      assert Step(s, FLAG, size) == open;
      assert Run(s, [FLAG], size) == Run(open, [], size);
      RunConcat(s, frame[k..], Wire(rest), size);
      RunConcat(s, body, [FLAG], size);
      RunSkips(s, body, size);
      MisalignedLosesAll(open, rest, size);
    }
  }

  /** The reads of a connection, one after the other. */
  function RunReads(s: Rx, chunks: seq<seq<byte>>, size: nat): Rx
    decreases |chunks|
  {
    if chunks == [] then s else RunReads(Run(s, chunks[0], size), chunks[1..], size)
  }

  /** How the stream is cut into reads makes no difference. */
  lemma {:induction false} ReadsJoin(s: Rx, chunks: seq<seq<byte>>, size: nat)
    ensures RunReads(s, chunks, size) == Run(s, Flatten(chunks), size)
    decreases |chunks|
  {
    if chunks != [] {
      RunConcat(s, chunks[0], Flatten(chunks[1..]), size);
      ReadsJoin(Run(s, chunks[0], size), chunks[1..], size);
    }
  }

  /**
   * End to end: for every sequence of well-formed packets and every way of cutting the stream into
   * reads, exactly those packets are delivered, in order, and the window is clean again.
   */
  lemma StreamDelivers(packets: seq<Packet>, chunks: seq<seq<byte>>, size: nat)
    requires size >= MAX_FRAME
    requires forall p :: p in packets ==> WellFormed(p)
    requires Flatten(chunks) == Wire(packets)
    ensures RunReads(Rx(None, false, []), chunks, size) == Rx(None, false, Received(packets))
  {
    ReadsJoin(Rx(None, false, []), chunks, size);
    WireDelivers(Rx(None, false, []), packets, size);
    assert [] + Received(packets) == Received(packets);
  }

  /** The transmit task: serialise into one buffer, frame into another. */
  method Transmit(p: Packet, size: nat) returns (r: Option<seq<byte>>)
    ensures r.Some? ==> r.value == Frame(Serialized(p))
    ensures r.Some? <==> |Frame(Serialized(p))| <= size
    ensures size >= MAX_FRAME ==> r.Some?
  {
    var txBuffer := new byte[size](_ => 0);
    var output := new OutputBuffer(txBuffer);
    var serialized := Serialize(p, output);
    if serialized.Err? { return None; }
    assert output.AsSlice() == Serialized(p);
    var hdlcBuffer := new byte[size](_ => 0);
    var hdlcOutput := new OutputBuffer(hdlcBuffer);
    var framed := Encode(output.AsSlice(), hdlcOutput);
    if framed.Err? { return None; }
    assert hdlcOutput.AsSlice() == Frame(Serialized(p));
    return Some(hdlcOutput.AsSlice());
  }

  /** The window seen between two bytes: new bytes enter at size - 1 and everything above is zero. */
  ghost predicate Window(rx: seq<byte>, size: nat, pending: Option<seq<byte>>)
    requires size >= 2
  {
    && |rx| == size + size / 2
    && (forall i :: size - 1 <= i < |rx| ==> rx[i] == 0)
    && match pending
       case None => forall i :: 0 <= i < size - 1 ==> rx[i] != FLAG
       case Some(p) =>
         && |p| <= size - 2
         && rx[size - 2 - |p|] == FLAG
         && rx[size - 1 - |p|..size - 1] == p
         && forall i :: 0 <= i < size - 1 && i != size - 2 - |p| ==> rx[i] != FLAG
  }

  /** The array after b was written at size - 1 and everything moved left by one, cell by cell. */
  ghost predicate ShiftedIn(rx: seq<byte>, size: nat, b: byte, shifted: seq<byte>)
    requires 2 <= size < |rx|
  {
    && |shifted| == |rx|
    && (forall i :: 0 <= i < size - 2 ==> shifted[i] == rx[i + 1])
    && shifted[size - 2] == b
    && (forall i :: size - 1 <= i < |rx| ==> shifted[i] == rx[if i + 1 < |rx| then i + 1 else i])
  }

  /** Between frames: the window holds a flag only if the new byte is one. */
  lemma WindowShiftsIdle(rx: seq<byte>, size: nat, b: byte, shifted: seq<byte>)
    requires size >= 2 && Window(rx, size, None) && ShiftedIn(rx, size, b, shifted)
    ensures Window(shifted, size, if b == FLAG then Some([]) else None)
  {
    forall i | 0 <= i < size - 2
      ensures shifted[i] != FLAG
    {
      assert shifted[i] == rx[i + 1];
    }
  }

  /** Inside a frame: the opening flag and the bytes behind it move on, or the flag leaves the window. */
  lemma WindowShiftsFrame(rx: seq<byte>, size: nat, p: seq<byte>, b: byte, shifted: seq<byte>)
    requires size >= 2 && Window(rx, size, Some(p)) && b != FLAG && ShiftedIn(rx, size, b, shifted)
    ensures Window(shifted, size, if |p| + 3 <= size then Some(p + [b]) else None)
  {
    forall i | 0 <= i < size - 1 && i != size - 3 - |p|
      ensures shifted[i] != FLAG
    {
      assert i < size - 2 ==> shifted[i] == rx[i + 1];
    }
    if |p| + 3 <= size {
      assert shifted[size - 3 - |p|] == rx[size - 2 - |p|] == FLAG;
      forall k | 0 <= k < |p|
        ensures shifted[size - 2 - |p| + k] == p[k]
      {
        assert p[k] == rx[size - 1 - |p|..size - 1][k] == rx[size - 1 - |p| + k];
      }
      assert shifted[size - 2 - |p|..size - 1] == p + [b];
    }
  }

  /** The receive task of one connection. */
  class Receiver {
    const size: nat
    const rxBuffer: array<byte>
    const hdlcBuffer: array<byte>
    var stopped: bool
    var delivered: seq<Packet>
    ghost var pending: Option<seq<byte>>

    ghost predicate Valid()
      reads this, rxBuffer
    {
      && size >= 2
      && rxBuffer != hdlcBuffer
      && hdlcBuffer.Length == size
      && (!stopped ==> Window(rxBuffer[..], size, pending))
    }

    ghost function State(): Rx
      reads this
    {
      Rx(pending, stopped, delivered)
    }

    constructor (size: nat)
      requires size >= 2
      ensures Valid() && this.size == size && State() == Rx(None, false, [])
      ensures fresh(rxBuffer) && fresh(hdlcBuffer)
    {
      this.size := size;
      rxBuffer := new byte[size + size / 2](_ => 0);
      hdlcBuffer := new byte[size](_ => 0);
      stopped := false;
      delivered := [];
      pending := None;
    }

    /** Decode one complete frame found in the window and hand over the packet, if it is one. */
    method HandleFrame(frame: seq<byte>)
      requires hdlcBuffer.Length == size && rxBuffer != hdlcBuffer
      modifies this`stopped, this`delivered, hdlcBuffer
      ensures State() == Accept(old(State()), frame, size)
    {
      var output := new OutputBuffer(hdlcBuffer);
      var decoded := Decode(frame, output);
      if decoded.Ok? {
        assert output.AsSlice() == Unstuff(frame, false, false).value;
        var input := new InputBuffer(output.AsSlice());
        var parsed := Deserialize(input);
        match parsed
        case Parsed(p) => delivered := delivered + [p];
        case Rejected(_) =>
        case Panicked => stopped := true;
      }
    }

    /** `rx_buffer[from..to].fill(0)`. */
    method Fill(from: nat, to: nat)
      requires from <= to <= rxBuffer.Length
      modifies rxBuffer
      ensures forall i :: 0 <= i < rxBuffer.Length ==> rxBuffer[i] == if from <= i < to then 0 else old(rxBuffer[i])
    {
      for k := from to to
        invariant forall i :: 0 <= i < rxBuffer.Length ==> rxBuffer[i] == if from <= i < k then 0 else old(rxBuffer[i])
      {
        rxBuffer[k] := 0;
      }
    }

    /** `rx_buffer.copy_within(1.., 0)`. */
    method ShiftLeft()
      requires rxBuffer.Length > 0
      modifies rxBuffer
      ensures forall i :: 0 <= i < rxBuffer.Length - 1 ==> rxBuffer[i] == old(rxBuffer[i + 1])
      ensures rxBuffer[rxBuffer.Length - 1] == old(rxBuffer[rxBuffer.Length - 1])
    {
      for k := 0 to rxBuffer.Length - 1
        invariant forall i :: 0 <= i < k ==> rxBuffer[i] == old(rxBuffer[i + 1])
        invariant forall i :: k <= i < rxBuffer.Length ==> rxBuffer[i] == old(rxBuffer[i])
      {
        rxBuffer[k] := rxBuffer[k + 1];
      }
    }

    /** A frame was found: it is handed over and zero-filled. */
    method TakeFrame(ghost rx0: seq<byte>, first: nat, last: nat)
      requires size >= 2 && rxBuffer != hdlcBuffer && hdlcBuffer.Length == size && !stopped
      requires Window(rx0, size, pending) && rxBuffer[..] == rx0[size - 1 := FLAG]
      requires pending.Some? && last == size - 1 && first == size - 2 - |pending.value|
      modifies this`stopped, this`delivered, this`pending, rxBuffer, hdlcBuffer
      ensures Valid()
      ensures State() == Step(old(State()), FLAG, size)
    {
      assert rxBuffer[first..last + 1] == [FLAG] + pending.value + [FLAG];
      pending := None;
      HandleFrame(rxBuffer[first..last + 1]);
      if !stopped {
        Fill(first, last + 1);
      }
    }

    /** No frame yet: everything moves left. */
    method MoveOn(ghost rx0: seq<byte>, b: byte)
      requires size >= 2 && rxBuffer != hdlcBuffer && hdlcBuffer.Length == size && !stopped
      requires Window(rx0, size, pending) && rxBuffer[..] == rx0[size - 1 := b]
      requires pending.Some? ==> b != FLAG
      modifies this`pending, rxBuffer
      ensures Valid()
      ensures State() == Step(old(State()), b, size)
    {
      ShiftLeft();
      assert ShiftedIn(rx0, size, b, rxBuffer[..]);
      if pending.None? {
        WindowShiftsIdle(rx0, size, b, rxBuffer[..]);
      } else {
        WindowShiftsFrame(rx0, size, pending.value, b, rxBuffer[..]);
      }
      pending := Step(old(State()), b, size).pending;
    }

    /** One byte of the stream through the window; the loop body refines one abstract step. */
    method PushByte(b: byte)
      requires Valid()
      modifies this`stopped, this`delivered, this`pending, rxBuffer, hdlcBuffer
      ensures Valid()
      ensures State() == Step(old(State()), b, size)
    {
      if stopped {
        return;
      }
      ghost var rx0 := rxBuffer[..];
      rxBuffer[size - 1] := b;
      ghost var rx1 := rxBuffer[..];
      assert rx1 == rx0[size - 1 := b];
      var found := Find(rxBuffer[..]);
      if found.Some? {
        WindowHasFrame(rx0, b, found.value.0, found.value.1);
        TakeFrame(rx0, found.value.0, found.value.1);
      } else {
        if pending.Some? {
          assert rx1[size - 2 - |pending.value|] == FLAG && rx1[size - 1] == b;
        }
        MoveOn(rx0, b);
      }
    }

    lemma WindowHasFrame(rx: seq<byte>, b: byte, first: nat, last: nat)
      requires size >= 2 && Window(rx, size, pending)
      requires first < last < |rx|
      requires rx[size - 1 := b][first] == FLAG == rx[size - 1 := b][last]
      ensures pending.Some? && b == FLAG && last == size - 1 && first == size - 2 - |pending.value|
    {
    }

    /** One successful read from the socket. */
    method OnRead(chunk: seq<byte>)
      requires Valid()
      modifies this`stopped, this`delivered, this`pending, rxBuffer, hdlcBuffer
      ensures Valid()
      ensures State() == Run(old(State()), chunk, size)
    {
      ghost var start := State();
      for i := 0 to |chunk|
        invariant Valid()
        invariant Run(start, chunk, size) == Run(State(), chunk[i..], size)
      {
        assert chunk[i..][0] == chunk[i] && chunk[i..][1..] == chunk[i + 1..];
        PushByte(chunk[i]);
      }
      assert chunk[|chunk|..] == [];
    }

    /** The read loop of a connection: the reads it happens to get, one after the other. */
    method Serve(chunks: seq<seq<byte>>)
      requires Valid()
      modifies this`stopped, this`delivered, this`pending, rxBuffer, hdlcBuffer
      ensures Valid()
      ensures State() == RunReads(old(State()), chunks, size)
    {
      ghost var start := State();
      for i := 0 to |chunks|
        invariant Valid()
        invariant RunReads(start, chunks, size) == RunReads(State(), chunks[i..], size)
      {
        assert chunks[i..][0] == chunks[i] && chunks[i..][1..] == chunks[i + 1..];
        OnRead(chunks[i]);
      }
      assert chunks[|chunks|..] == [];
    }
  }
}
