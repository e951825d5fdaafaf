/** lxmf-rs/src/message.rs: the signed message container, its id, and its stamp. */
module Messages {
  import opened Common
  import opened Stamps

  const TICKET_LENGTH: nat := 16
  const COST_TICKET: nat := 0x100
  const MESSAGE_ROUNDS: nat := 3000

  type Signature = s: seq<byte> | |s| == 64 witness seq(64, _ => 0)
  type Stamp = s: seq<byte> | |s| == STAMP_SIZE witness seq(STAMP_SIZE, _ => 0)

  datatype LXMFError = InvalidLength | InvalidPayload | InvalidBytes | InvalidTimestamp | MissingSignature | Msgpack

  /** The MessagePack value tree. A string carries its bytes and whether they are valid UTF-8. */
  datatype Value =
    | Nil
    | Boolean(flag: bool)
    | Integer(int_: int)
    | F32(single: real)
    | F64(double: real)
    | Str(text: seq<byte>, utf8: bool)
    | Binary(bytes: seq<byte>)
    | Array(items: seq<Value>)
    | Map(entries: seq<(Value, Value)>)

  /** The foreign calls: MessagePack, SHA-256 and workblocks, and one Ed25519 key pair. */
  datatype Env = Env(
    pack: Value -> seq<byte>,
    unpack: seq<byte> -> Option<Value>,
    oracle: StampOracle,
    sign: seq<byte> -> Signature,
    verify: (seq<byte>, Signature) -> bool)
  {
    /** Packing this value is undone by unpacking. */
    predicate Restores(v: Value) {
      pack(v) != [] && unpack(pack(v)) == Some(v)
    }

    /** The signature made for one byte string is accepted for the other only if they are the same. */
    predicate Binds(made: seq<byte>, other: seq<byte>) {
      verify(other, sign(made)) ==> other == made
    }

    /** The key pair accepts its own signatures. */
    ghost predicate Signs() {
      forall m :: verify(m, sign(m))
    }
  }

  /** The part of a message that is hashed and signed. */
  datatype Body = Body(
    destination: Address,
    source: Address,
    timestamp: real,
    title: seq<byte>,
    content: seq<byte>,
    fields: Value)

  function PayloadValues(b: Body, stamp: Option<seq<byte>>): seq<Value> {
    [F64(b.timestamp), Binary(b.title), Binary(b.content), b.fields]
    + (if stamp.Some? then [Binary(stamp.value)] else [])
  }

  function PackPayload(env: Env, b: Body, stamp: Option<seq<byte>>): seq<byte> {
    env.pack(Array(PayloadValues(b, stamp)))
  }

  /** The payload of b with this stamp survives MessagePack. */
  predicate Packable(env: Env, b: Body, stamp: Option<seq<byte>>) {
    env.Restores(Array(PayloadValues(b, stamp)))
  }

  function MessageId(env: Env, b: Body): Digest {
    env.oracle.sha(b.destination + b.source + PackPayload(env, b, None))
  }

  function SignedPart(env: Env, b: Body): seq<byte> {
    b.destination + b.source + PackPayload(env, b, None) + MessageId(env, b)
  }

  /** The message on the wire: two addresses, the signature, and the payload with its stamp. */
  function Wire(env: Env, b: Body, signature: Signature, stamp: Option<seq<byte>>): seq<byte> {
    b.destination + b.source + signature + PackPayload(env, b, stamp)
  }

  function ValueToBytes(v: Value): Result<seq<byte>, LXMFError> {
    match v
    case Binary(data) => Ok(data)
    case Str(text, utf8) => if utf8 then Ok(text) else Err(InvalidBytes)
    case _ => Err(InvalidBytes)
  }

  predicate FitsI64(i: int) {
    -0x8000_0000_0000_0000 <= i < 0x8000_0000_0000_0000
  }

  function ValueToF64(v: Value): Result<real, LXMFError> {
    match v
    case F64(x) => Ok(x)
    case F32(x) => Ok(x)
    case Integer(i) => if FitsI64(i) then Ok(i as real) else Err(InvalidTimestamp)
    case _ => Err(InvalidTimestamp)
  }

  datatype Decoded = Decoded(body: Body, stamp: Option<seq<byte>>, signature: Signature, messageId: Digest)

  function DecodePayload(env: Env, destination: Address, source: Address, signature: Signature, arr: seq<Value>)
    : Result<Decoded, LXMFError>
  {
    if |arr| < 4 then Err(InvalidPayload) else
    var timestamp := ValueToF64(arr[0]);
    if timestamp.Err? then Err(timestamp.error) else
    var title := ValueToBytes(arr[1]);
    if title.Err? then Err(title.error) else
    var content := ValueToBytes(arr[2]);
    if content.Err? then Err(content.error) else
    var stamp := if |arr| > 4 then ValueToBytes(arr[4]) else Ok([]);
    if stamp.Err? then Err(stamp.error) else
    Ok(Decoded(Body(destination, source, timestamp.value, title.value, content.value, arr[3]),
               if |arr| > 4 then Some(stamp.value) else None,
               signature,
               env.oracle.sha(destination + source + env.pack(Array(arr[..4])))))
  }

  /** Bytes, or a string of valid UTF-8. */
  predicate IsText(v: Value) {
    v.Binary? || (v.Str? && v.utf8)
  }

  function TextOf(v: Value): seq<byte>
    requires IsText(v)
  {
    if v.Binary? then v.bytes else v.text
  }

  /** A double, a float, or an integer of 64 bits with a sign. */
  predicate IsTime(v: Value) {
    v.F64? || v.F32? || (v.Integer? && -9223372036854775808 <= v.int_ <= 9223372036854775807)
  }

  function NumberOf(v: Value): real
    requires IsTime(v)
  {
    if v.F64? then v.double else if v.F32? then v.single else v.int_ as real
  }

  /**
   * A payload is accepted iff it has a time, a title, a content and fields, and a fifth item, if any, is a text;
   * these are then what is read. Otherwise the error names the first item that is wrong.
   */
  lemma PayloadReadIff(env: Env, destination: Address, source: Address, signature: Signature, arr: seq<Value>)
    ensures var r := DecodePayload(env, destination, source, signature, arr);
            && (r.Ok? <==>
                  && |arr| >= 4 && IsTime(arr[0]) && IsText(arr[1]) && IsText(arr[2])
                  && (|arr| > 4 ==> IsText(arr[4])))
            && (r.Ok? ==>
                  && r.value.body == Body(destination, source, NumberOf(arr[0]), TextOf(arr[1]), TextOf(arr[2]), arr[3])
                  && r.value.stamp == (if |arr| > 4 then Some(TextOf(arr[4])) else None)
                  && r.value.signature == signature
                  && r.value.messageId == env.oracle.sha(destination + source + env.pack(Array(arr[..4]))))
            && (r.Err? ==> r.error == if |arr| < 4 then InvalidPayload else if !IsTime(arr[0]) then InvalidTimestamp
                else InvalidBytes)
  {
  }

  /** A message needs 97 bytes, and a payload that unpacks to an array. */
  lemma DecodeRefuses(env: Env, bytes: seq<byte>)
    ensures |bytes| < 97 <==> Decode(env, bytes) == Err(InvalidLength)
    ensures |bytes| >= 97 ==> (env.unpack(bytes[96..]).None? <==> Decode(env, bytes) == Err(Msgpack))
    ensures |bytes| >= 97 && env.unpack(bytes[96..]).Some? && !env.unpack(bytes[96..]).value.Array? ==>
              Decode(env, bytes) == Err(InvalidPayload)
  {
  }

  function Decode(env: Env, bytes: seq<byte>): Result<Decoded, LXMFError> {
    if |bytes| < 2 * 16 + 64 + 1 then Err(InvalidLength) else
    match env.unpack(bytes[96..])
    case None => Err(Msgpack)
    case Some(Array(arr)) => DecodePayload(env, bytes[..16], bytes[16..32], bytes[32..96], arr)
    case Some(_) => Err(InvalidPayload)
  }

  predicate VerifyMessage(env: Env, b: Body, signature: Signature) {
    env.verify(SignedPart(env, b), signature)
  }

  lemma WireSlices(env: Env, b: Body, signature: Signature, stamp: Option<seq<byte>>)
    ensures var w := Wire(env, b, signature, stamp);
            && w[..16] == b.destination && w[16..32] == b.source && w[32..96] == signature
            && w[96..] == PackPayload(env, b, stamp)
  {
    var w, payload := Wire(env, b, signature, stamp), PackPayload(env, b, stamp);
    assert w == (b.destination + b.source + signature) + payload;
    assert w == (b.destination + b.source) + (signature + payload);
    assert w == b.destination + (b.source + (signature + payload));
  }

  /** Decoding what was encoded gives back every field, with or without a stamp, and the same id. */
  lemma WireRoundTrip(env: Env, b: Body, signature: Signature, stamp: Option<seq<byte>>)
    requires Packable(env, b, stamp)
    ensures Decode(env, Wire(env, b, signature, stamp)) == Ok(Decoded(b, stamp, signature, MessageId(env, b)))
    ensures env.Signs() && signature == env.sign(SignedPart(env, b)) ==>
              VerifyMessage(env, Decode(env, Wire(env, b, signature, stamp)).value.body, signature)
  {
    var values := PayloadValues(b, stamp);
    WireSlices(env, b, signature, stamp);
    assert values[..4] == PayloadValues(b, None);
  }

  /**
   * The hypothesis can be met for any message: here is a packing that restores its payload with every stamp,
   * and a key pair, whatever the hash.
   */
  lemma PackableExists(b: Body, oracle: StampOracle) returns (env: Env)
    ensures env.oracle == oracle && env.Signs()
    ensures forall stamp :: Packable(env, b, stamp)
  {
    var plain := Array(PayloadValues(b, None));
    env := Env(
      v => if v == plain || !v.Array? || |v.items| != 5 || !v.items[4].Binary? then [0] else [1] + v.items[4].bytes,
      bytes => if bytes == [] then None
               else if bytes[0] == 0 then Some(plain)
               else Some(Array(PayloadValues(b, Some(bytes[1..])))),
      oracle,
      _ => seq(64, _ => 0),
      (_, _) => true);
    forall stamp
      ensures Packable(env, b, stamp)
    {
      if stamp.Some? {
        var v := Array(PayloadValues(b, stamp));
        assert env.pack(v) == [1] + stamp.value;
        assert env.pack(v)[1..] == stamp.value;
      }
    }
  }

  /** Two copies of a signed message that differ in their stamps are the same message to every receiver. */
  lemma StampLeavesIdentity(env: Env, b: Body, stamp1: Option<seq<byte>>, stamp2: Option<seq<byte>>)
    requires env.Signs() && Packable(env, b, stamp1) && Packable(env, b, stamp2)
    ensures var signature := env.sign(SignedPart(env, b));
            var d1 := Decode(env, Wire(env, b, signature, stamp1));
            var d2 := Decode(env, Wire(env, b, signature, stamp2));
            && d1.Ok? && d2.Ok?
            && d1.value.messageId == d2.value.messageId
            && SignedPart(env, d1.value.body) == SignedPart(env, d2.value.body)
            && VerifyMessage(env, d1.value.body, d1.value.signature)
            && VerifyMessage(env, d2.value.body, d2.value.signature)
            && (d1.value.stamp == d2.value.stamp <==> stamp1 == stamp2)
  {
    var signature := env.sign(SignedPart(env, b));
    WireRoundTrip(env, b, signature, stamp1);
    WireRoundTrip(env, b, signature, stamp2);
  }

  /** Different bodies have different signed parts. */
  lemma SignedPartInjective(env: Env, b: Body, b': Body)
    requires Packable(env, b, None) && Packable(env, b', None) && SignedPart(env, b) == SignedPart(env, b')
    ensures b == b'
  {
    var m, p, p' := SignedPart(env, b), PackPayload(env, b, None), PackPayload(env, b', None);
    assert m == b.destination + (b.source + (p + MessageId(env, b)));
    assert m == b'.destination + (b'.source + (p' + MessageId(env, b')));
    assert b.destination == m[..16] == b'.destination;
    assert b.source == m[16..32] == b'.source;
    assert p == m[32..|m| - 32] == p';
    assert PayloadValues(b, None) == PayloadValues(b', None);
    assert PayloadValues(b, None)[0] == F64(b.timestamp) && PayloadValues(b', None)[0] == F64(b'.timestamp);
    assert PayloadValues(b, None)[1] == Binary(b.title) && PayloadValues(b', None)[1] == Binary(b'.title);
    assert PayloadValues(b, None)[2] == Binary(b.content) && PayloadValues(b', None)[2] == Binary(b'.content);
    assert PayloadValues(b, None)[3] == b.fields && PayloadValues(b', None)[3] == b'.fields;
  }

  /**
   * A signature made for b, on a message that arrives with body b' and any stamp, is accepted if and only if
   * b' is b: no address, time, title, content or field can be exchanged, while the stamp can.
   */
  lemma TamperedIff(env: Env, b: Body, b': Body, stamp: Option<seq<byte>>)
    requires env.Signs() && env.Binds(SignedPart(env, b), SignedPart(env, b'))
    requires Packable(env, b, None) && Packable(env, b', None) && Packable(env, b', stamp)
    ensures var d := Decode(env, Wire(env, b', env.sign(SignedPart(env, b)), stamp));
            d.Ok? && (VerifyMessage(env, d.value.body, d.value.signature) <==> b' == b)
  {
    WireRoundTrip(env, b', env.sign(SignedPart(env, b)), stamp);
    if SignedPart(env, b) == SignedPart(env, b') {
      SignedPartInjective(env, b, b');
    }
  }

  /** A signature that the key rejects for a message's own signed part is rejected with the message. */
  lemma ForgedRejected(env: Env, b: Body, signature: Signature, stamp: Option<seq<byte>>)
    requires Packable(env, b, stamp) && !env.verify(SignedPart(env, b), signature)
    ensures var d := Decode(env, Wire(env, b, signature, stamp));
            d.Ok? && !VerifyMessage(env, d.value.body, d.value.signature)
  {
    WireRoundTrip(env, b, signature, stamp);
  }

  /** For any two bodies there are a packing and a key pair that meet these hypotheses, whatever the hash. */
  lemma BindingExists(b: Body, b': Body, oracle: StampOracle) returns (env: Env)
    ensures env.oracle == oracle && env.Signs() && env.Binds(SignedPart(env, b), SignedPart(env, b'))
    ensures forall stamp :: Packable(env, b, stamp) && Packable(env, b', stamp)
  {
    var v, v' := PayloadValues(b, None), PayloadValues(b', None);
    var pack := (x: Value) => Tagged(v, v', x);
    var made := b.destination + b.source + pack(Array(v)) + oracle.sha(b.destination + b.source + pack(Array(v)));
    var yes: Signature := seq(64, _ => 0);
    var no: Signature := seq(64, _ => 1);
    assert yes[0] != no[0];
    var sign: seq<byte> -> Signature := (m: seq<byte>) => if m == made then yes else no;
    env := Env(pack, (bytes: seq<byte>) => Untagged(v, v', bytes), oracle, sign,
               (m: seq<byte>, s: Signature) => s == sign(m));
    forall stamp
      ensures Packable(env, b, stamp) && Packable(env, b', stamp)
    {
      TagRestored(v, v', v, stamp);
      TagRestored(v, v', v', stamp);
      assert PayloadValues(b, stamp) == v + Extra(stamp) && PayloadValues(b', stamp) == v' + Extra(stamp);
    }
    assert SignedPart(env, b) == made;
  }

  function Extra(stamp: Option<seq<byte>>): seq<Value> {
    if stamp.Some? then [Binary(stamp.value)] else []
  }

  /** A packing made for two payloads: which of them it is, and the stamp. */
  function Tagged(v: seq<Value>, v': seq<Value>, x: Value): seq<byte> {
    if !x.Array? then [9]
    else if x.items == v then [0]
    else if x.items == v' then [1]
    else if |x.items| == |v| + 1 && x.items[..|v|] == v && x.items[|v|].Binary? then [2] + x.items[|v|].bytes
    else if |x.items| == |v'| + 1 && x.items[..|v'|] == v' && x.items[|v'|].Binary? then [3] + x.items[|v'|].bytes
    else [9]
  }

  function Untagged(v: seq<Value>, v': seq<Value>, bytes: seq<byte>): Option<Value> {
    if bytes == [] then None
    else if bytes[0] == 0 then Some(Array(v))
    else if bytes[0] == 1 then Some(Array(v'))
    else if bytes[0] == 2 then Some(Array(v + [Binary(bytes[1..])]))
    else if bytes[0] == 3 then Some(Array(v' + [Binary(bytes[1..])]))
    else None
  }

  lemma TagRestored(v: seq<Value>, v': seq<Value>, x: seq<Value>, stamp: Option<seq<byte>>)
    requires |v| == |v'| && (x == v || x == v')
    ensures var y := Array(x + Extra(stamp));
            Tagged(v, v', y) != [] && Untagged(v, v', Tagged(v, v', y)) == Some(y)
  {
    var items := x + Extra(stamp);
    if stamp.Some? {
      assert items[..|x|] == x && items[|x|] == Binary(stamp.value);
      assert ([2] + stamp.value)[1..] == stamp.value && ([3] + stamp.value)[1..] == stamp.value;
    } else {
      assert items == x;
    }
  }

  /** The value types this implementation itself writes. */
  predicate Canonical(arr: seq<Value>)
    requires |arr| >= 4
  {
    arr[0].F64? && arr[1].Binary? && arr[2].Binary?
  }

  /**
   * verify() re-packs the decoded fields. It sees the payload that the id was computed from exactly
   * when the sender used a double timestamp and binary title and content; a payload with strings or
   * an integer timestamp decodes, but is checked against different bytes.
   */
  lemma RepackedPayloadIff(env: Env, destination: Address, source: Address, signature: Signature, arr: seq<Value>)
    requires DecodePayload(env, destination, source, signature, arr).Ok?
    requires env.Restores(Array(arr[..4]))
    requires Packable(env, DecodePayload(env, destination, source, signature, arr).value.body, None)
    ensures var d := DecodePayload(env, destination, source, signature, arr).value;
            PackPayload(env, d.body, None) == env.pack(Array(arr[..4])) <==> Canonical(arr)
  {
    var d := DecodePayload(env, destination, source, signature, arr).value;
    var again := PayloadValues(d.body, None);
    if Canonical(arr) {
      assert arr[..4] == again;
    } else {
      assert arr[..4][0] == arr[0] && arr[..4][1] == arr[1] && arr[..4][2] == arr[2];
      assert Array(arr[..4]).items != Array(again).items;
    }
  }

  function TicketStamp(env: Env, ticket: seq<byte>, id: Digest): seq<byte> {
    env.oracle.sha(ticket + id)[..TICKET_LENGTH]
  }

  /** What validate_stamp concludes about a stamp: its value, if it is accepted. */
  function StampVerdict(env: Env, b: Body, stamp: seq<byte>, cost: Option<nat>,
      ticket: Option<seq<byte>>): Option<nat> {
    var id := MessageId(env, b);
    if ticket.Some? && |ticket.value| == TICKET_LENGTH && TicketStamp(env, ticket.value, id) == stamp then
      Some(COST_TICKET)
    else if cost.Some? && MeetsCost(StampHash(env.oracle, id, MESSAGE_ROUNDS, stamp), cost.value) then
      Some(Worth(StampHash(env.oracle, id, MESSAGE_ROUNDS, stamp)))
    else None
  }

  /** How many candidates are tried for a cost. */
  function MaxRounds(cost: nat): nat {
    if cost <= 15 then U32_SIZE - 1 else if cost <= 20 then 10_000_000 else 1_000_000
  }

  /** Every 32-bit count but the last up to cost 15, ten million up to 20, one million above. */
  lemma RoundsByCost(cost: nat)
    ensures MaxRounds(cost) == 0xFFFF_FFFF <==> cost < 16
    ensures MaxRounds(cost) == 10_000_000 <==> 16 <= cost < 21
    ensures MaxRounds(cost) == 1_000_000 <==> 21 <= cost
  {
  }

  /** No candidate that would be tried meets the cost. */
  ghost predicate Hopeless(env: Env, id: Digest, cost: nat, rng: nat -> Stamp) {
    forall k :: 0 <= k < MaxRounds(cost) ==> !MeetsCost(StampHash(env.oracle, id, MESSAGE_ROUNDS, rng(k)), cost)
  }

  /** generate_stamp: the first candidate drawn from the random source that meets the cost, if tried in time. */
  method GenerateStamp(env: Env, id: Digest, cost: nat, rng: nat -> Stamp)
    returns (stamp: Option<Stamp>, value: nat, ghost drawn: nat)
    ensures stamp.Some? ==>
      && drawn > 0 && stamp.value == rng(drawn - 1)
      && MeetsCost(StampHash(env.oracle, id, MESSAGE_ROUNDS, stamp.value), cost)
      && value == Worth(StampHash(env.oracle, id, MESSAGE_ROUNDS, stamp.value))
    ensures forall k :: 0 <= k < (if stamp.Some? then drawn - 1 else drawn) ==>
      !MeetsCost(StampHash(env.oracle, id, MESSAGE_ROUNDS, rng(k)), cost)
    ensures stamp.None? ==> drawn == MaxRounds(cost)
  {
    var maxRounds := MaxRounds(cost);
    var rounds := 0;
    while true
      invariant 0 <= rounds < maxRounds
      invariant forall k :: 0 <= k < rounds ==> !MeetsCost(StampHash(env.oracle, id, MESSAGE_ROUNDS, rng(k)), cost)
      decreases maxRounds - rounds
    {
      var candidate := rng(rounds);
      rounds := rounds + 1;
      var hash := StampHash(env.oracle, id, MESSAGE_ROUNDS, candidate);
      var valid := StampValid(hash, cost);
      if valid {
        value := StampValue(hash);
        return Some(candidate), value, rounds;
      }
      if rounds >= maxRounds {
        return None, 0, rounds;
      }
    }
  }

  class LXMessage {
    const body: Body
    var stamp: Option<seq<byte>>
    var stampCost: Option<nat>
    var stampValue: Option<nat>
    var stampValid: bool
    var stampChecked: bool
    var outboundTicket: Option<seq<byte>>
    var deferStamp: bool
    var signature: Option<Signature>
    var messageId: Option<Digest>

    constructor (body: Body)
      ensures this.body == body && stamp == None && signature == None && messageId == None && deferStamp
    {
      this.body := body;
      stamp, stampCost, stampValue := None, None, None;
      stampValid, stampChecked := false, false;
      outboundTicket := None;
      deferStamp := true;
      signature, messageId := None, None;
    }

    /** The ticket that would be used to stamp this message, if any. */
    predicate HasTicket()
      reads this
    {
      outboundTicket.Some? && |outboundTicket.value| == TICKET_LENGTH
    }

    /** ensure_stamp: an existing stamp stays; else the ticket; else proof of work. */
    method EnsureStamp(env: Env, rng: nat -> Stamp) returns (r: Result<(), LXMFError>)
      modifies this`stamp, this`stampValue, this`stampValid, this`stampChecked
      ensures r.Err? <==> old(stamp).None? && messageId.None?
      ensures r.Err? || old(stamp).Some? ==> unchanged(this)
      ensures r.Ok? && old(stamp).None? && HasTicket() ==>
        stamp == Some(TicketStamp(env, outboundTicket.value, messageId.value))
        && stampValue == Some(COST_TICKET) && stampValid && stampChecked
      ensures r.Ok? && old(stamp).None? && !HasTicket() && stamp.Some? ==>
        && stampCost.Some? && |stamp.value| == STAMP_SIZE && stampValid && stampChecked
        && MeetsCost(StampHash(env.oracle, messageId.value, MESSAGE_ROUNDS, stamp.value), stampCost.value)
        && stampValue == Some(Worth(StampHash(env.oracle, messageId.value, MESSAGE_ROUNDS, stamp.value)))
      ensures r.Ok? && stamp.None? ==> unchanged(this)
      ensures r.Ok? && stamp.None? && stampCost.Some? ==> Hopeless(env, messageId.value, stampCost.value, rng)
    {
      if stamp.Some? {
        return Ok(());
      }
      if messageId.None? {
        return Err(MissingSignature);
      }
      if outboundTicket.Some? {
        if |outboundTicket.value| == TICKET_LENGTH {
          stamp := Some(TicketStamp(env, outboundTicket.value, messageId.value));
          stampValue, stampValid, stampChecked := Some(COST_TICKET), true, true;
          return Ok(());
        }
      }
      if stampCost.Some? {
        var found, value, _ := GenerateStamp(env, messageId.value, stampCost.value, rng);
        if found.Some? {
          stamp := Some(found.value);
          stampValue, stampValid, stampChecked := Some(value), true, true;
        }
      }
      return Ok(());
    }

    /** encode_with_signature: what comes out, if there is a signature, is read back as this very message. */
    method EncodeWithSignature(env: Env) returns (r: Result<seq<byte>, LXMFError>)
      ensures r.Err? <==> signature.None?
      ensures r.Err? ==> r.error == MissingSignature
      ensures r.Ok? && Packable(env, body, stamp) ==>
        Decode(env, r.value) == Ok(Decoded(body, stamp, signature.value, MessageId(env, body)))
      ensures r.Ok? ==> r.value == Wire(env, body, signature.value, stamp)
    {
      if signature.None? {
        return Err(MissingSignature);
      }
      if Packable(env, body, stamp) {
        WireRoundTrip(env, body, signature.value, stamp);
      }
      return Ok(body.destination + body.source + signature.value + PackPayload(env, body, stamp));
    }

    /** encode_signed always succeeds; what it returns decodes to this message and verifies. */
    method EncodeSigned(env: Env, rng: nat -> Stamp) returns (r: Result<seq<byte>, LXMFError>)
      requires env.Signs()
      modifies this`stamp, this`stampValue, this`stampValid, this`stampChecked, this`signature, this`messageId
      ensures messageId == Some(MessageId(env, body)) && signature == Some(env.sign(SignedPart(env, body)))
      ensures r.Ok? && r.value == Wire(env, body, signature.value, stamp)
      ensures Packable(env, body, stamp) ==>
          Decode(env, r.value) == Ok(Decoded(body, stamp, signature.value, messageId.value))
      ensures VerifyMessage(env, body, signature.value)
      ensures deferStamp || old(stamp).Some? ==> stamp == old(stamp)
      ensures !deferStamp && old(stamp).None? && HasTicket() ==>
        stamp == Some(TicketStamp(env, outboundTicket.value, MessageId(env, body)))
      ensures !deferStamp && old(stamp).None? && !HasTicket() && stamp.Some? ==>
        && stampCost.Some?
        && MeetsCost(StampHash(env.oracle, MessageId(env, body), MESSAGE_ROUNDS, stamp.value), stampCost.value)
    {
      messageId := Some(MessageId(env, body));
      if !deferStamp {
        var stamped := EnsureStamp(env, rng);
        assert stamped.Ok?;
      }
      signature := Some(env.sign(SignedPart(env, body)));
      r := EncodeWithSignature(env);
    }

    method ValidateStamp(env: Env, cost: Option<nat>, ticket: Option<seq<byte>>) returns (r: bool)
      modifies this`stampChecked, this`stampValid, this`stampValue, this`messageId
      ensures stampChecked && stampValid == r
      ensures r <==> stamp.Some? && StampVerdict(env, body, stamp.value, cost, ticket).Some?
      ensures stampValue == if r then StampVerdict(env, body, stamp.value, cost, ticket) else old(stampValue)
    {
      stampChecked := true;
      if stamp.None? {
        stampValid := false;
        return false;
      }
      var id := MessageId(env, body);
      messageId := Some(id);
      if ticket.Some? && |ticket.value| == TICKET_LENGTH && |stamp.value| == TICKET_LENGTH {
        if TicketStamp(env, ticket.value, id) == stamp.value {
          stampValue, stampValid := Some(COST_TICKET), true;
          return true;
        }
      }
      if cost.Some? {
        var hash := StampHash(env.oracle, id, MESSAGE_ROUNDS, stamp.value);
        var valid := StampValid(hash, cost.value);
        if valid {
          var value := StampValue(hash);
          stampValue, stampValid := Some(value), true;
          return true;
        }
      }
      stampValid := false;
      return false;
    }
  }

  /** validate_stamp_with_tickets: some inbound ticket accepts the stamp, or proof of work does. */
  predicate AcceptedWithTickets(env: Env, b: Body, stamp: Option<seq<byte>>, cost: nat, tickets: seq<seq<byte>>) {
    stamp.Some?
    && ((exists i :: 0 <= i < |tickets| && StampVerdict(env, b, stamp.value, Some(cost), Some(tickets[i])).Some?)
        || StampVerdict(env, b, stamp.value, Some(cost), None).Some?)
  }

  /**
   * What the receiving router accepts, in terms of its tickets and of the hash of the stamp: a stamp made
   * from a ticket it issued, or one whose hash meets the cost; nothing without a stamp.
   */
  lemma AcceptedIff(env: Env, b: Body, stamp: Option<seq<byte>>, cost: nat, tickets: seq<seq<byte>>)
    ensures AcceptedWithTickets(env, b, stamp, cost, tickets) <==>
              && stamp.Some?
              && var id := env.oracle.sha(b.destination + b.source + PackPayload(env, b, None));
                 || (exists i :: 0 <= i < |tickets| && |tickets[i]| == 16
                       && env.oracle.sha(tickets[i] + id)[..16] == stamp.value)
                 || MeetsCost(StampHash(env.oracle, id, 3000, stamp.value), cost)
  {
  }

  /**
   * Stamping and validation agree across the wire: a receiver that still holds the ticket accepts the
   * message at any cost, and one that asks for no more than the paid cost accepts the proof of work.
   */
  lemma StampedMessageAccepted(env: Env, b: Body, stamp: seq<byte>, ticket: Option<seq<byte>>, paid: nat, cost: nat,
                               tickets: seq<seq<byte>>)
    requires Packable(env, b, Some(stamp))
    requires match ticket
             case Some(t) => |t| == TICKET_LENGTH && t in tickets && stamp == TicketStamp(env, t, MessageId(env, b))
             case None =>
               var hash := StampHash(env.oracle, MessageId(env, b), MESSAGE_ROUNDS, stamp);
               cost <= paid && MeetsCost(hash, paid)
    ensures var d := Decode(env, Wire(env, b, env.sign(SignedPart(env, b)), Some(stamp)));
            d.Ok? && AcceptedWithTickets(env, d.value.body, d.value.stamp, cost, tickets)
  {
    WireRoundTrip(env, b, env.sign(SignedPart(env, b)), Some(stamp));
    match ticket
    case Some(t) =>
      var i :| 0 <= i < |tickets| && tickets[i] == t;
      assert StampVerdict(env, b, stamp, Some(cost), Some(tickets[i])) == Some(COST_TICKET);
    case None =>
      CostAntitone(StampHash(env.oracle, MessageId(env, b), MESSAGE_ROUNDS, stamp), cost, paid);
  }
}
