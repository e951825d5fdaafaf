/** lxmf-rs/src/rns/peer.rs: the messages of a peer sync and their encoding as value trees. */
module PeerSyncCodec {
  import opened Common
  import Messages

  type Value = Messages.Value

  datatype Request =
    | Offer(peeringKey: seq<byte>, available: seq<Digest>)
    | MessageGetList
    | MessageGet(wants: seq<Digest>, haves: seq<Digest>, limitKb: Option<real>)
    | MessageAck(delivered: seq<Digest>)

  datatype Response = Error(code: byte) | Flag(value: bool) | IdList(ids: seq<Digest>) | Payload(items: seq<seq<byte>>)

  function Binaries(items: seq<seq<byte>>): (v: seq<Value>)
    ensures |v| == |items| && forall i :: 0 <= i < |v| ==> v[i] == Messages.Binary(items[i])
  {
    seq(|items|, i requires 0 <= i < |items| => Messages.Binary(items[i]))
  }

  /** Every value a byte string; None otherwise. */
  function Bytes(values: seq<Value>): Option<seq<seq<byte>>> {
    if values == [] then Some([])
    else
      var head := Bytes(values[..|values| - 1]);
      if head.Some? && values[|values| - 1].Binary? then Some(head.value + [values[|values| - 1].bytes]) else None
  }

  /** Every value a byte string of 32 bytes; None otherwise. */
  function Ids(values: seq<Value>): Option<seq<Digest>> {
    if values == [] then Some([])
    else
      var head := Ids(values[..|values| - 1]);
      var last := values[|values| - 1];
      if head.Some? && last.Binary? && |last.bytes| == 32 then Some(head.value + [last.bytes]) else None
  }

  function EncodeRequest(r: Request): Value {
    match r
    case Offer(key, available) => Messages.Array([Messages.Binary(key), Messages.Array(Binaries(available))])
    case MessageGetList => Messages.Array([Messages.Nil, Messages.Nil])
    case MessageGet(wants, haves, limit) =>
      Messages.Array([Messages.Array(Binaries(wants)), Messages.Array(Binaries(haves))]
                     + (if limit.Some? then [Messages.F64(limit.value)] else []))
    case MessageAck(delivered) => Messages.Array([Messages.Nil, Messages.Array(Binaries(delivered))])
  }

  /** The wants or haves position: absent, or a list of ids. */
  datatype Slot = Absent | Listed(ids: seq<Digest>) | Malformed

  function ReadSlot(v: Value): Slot {
    match v
    case Nil => Absent
    case Array(items) => (var ids := Ids(items); if ids.Some? then Listed(ids.value) else Malformed)
    case _ => Malformed
  }

  function DecodeRequest(v: Value): Option<Request> {
    if !v.Array? || v.items == [] then None
    else if v.items[0].Binary? then
      if |v.items| < 2 || !v.items[1].Array? then None else
      var ids := Ids(v.items[1].items);
      if ids.Some? then Some(Offer(v.items[0].bytes, ids.value)) else None
    else if |v.items| < 2 then None
    else
      var wants, haves := ReadSlot(v.items[0]), ReadSlot(v.items[1]);
      var limit := if |v.items| > 2 then Messages.ValueToF64(v.items[2]) else Ok(0.0);
      if wants.Malformed? || haves.Malformed? || limit.Err? then None
      else if wants.Absent? then
        if haves.Absent? then Some(MessageGetList) else Some(MessageAck(haves.ids))
      else
        Some(MessageGet(wants.ids, if haves.Absent? then [] else haves.ids,
                        if |v.items| > 2 then Some(limit.value) else None))
  }

  function EncodeResponse(r: Response): Value {
    match r
    case Error(code) => Messages.Integer(code)
    case Flag(value) => Messages.Boolean(value)
    case IdList(ids) => Messages.Array(Binaries(ids))
    case Payload(items) => Messages.Array(Binaries(items))
  }

  /** A list whose members all have 32 bytes reads as a list of ids. */
  function DecodeResponse(v: Value): Option<Response> {
    match v
    case Boolean(flag) => Some(Flag(flag))
    case Integer(i) => if 0 <= i <= 255 then Some(Error(i)) else None
    case Array(items) =>
      var bytes := Bytes(items);
      if bytes.None? then None
      else if Ids(items).Some? then Some(IdList(Ids(items).value))
      else Some(Payload(bytes.value))
    case _ => None
  }

  lemma {:induction false} BytesOfBinaries(items: seq<seq<byte>>)
    ensures Bytes(Binaries(items)) == Some(items)
  {
    if items != [] {
      var m := |items| - 1;
      BytesOfBinaries(items[..m]);
      assert Binaries(items)[..m] == Binaries(items[..m]);
      assert items == items[..m] + [items[m]];
    }
  }

  lemma {:induction false} IdsOfBinaries(items: seq<seq<byte>>)
    ensures Ids(Binaries(items)).Some? <==> forall i :: 0 <= i < |items| ==> |items[i]| == 32
    ensures Ids(Binaries(items)).Some? ==> Ids(Binaries(items)).value == items
  {
    if items != [] {
      var m := |items| - 1;
      IdsOfBinaries(items[..m]);
      assert Binaries(items)[..m] == Binaries(items[..m]);
      assert items == items[..m] + [items[m]];
      assert (forall i :: 0 <= i < |items| ==> |items[i]| == 32)
        <==> (forall i :: 0 <= i < m ==> |items[..m][i]| == 32) && |items[m]| == 32;
    }
  }

  lemma GetRoundTrip(wants: seq<Digest>, haves: seq<Digest>, limit: Option<real>)
    ensures DecodeRequest(EncodeRequest(MessageGet(wants, haves, limit))) == Some(MessageGet(wants, haves, limit))
  {
    IdsOfBinaries(wants);
    IdsOfBinaries(haves);
    var items := EncodeRequest(MessageGet(wants, haves, limit)).items;
    assert items[0] == Messages.Array(Binaries(wants)) && items[1] == Messages.Array(Binaries(haves));
  }

  lemma RequestRoundTrip(r: Request)
    ensures DecodeRequest(EncodeRequest(r)) == Some(r)
  {
    match r
    case Offer(_, available) => { IdsOfBinaries(available); }
    case MessageGetList => {}
    case MessageGet(wants, haves, limit) => { GetRoundTrip(wants, haves, limit); }
    case MessageAck(delivered) => { IdsOfBinaries(delivered); }
  }

  /** Responses survive the encoding except a payload whose items all have the length of an id. */
  lemma ResponseRoundTripIff(r: Response)
    ensures DecodeResponse(EncodeResponse(r)) == Some(r) <==>
        !(r.Payload? && forall i :: 0 <= i < |r.items| ==> |r.items[i]| == 32)
    ensures r.Payload? && (forall i :: 0 <= i < |r.items| ==> |r.items[i]| == 32) ==>
              DecodeResponse(EncodeResponse(r)) == Some(IdList(r.items))
  {
    match r
    case IdList(ids) =>
      BytesOfBinaries(ids);
      IdsOfBinaries(ids);
    case Payload(items) =>
      BytesOfBinaries(items);
      IdsOfBinaries(items);
    case _ =>
  }
}

/**
 * lxmf-rs/src/rns/router.rs: two propagation nodes that exchange stored messages by offer, get, payload
 * and acknowledgement over a network that drops, repeats and reorders.
 */
module PeerSync {
  import opened Common
  import opened Stamps
  import opened PeerSyncCodec

  datatype Entry = Entry(id: Digest, data: seq<byte>)

  /** The foreign calls: hashes and workblocks, and the encoding of an entry. */
  datatype Config = Config(
    oracle: StampOracle,
    encode: Entry -> seq<byte>,
    decode: seq<byte> -> Option<Entry>)
  {
    /** An entry encodes to more than its 32-byte id and decodes to itself. */
    ghost predicate Faithful() {
      forall e :: decode(encode(e)) == Some(e) && |encode(e)| > 32
    }
  }

  /** There is such an encoding. */
  lemma FaithfulExists(oracle: StampOracle) returns (cfg: Config)
    ensures cfg.oracle == oracle && cfg.Faithful()
  {
    cfg := Config(
      oracle,
      (e: Entry) => e.id + [0] + e.data,
      (bytes: seq<byte>) => if |bytes| < 33 then None else Some(Entry(bytes[..32], bytes[33..])));
    forall e: Entry
      ensures cfg.decode(cfg.encode(e)) == Some(e) && |cfg.encode(e)| > 32
    {
      var bytes := e.id + [0] + e.data;
      assert bytes[..32] == e.id && bytes[33..] == e.data;
    }
  }

  /** A node; minCost is set when it validates propagation stamps. */
  datatype Node = Node(
    minCost: Option<nat>,
    store: map<Digest, Entry>,
    processed: set<Digest>,
    queue: seq<Request>,
    pending: map<nat, Request>)

  /** The stamp check of an incoming message; a validating node derives the id from the unstamped data. */
  function Admit(cfg: Config, minCost: Option<nat>, e: Entry): (r: Option<Entry>)
    ensures r.Some? ==> r.value.data == e.data
  {
    if minCost.None? then Some(e)
    else if |e.data| <= LXMF_OVERHEAD + STAMP_SIZE then None
    else
      var cut := |e.data| - STAMP_SIZE;
      var id := cfg.oracle.sha(e.data[..cut]);
      var hash := StampHash(cfg.oracle, id, PN_ROUNDS, e.data[cut..]);
      if MeetsCost(hash, minCost.value) then Some(Entry(id, e.data)) else None
  }

  /** Whether a node with this policy takes the entry in under the id x. */
  predicate TakenAs(cfg: Config, minCost: Option<nat>, e: Entry, x: Digest) {
    var a := Admit(cfg, minCost, e);
    a.Some? && a.value.id == x
  }

  predicate Seen(n: Node, id: Digest) {
    id in n.store || id in n.processed
  }

  function Insert(n: Node, e: Entry): Node {
    n.(store := n.store[e.id := e], processed := n.processed + {e.id})
  }

  /** process_propagated: a message from a client. */
  function Propagate(cfg: Config, n: Node, data: seq<byte>): Node {
    var e := Admit(cfg, n.minCost, Entry(cfg.oracle.sha(data), data));
    if e.None? || Seen(n, e.value.id) then n else Insert(n, e.value)
  }

  /** handle_peer_sync_offer: the ids the node does not store. */
  function Wants(n: Node, available: seq<Digest>): seq<Digest> {
    if available == [] then []
    else Wants(n, available[..|available| - 1])
         + (if available[|available| - 1] !in n.store then [available[|available| - 1]] else [])
  }

  /** handle_peer_sync_message_get: wanted entries, skipping those that would exceed the byte limit. */
  function PayloadFor(cfg: Config, n: Node, wants: seq<Digest>, limit: Option<nat>): (r: (seq<seq<byte>>, nat)) {
    if wants == [] then ([], 0) else
    var (items, total) := PayloadFor(cfg, n, wants[..|wants| - 1], limit);
    var id := wants[|wants| - 1];
    if id !in n.store then (items, total) else
    var bytes := cfg.encode(n.store[id]);
    if limit.Some? && total + |bytes| > limit.value then (items, total) else (items + [bytes], total + |bytes|)
  }

  /** `(kb * 1000.0) as usize`. */
  function LimitBytes(limitKb: Option<real>): Option<nat> {
    if limitKb.None? then None
    else if limitKb.value <= 0.0 then Some(0)
    else Some((limitKb.value * 1000.0).Floor)
  }

  /** One item of apply_peer_sync_payload, and the id it contributes to the acknowledgement. */
  function ApplyItem(cfg: Config, n: Node, item: seq<byte>): (Node, seq<Digest>) {
    var e := cfg.decode(item);
    if e.None? then (n, []) else
    var a := Admit(cfg, n.minCost, e.value);
    if a.None? then (n, [])
    else if Seen(n, a.value.id) then (n, [a.value.id])
    else (Insert(n, a.value), [a.value.id])
  }

  function ApplyItems(cfg: Config, n: Node, items: seq<seq<byte>>): (Node, seq<Digest>) {
    if items == [] then (n, []) else
    var (m, ids) := ApplyItems(cfg, n, items[..|items| - 1]);
    var (m', more) := ApplyItem(cfg, m, items[|items| - 1]);
    (m', ids + more)
  }

  function ApplyPayload(cfg: Config, n: Node, r: Response): (Node, seq<Digest>) {
    if r.Payload? then ApplyItems(cfg, n, r.items) else (n, [])
  }

  /** handle_peer_sync_ack: the acknowledged copies are dropped. */
  function DropAll(n: Node, ids: seq<Digest>): Node {
    n.(store := map id | id in n.store && id !in ids :: n.store[id])
  }

  // ---------------------------------------------------------------------------------------------
  // What an acknowledgement is worth

  /** Whether an accepted item names an id the node has processed but no longer stores. */
  ghost predicate NamesForgotten(cfg: Config, n: Node, item: seq<byte>) {
    var e := cfg.decode(item);
    && e.Some?
    && var a := Admit(cfg, n.minCost, e.value);
       a.Some? && a.value.id in n.processed && a.value.id !in n.store
  }

  /** m is n after taking in messages: nothing is lost, what is new is stored and marked processed. */
  ghost predicate Grown(n: Node, m: Node) {
    && m.minCost == n.minCost && m.queue == n.queue && m.pending == n.pending
    && (forall id :: id in n.store ==> id in m.store && m.store[id] == n.store[id])
    && (forall id :: id in n.processed ==> id in m.processed)
    && (forall id :: id in m.store && id !in n.store ==> id in m.processed && id !in n.processed)
    && (forall id :: id in m.processed && id !in n.processed ==> id in m.store)
  }

  lemma {:induction false} ApplyItemsGrow(cfg: Config, n: Node, items: seq<seq<byte>>)
    ensures Grown(n, ApplyItems(cfg, n, items).0)
    ensures forall id :: id in ApplyItems(cfg, n, items).1 ==> Seen(ApplyItems(cfg, n, items).0, id)
  {
    if items != [] {
      ApplyItemsGrow(cfg, n, items[..|items| - 1]);
    }
  }

  lemma OneMoreItem(cfg: Config, n: Node, m: Node, ids: seq<Digest>, item: seq<byte>)
    requires Grown(n, m) && forall id :: id in ids ==> Seen(m, id)
    ensures var (m', more) := ApplyItem(cfg, m, item);
            && (forall id :: id in ids ==> (id in m'.store <==> id in m.store))
            && ((forall id :: id in more ==> id in m'.store) <==> !NamesForgotten(cfg, n, item))
  {
    var e := cfg.decode(item);
    if e.Some? && Admit(cfg, n.minCost, e.value).Some? {
      var id := Admit(cfg, n.minCost, e.value).value.id;
      assert id in ApplyItem(cfg, m, item).1;
    }
  }

  /**
   * Every id in the acknowledgement of a payload is stored by the node that sends it, if and only if no
   * accepted item names an id that the node has processed and no longer stores.
   */
  lemma {:induction false} AckHonestIff(cfg: Config, n: Node, items: seq<seq<byte>>)
    ensures var (m, ids) := ApplyItems(cfg, n, items);
            (forall id :: id in ids ==> id in m.store) <==>
                (forall k :: 0 <= k < |items| ==> !NamesForgotten(cfg, n, items[k]))
  {
    if items != [] {
      var k := |items| - 1;
      var (m, ids) := ApplyItems(cfg, n, items[..k]);
      var (m', more) := ApplyItem(cfg, m, items[k]);
      AckHonestIff(cfg, n, items[..k]);
      ApplyItemsGrow(cfg, n, items[..k]);
      OneMoreItem(cfg, n, m, ids, items[k]);
      assert (forall id :: id in ids + more ==> id in m'.store)
        <==> (forall id :: id in ids ==> id in m'.store) && (forall id :: id in more ==> id in m'.store);
      assert (forall j :: 0 <= j < |items| ==> !NamesForgotten(cfg, n, items[j]))
        <==> (forall j :: 0 <= j < k ==> !NamesForgotten(cfg, n, items[..k][j])) && !NamesForgotten(cfg, n, items[k]);
    }
  }

  // ---------------------------------------------------------------------------------------------
  // Two nodes and the network between them

  datatype Side = A | B

  function Other(side: Side): Side {
    if side.A? then B else A
  }

  datatype Packet =
    | Ask(from: Side, number: nat, request: Request)
    | Reply(to: Side, number: nat, response: Response)

  /** `net` holds everything ever sent: any packet may arrive late, repeatedly or never. */
  datatype World = World(a: Node, b: Node, net: set<Packet>)

  function At(w: World, side: Side): Node {
    if side.A? then w.a else w.b
  }

  function Put(w: World, side: Side, n: Node, sent: set<Packet>): World {
    if side.A? then w.(a := n, net := w.net + sent) else w.(b := n, net := w.net + sent)
  }

  datatype Action =
    | Client(side: Side, data: seq<byte>)
    | SendOffer(side: Side, number: nat, key: seq<byte>, listed: seq<Digest>)
    | Dispatch(side: Side, number: nat)
    | Deliver(packet: Packet, listed: seq<Digest>, keyValid: bool, number: nat)
    | Expire(side: Side, number: nat)
    | Forget(side: Side, ids: set<Digest>)

  /** A listing is the table in some iteration order; a packet must have been sent. */
  ghost predicate Enabled(w: World, act: Action) {
    match act
    case SendOffer(side, _, _, listed) => Enumerates(listed, At(w, side).store.Keys)
    case Dispatch(side, _) => At(w, side).queue != []
    case Deliver(packet, listed, _, _) =>
      packet in w.net && (packet.Ask? ==> Enumerates(listed, At(w, Other(packet.from)).store.Keys))
    case _ => true
  }

  /** build_peer_sync_request: the request goes out under a number and is remembered under it. */
  function Send(w: World, side: Side, n: Node, number: nat, r: Request): World {
    Put(w, side, n.(pending := n.pending[number := r]), {Ask(side, number, r)})
  }

  /** handle_peer_sync_request_bytes. */
  function HandleRequest(cfg: Config, w: World, from: Side, number: nat, r: Request, listed: seq<Digest>,
      keyValid: bool): World {
    var side := Other(from);
    var n := At(w, side);
    match r
    case Offer(_, available) =>
      var wants := Wants(n, available);
      if !keyValid then Put(w, side, n, {Reply(from, number, Error(0xf3))})
      else if wants == [] then Put(w, side, n, {Reply(from, number, Flag(false))})
      else Put(w, side, n.(queue := n.queue + [MessageGet(wants, listed, None)]), {Reply(from, number, IdList(wants))})
    case MessageGetList => Put(w, side, n, {Reply(from, number, IdList(listed))})
    case MessageGet(wants, _, limit) =>
      Put(w, side, n, {Reply(from, number, Payload(PayloadFor(cfg, n, wants, LimitBytes(limit)).0))})
    case MessageAck(delivered) => Put(w, side, DropAll(n, delivered), {Reply(from, number, Flag(true))})
  }

  /** handle_peer_sync_response_bytes_with_peer; `number` is used for the acknowledgement. */
  function HandleResponse(cfg: Config, w: World, side: Side, asked: nat, r: Response, number: nat): World {
    var n := At(w, side);
    if asked !in n.pending then w else
    var request := n.pending[asked];
    var n1 := n.(pending := n.pending - {asked});
    var wire := DecodeResponse(EncodeResponse(r));
    if wire.None? || request.Offer? || request.MessageAck? then Put(w, side, n1, {}) else
    var (n2, ids) := ApplyPayload(cfg, n1, wire.value);
    if ids == [] then Put(w, side, n2, {}) else Send(w, side, n2, number, MessageAck(ids))
  }

  function Step(cfg: Config, w: World, act: Action): World {
    match act
    case Client(side, data) => Put(w, side, Propagate(cfg, At(w, side), data), {})
    case SendOffer(side, number, key, listed) => Send(w, side, At(w, side), number, Offer(key, listed))
    case Dispatch(side, number) =>
      var n := At(w, side);
      if n.queue == [] then w else Send(w, side, n.(queue := n.queue[1..]), number, n.queue[0])
    case Deliver(packet, listed, keyValid, number) =>
      (match packet
       case Ask(from, asked, r) => HandleRequest(cfg, w, from, asked, r, listed, keyValid)
       case Reply(to, asked, r) => HandleResponse(cfg, w, to, asked, r, number))
    case Expire(side, number) => Put(w, side, At(w, side).(pending := At(w, side).pending - {number}), {})
    case Forget(side, ids) => Put(w, side, At(w, side).(processed := At(w, side).processed - ids), {})
  }

  ghost predicate Legal(cfg: Config, w: World, actions: seq<Action>)
    decreases |actions|
  {
    actions == [] || (Enabled(w, actions[0]) && Legal(cfg, Step(cfg, w, actions[0]), actions[1..]))
  }

  function Run(cfg: Config, w: World, actions: seq<Action>): World
    decreases |actions|
  {
    if actions == [] then w else Run(cfg, Step(cfg, w, actions[0]), actions[1..])
  }

  // ---------------------------------------------------------------------------------------------
  // One-way runs: only A offers

  ghost predicate OneWay(actions: seq<Action>) {
    forall i :: 0 <= i < |actions| ==> !(actions[i].SendOffer? && actions[i].side.B?)
  }

  ghost predicate AckOk(w: World, known: set<Digest>, delivered: seq<Digest>) {
    forall id :: id in delivered ==> id in w.b.store || id in known
  }

  /** In a one-way run A only ever asks with offers, and B with gets and with acknowledgements it can honour. */
  ghost predicate PacketOk(w: World, known: set<Digest>, p: Packet) {
    p.Ask? ==>
      if p.from.A? then p.request.Offer?
      else p.request.MessageGet? || (p.request.MessageAck? && AckOk(w, known, p.request.delivered))
  }

  /** `known` are the ids B had processed before the run; `ever` all messages A has stored since its start. */
  ghost predicate Safe(w: World, known: set<Digest>, ever: set<Digest>) {
    && (forall p :: p in w.net ==> PacketOk(w, known, p))
    && w.a.queue == []
    && (forall k :: k in w.a.pending ==> w.a.pending[k].Offer?)
    && (forall i :: 0 <= i < |w.b.queue| ==> w.b.queue[i].MessageGet?)
    && (forall id :: id in w.b.processed ==> id in w.b.store || id in known)
    && (forall id :: id in w.a.store ==> id in ever)
    && (forall id :: id in ever ==> id in w.a.store || id in w.b.store || id in known)
  }

  /** What A has stored grows with what it stores now. */
  ghost function Ever(w: World, ever: set<Digest>): set<Digest> {
    ever + w.a.store.Keys
  }

  lemma NetKeeps(w: World, w1: World, known: set<Digest>, sent: set<Packet>)
    requires forall p :: p in w.net ==> PacketOk(w, known, p)
    requires w1.net == w.net + sent
    requires forall id :: id in w.b.store ==> id in w1.b.store
    requires forall p :: p in sent ==> PacketOk(w1, known, p)
    ensures forall p :: p in w1.net ==> PacketOk(w1, known, p)
  {
    forall p | p in w1.net
      ensures PacketOk(w1, known, p)
    {
      if p !in sent {
        assert PacketOk(w, known, p);
      }
    }
  }

  lemma ClientSafe(cfg: Config, w: World, known: set<Digest>, ever: set<Digest>, side: Side, data: seq<byte>)
    requires Safe(w, known, ever)
    ensures var w1 := Step(cfg, w, Client(side, data)); Safe(w1, known, Ever(w1, ever))
  {
    NetKeeps(w, Step(cfg, w, Client(side, data)), known, {});
  }

  lemma OfferSafe(cfg: Config, w: World, known: set<Digest>, ever: set<Digest>, act: Action)
    requires Safe(w, known, ever) && act.SendOffer? && act.side.A?
    ensures var w1 := Step(cfg, w, act); Safe(w1, known, Ever(w1, ever))
  {
    NetKeeps(w, Step(cfg, w, act), known, {Ask(A, act.number, Offer(act.key, act.listed))});
  }

  lemma DispatchSafe(cfg: Config, w: World, known: set<Digest>, ever: set<Digest>, act: Action)
    requires Safe(w, known, ever) && act.Dispatch? && At(w, act.side).queue != []
    ensures var w1 := Step(cfg, w, act); Safe(w1, known, Ever(w1, ever))
  {
    NetKeeps(w, Step(cfg, w, act), known, {Ask(act.side, act.number, w.b.queue[0])});
  }

  lemma RequestSafe(cfg: Config, w: World, known: set<Digest>, ever: set<Digest>, packet: Packet,
      listed: seq<Digest>, keyValid: bool)
    requires Safe(w, known, ever) && packet in w.net && packet.Ask?
    ensures var w1 := HandleRequest(cfg, w, packet.from, packet.number, packet.request, listed, keyValid);
            Safe(w1, known, Ever(w1, ever))
  {
    var w1 := HandleRequest(cfg, w, packet.from, packet.number, packet.request, listed, keyValid);
    assert PacketOk(w, known, packet);
    var sent := w1.net - w.net;
    assert forall p :: p in sent ==> p.Reply?;
    assert w1.net == w.net + sent;
    NetKeeps(w, w1, known, sent);
  }

  lemma ResponseSafe(cfg: Config, w: World, known: set<Digest>, ever: set<Digest>, packet: Packet, number: nat)
    requires Safe(w, known, ever) && packet.Reply?
    ensures var w1 := HandleResponse(cfg, w, packet.to, packet.number, packet.response, number);
            Safe(w1, known, Ever(w1, ever))
  {
    var w1 := HandleResponse(cfg, w, packet.to, packet.number, packet.response, number);
    var wire := DecodeResponse(EncodeResponse(packet.response));
    if packet.number in At(w, packet.to).pending {
      var n1 := At(w, packet.to).(pending := At(w, packet.to).pending - {packet.number});
      if wire.Some? && wire.value.Payload? {
        ApplyItemsGrow(cfg, n1, wire.value.items);
      }
      var sent := w1.net - w.net;
      assert w1.net == w.net + sent;
      NetKeeps(w, w1, known, sent);
    } else {
      NetKeeps(w, w1, known, {});
    }
  }

  lemma StepSafe(cfg: Config, w: World, known: set<Digest>, ever: set<Digest>, act: Action)
    requires Safe(w, known, ever) && Enabled(w, act) && !(act.SendOffer? && act.side.B?)
    ensures var w1 := Step(cfg, w, act); Safe(w1, known, Ever(w1, ever))
  {
    match act
    case Client(side, data) => { ClientSafe(cfg, w, known, ever, side, data); }
    case SendOffer(_, _, _, _) => { OfferSafe(cfg, w, known, ever, act); }
    case Dispatch(_, _) => { DispatchSafe(cfg, w, known, ever, act); }
    case Deliver(packet, listed, keyValid, number) => {
      if packet.Ask? {
        RequestSafe(cfg, w, known, ever, packet, listed, keyValid);
      } else {
        ResponseSafe(cfg, w, known, ever, packet, number);
      }
    }
    case Expire(_, _) => { NetKeeps(w, Step(cfg, w, act), known, {}); }
    case Forget(_, _) => { NetKeeps(w, Step(cfg, w, act), known, {}); }
  }

  /** The messages A has held at some moment of a run. */
  ghost function Held(cfg: Config, w: World, actions: seq<Action>): set<Digest>
    decreases |actions|
  {
    w.a.store.Keys + if actions == [] then {} else Held(cfg, Step(cfg, w, actions[0]), actions[1..])
  }

  lemma {:induction false} RunSafe(cfg: Config, w: World, known: set<Digest>, ever: set<Digest>, actions: seq<Action>)
    requires Safe(w, known, ever) && w.a.store.Keys <= ever && Legal(cfg, w, actions) && OneWay(actions)
    ensures Safe(Run(cfg, w, actions), known, ever + Held(cfg, w, actions))
    decreases |actions|
  {
    if actions == [] {
      assert ever + Held(cfg, w, actions) == ever;
    } else {
      var w1 := Step(cfg, w, actions[0]);
      StepSafe(cfg, w, known, ever, actions[0]);
      RunSafe(cfg, w1, known, Ever(w1, ever), actions[1..]);
      assert Ever(w1, ever) + Held(cfg, w1, actions[1..]) == ever + Held(cfg, w, actions);
    }
  }

  /** Nothing has been exchanged yet. */
  ghost predicate Quiet(w: World) {
    w.net == {} && w.a.queue == [] && w.b.queue == [] && w.a.pending == map[] && w.b.pending == map[]
  }

  /** The ids a node has processed and does not store. */
  function Forgotten(n: Node): set<Digest> {
    n.processed - n.store.Keys
  }

  /**
   * When only A offers, every acknowledgement in flight names ids B stores or had already processed
   * before the run, and no message A has held is absent from both stores, those ids aside.
   */
  lemma OneWayLosesNothing(cfg: Config, w: World, actions: seq<Action>, id: Digest)
    requires Quiet(w) && Legal(cfg, w, actions) && OneWay(actions)
    ensures var z := Run(cfg, w, actions);
            && (id in Held(cfg, w, actions) && id !in Forgotten(w.b) ==> id in z.a.store || id in z.b.store)
            && forall p :: p in z.net && p.Ask? && p.request.MessageAck? && id in p.request.delivered ==>
                 id in z.b.store || id in Forgotten(w.b)
  {
    RunSafe(cfg, w, Forgotten(w.b), w.a.store.Keys, actions);
    var z := Run(cfg, w, actions);
    forall p | p in z.net && p.Ask? && p.request.MessageAck? && id in p.request.delivered
      ensures id in z.b.store || id in Forgotten(w.b)
    {
      assert PacketOk(z, Forgotten(w.b), p);
    }
  }

  // ---------------------------------------------------------------------------------------------
  // A complete exchange, and what it does to a message

  lemma {:induction false} WantsMembers(n: Node, available: seq<Digest>, id: Digest)
    ensures id in Wants(n, available) <==> id in available && id !in n.store
  {
    if available != [] {
      var m := |available| - 1;
      WantsMembers(n, available[..m], id);
      assert available == available[..m] + [available[m]];
    }
  }

  /** Without a limit a payload holds exactly the wanted entries that are stored. */
  lemma {:induction false} PayloadMembers(cfg: Config, n: Node, wants: seq<Digest>, item: seq<byte>)
    ensures item in PayloadFor(cfg, n, wants, None).0 <==>
        exists id :: id in wants && id in n.store && cfg.encode(n.store[id]) == item
  {
    if wants != [] {
      var m := |wants| - 1;
      PayloadMembers(cfg, n, wants[..m], item);
      assert wants == wants[..m] + [wants[m]];
      assert forall id :: id in wants <==> id in wants[..m] || id == wants[m];
    }
  }

  /** A payload never exceeds its limit. */
  lemma {:induction false} PayloadWithinLimit(cfg: Config, n: Node, wants: seq<Digest>, limit: nat)
    ensures var (items, total) := PayloadFor(cfg, n, wants, Some(limit));
            |Flatten(items)| == total <= limit
  {
    if wants != [] {
      var m := |wants| - 1;
      PayloadWithinLimit(cfg, n, wants[..m], limit);
      var (items, total) := PayloadFor(cfg, n, wants[..m], Some(limit));
      if wants[m] in n.store {
        FlattenAppend(items, [cfg.encode(n.store[wants[m]])]);
        assert Flatten([cfg.encode(n.store[wants[m]])]) == cfg.encode(n.store[wants[m]]);
      }
    }
  }

  /** What a node newly stores, it took in under that id. */
  lemma {:induction false} ItemsAdmitted(cfg: Config, n: Node, items: seq<seq<byte>>)
    ensures var m := ApplyItems(cfg, n, items).0;
            forall id :: id in m.store && id !in n.store ==> TakenAs(cfg, n.minCost, m.store[id], id)
  {
    if items != [] {
      ApplyItemsGrow(cfg, n, items[..|items| - 1]);
      ItemsAdmitted(cfg, n, items[..|items| - 1]);
    }
  }

  /** Every item that is taken in under e's id is e. */
  ghost predicate OnlyAs(cfg: Config, minCost: Option<nat>, items: seq<seq<byte>>, e: Entry) {
    forall k :: 0 <= k < |items| && ItemTakenAs(cfg, minCost, items[k], e.id) ==> cfg.decode(items[k]) == Some(e)
  }

  predicate ItemTakenAs(cfg: Config, minCost: Option<nat>, item: seq<byte>, x: Digest) {
    cfg.decode(item).Some? && TakenAs(cfg, minCost, cfg.decode(item).value, x)
  }

  lemma {:induction false} StoredOnlyAs(cfg: Config, n: Node, items: seq<seq<byte>>, e: Entry)
    requires e.id !in n.store && OnlyAs(cfg, n.minCost, items, e)
    ensures e.id in ApplyItems(cfg, n, items).0.store ==> ApplyItems(cfg, n, items).0.store[e.id] == e
  {
    if items != [] {
      var k := |items| - 1;
      ApplyItemsGrow(cfg, n, items[..k]);
      assert forall j :: 0 <= j < k ==> items[..k][j] == items[j];
      StoredOnlyAs(cfg, n, items[..k], e);
      assert ItemTakenAs(cfg, n.minCost, items[k], e.id) ==> cfg.decode(items[k]) == Some(e);
    }
  }

  /** An item that is taken in as x is acknowledged as x, and stored unless x was already stored or processed. */
  lemma {:induction false} ItemApplied(cfg: Config, n: Node, items: seq<seq<byte>>, e: Entry, x: Digest)
    requires TakenAs(cfg, n.minCost, e, x)
    requires exists k :: 0 <= k < |items| && cfg.decode(items[k]) == Some(e)
    ensures var (m, ids) := ApplyItems(cfg, n, items);
            && x in ids && (x in m.store <==> x in n.store || x !in n.processed)
            && (x in n.store || x in m.processed)
  {
    var k :| 0 <= k < |items| && cfg.decode(items[k]) == Some(e);
    var l := |items| - 1;
    ApplyItemsGrow(cfg, n, items);
    ApplyItemsGrow(cfg, n, items[..l]);
    if k < l {
      assert items[..l][k] == items[k];
      ItemApplied(cfg, n, items[..l], e, x);
    }
  }

  lemma EnumerationExists(s: set<Digest>) returns (listed: seq<Digest>)
    ensures Enumerates(listed, s)
    decreases s
  {
    if s == {} {
      listed := [];
    } else {
      var x :| x in s;
      var rest := EnumerationExists(s - {x});
      listed := rest + [x];
      AppendDistinct(rest, x);
      assert s == (s - {x}) + {x};
    }
  }

  /** Entries are stored under their own ids. */
  ghost predicate Keyed(n: Node) {
    forall id :: id in n.store ==> n.store[id].id == id
  }

  /** A world in which `side` is about to offer y to a node that does not store it and would take it in as x. */
  ghost predicate Ready(cfg: Config, w: World, side: Side, y: Digest, x: Digest) {
    && y in At(w, side).store && Keyed(At(w, side))
    && y !in At(w, Other(side)).store
    && At(w, Other(side)).queue == []
    && TakenAs(cfg, At(w, Other(side)).minCost, At(w, side).store[y], x)
  }

  /** A node with this policy takes in the entries of n under the ids they have there, if at all. */
  ghost predicate Unrenamed(cfg: Config, minCost: Option<nat>, n: Node) {
    forall id :: id in n.store && Admit(cfg, minCost, n.store[id]).Some? ==>
        Admit(cfg, minCost, n.store[id]).value.id == id
  }

  lemma LegalThen(cfg: Config, w: World, act: Action, more: seq<Action>)
    requires Enabled(w, act) && Legal(cfg, Step(cfg, w, act), more)
    ensures Legal(cfg, w, [act] + more)
    ensures Run(cfg, w, [act] + more) == Run(cfg, Step(cfg, w, act), more)
  {
    assert ([act] + more)[1..] == more;
  }

  lemma ThreeSteps(cfg: Config, w: World, a: Action, b: Action, c: Action)
    requires Enabled(w, a) && Enabled(Step(cfg, w, a), b) && Enabled(Step(cfg, Step(cfg, w, a), b), c)
    ensures Legal(cfg, w, [a, b, c])
    ensures Run(cfg, w, [a, b, c]) == Step(cfg, Step(cfg, Step(cfg, w, a), b), c)
  {
    var w1 := Step(cfg, w, a);
    var w2 := Step(cfg, w1, b);
    var w3 := Step(cfg, w2, c);
    assert Legal(cfg, w3, []) && Run(cfg, w3, []) == w3;
    LegalThen(cfg, w2, c, []);
    LegalThen(cfg, w1, b, [c] + []);
    LegalThen(cfg, w, a, [b] + ([c] + []));
    assert [a, b, c] == [a] + ([b] + ([c] + []));
  }

  lemma {:induction false} RunsJoin(cfg: Config, w: World, first: seq<Action>, more: seq<Action>)
    requires Legal(cfg, w, first) && Legal(cfg, Run(cfg, w, first), more)
    ensures Legal(cfg, w, first + more)
    ensures Run(cfg, w, first + more) == Run(cfg, Run(cfg, w, first), more)
    decreases |first|
  {
    if first == [] {
      assert first + more == more;
    } else {
      RunsJoin(cfg, Step(cfg, w, first[0]), first[1..], more);
      assert first + more == [first[0]] + (first[1..] + more);
      LegalThen(cfg, w, first[0], first[1..] + more);
    }
  }

  /** The offer arrives and the other node asks for everything it lacks, y among it. */
  lemma OfferAnswered(cfg: Config, w: World, side: Side, y: Digest)
    returns (actions: seq<Action>, wants: seq<Digest>, haves: seq<Digest>)
    requires y in At(w, side).store && y !in At(w, Other(side)).store && At(w, Other(side)).queue == []
    ensures |actions| == 3 && Legal(cfg, w, actions) && OffersOnly(actions, side)
    ensures var z := Run(cfg, w, actions);
            var get := MessageGet(wants, haves, None);
            && y in wants
            && Ask(Other(side), 1, get) in z.net
            && At(z, side).(pending := map[]) == At(w, side).(pending := map[])
            && At(z, Other(side)) == At(w, Other(side)).(pending := At(w, Other(side)).pending[1 := get])
  {
    var other := Other(side);
    var listed := EnumerationExists(At(w, side).store.Keys);
    haves := EnumerationExists(At(w, other).store.Keys);
    wants := Wants(At(w, other), listed);
    WantsMembers(At(w, other), listed, y);
    var a1 := SendOffer(side, 0, [], listed);
    var w1 := Step(cfg, w, a1);
    var a2 := Deliver(Ask(side, 0, Offer([], listed)), haves, true, 0);
    var w2 := Step(cfg, w1, a2);
    var a3 := Dispatch(other, 1);
    assert Enabled(w, a1) && Enabled(w1, a2);
    assert At(w2, other).queue == [MessageGet(wants, haves, None)];
    ThreeSteps(cfg, w, a1, a2, a3);
    actions := [a1, a2, a3];
  }

  /** The wanted entries go back. */
  lemma PayloadSent(cfg: Config, w: World, side: Side, y: Digest, wants: seq<Digest>, haves: seq<Digest>)
    returns (act: Action, items: seq<seq<byte>>)
    requires cfg.Faithful() && y in At(w, side).store && Keyed(At(w, side)) && y in wants
    requires Ask(Other(side), 1, MessageGet(wants, haves, None)) in w.net
    ensures Enabled(w, act) && !act.SendOffer?
    ensures Step(cfg, w, act) == w.(net := w.net + {Reply(Other(side), 1, Payload(items))})
    ensures DecodeResponse(EncodeResponse(Payload(items))) == Some(Payload(items))
    ensures Unrenamed(cfg, At(w, Other(side)).minCost, At(w, side)) ==>
              OnlyAs(cfg, At(w, Other(side)).minCost, items, At(w, side).store[y])
    ensures exists k :: 0 <= k < |items| && cfg.decode(items[k]) == Some(At(w, side).store[y])
  {
    var n, e := At(w, side), At(w, side).store[y];
    var listed := EnumerationExists(n.store.Keys);
    items := PayloadFor(cfg, n, wants, None).0;
    act := Deliver(Ask(Other(side), 1, MessageGet(wants, haves, None)), listed, true, 0);
    PayloadMembers(cfg, n, wants, cfg.encode(e));
    var k :| 0 <= k < |items| && items[k] == cfg.encode(e);
    assert cfg.decode(items[k]) == Some(e) && |items[k]| > 32;
    ResponseRoundTripIff(Payload(items));
    if Unrenamed(cfg, At(w, Other(side)).minCost, n) {
      PayloadOnlyAs(cfg, n, wants, At(w, Other(side)).minCost, y);
    }
  }

  lemma PayloadOnlyAs(cfg: Config, n: Node, wants: seq<Digest>, minCost: Option<nat>, x: Digest)
    requires cfg.Faithful() && Keyed(n) && x in n.store && Unrenamed(cfg, minCost, n)
    ensures OnlyAs(cfg, minCost, PayloadFor(cfg, n, wants, None).0, n.store[x])
  {
    var items := PayloadFor(cfg, n, wants, None).0;
    forall j | 0 <= j < |items| && ItemTakenAs(cfg, minCost, items[j], x)
      ensures cfg.decode(items[j]) == Some(n.store[x])
    {
      PayloadMembers(cfg, n, wants, items[j]);
      var id :| id in wants && id in n.store && cfg.encode(n.store[id]) == items[j];
      assert cfg.decode(cfg.encode(n.store[id])) == Some(n.store[id]);
    }
  }

  /** n1 is n with more messages and other pending requests. */
  ghost predicate Fuller(n: Node, n1: Node) {
    && n1.queue == n.queue && n1.minCost == n.minCost
    && (forall id :: id in n.store ==> id in n1.store && n1.store[id] == n.store[id])
  }

  /** What the node that is offered something has at the end: x acknowledged, and stored unless it was processed. */
  ghost predicate Taken(cfg: Config, n: Node, m: Node, x: Digest) {
    && Fuller(n, m)
    && (x in m.store <==> x in n.store || x !in n.processed)
    && (x in n.store || x in m.processed)
    && (x in m.store && x !in n.store ==> TakenAs(cfg, n.minCost, m.store[x], x))
  }

  /** The payload is taken in and acknowledged. */
  lemma PayloadTaken(cfg: Config, w: World, other: Side, e: Entry, x: Digest, get: Request, items: seq<seq<byte>>)
    returns (act: Action, ids: seq<Digest>)
    requires TakenAs(cfg, At(w, other).minCost, e, x) && get.MessageGet?
    requires 1 in At(w, other).pending && At(w, other).pending[1] == get
    requires Reply(other, 1, Payload(items)) in w.net
    requires DecodeResponse(EncodeResponse(Payload(items))) == Some(Payload(items))
    requires exists k :: 0 <= k < |items| && cfg.decode(items[k]) == Some(e)
    ensures Enabled(w, act) && !act.SendOffer? && x in ids
    ensures var z := Step(cfg, w, act);
            && Ask(other, 2, MessageAck(ids)) in z.net
            && At(z, Other(other)) == At(w, Other(other))
            && Taken(cfg, At(w, other), At(z, other), x)
            && (e.id !in At(w, other).store && OnlyAs(cfg, At(w, other).minCost, items, e) ==>
                  (e.id in At(z, other).store ==> At(z, other).store[e.id] == e))
  {
    act := Deliver(Reply(other, 1, Payload(items)), [], true, 2);
    var n1 := At(w, other).(pending := At(w, other).pending - {1});
    ItemApplied(cfg, n1, items, e, x);
    ItemsAdmitted(cfg, n1, items);
    ApplyItemsGrow(cfg, n1, items);
    if e.id !in n1.store && OnlyAs(cfg, n1.minCost, items, e) {
      StoredOnlyAs(cfg, n1, items, e);
    }
    ids := ApplyItems(cfg, n1, items).1;
  }

  /** What the offering node has at the end: fewer messages, x not among them. */
  ghost predicate Relieved(n: Node, m: Node, x: Digest) {
    && x !in m.store && (forall id :: id in m.store ==> id in n.store && m.store[id] == n.store[id])
    && m.processed == n.processed && m.queue == n.queue && m.minCost == n.minCost
  }

  /** The acknowledgement drops the offering node's copy. */
  lemma AckApplied(cfg: Config, w: World, side: Side, ids: seq<Digest>, x: Digest) returns (act: Action)
    requires Ask(Other(side), 2, MessageAck(ids)) in w.net && x in ids
    ensures Enabled(w, act) && !act.SendOffer?
    ensures var z := Step(cfg, w, act);
            Relieved(At(w, side), At(z, side), x) && At(z, Other(side)) == At(w, Other(side))
  {
    var listed := EnumerationExists(At(w, side).store.Keys);
    act := Deliver(Ask(Other(side), 2, MessageAck(ids)), listed, true, 0);
  }

  ghost predicate OffersOnly(actions: seq<Action>, side: Side) {
    forall i :: 0 <= i < |actions| && actions[i].SendOffer? ==> actions[i].side == side
  }

  /**
   * x has left `side`; the other node stores it unless it had processed it, and has processed it now. If it is
   * y itself that was taken in, and nothing else as y, the entry is the one that was offered.
   */
  ghost predicate Exchanged(cfg: Config, w: World, z: World, side: Side, y: Digest, x: Digest)
    requires y in At(w, side).store
  {
    var other := Other(side);
    && Relieved(At(w, side), At(z, side), x)
    && Taken(cfg, At(w, other), At(z, other), x)
    && (y in At(z, other).store && Unrenamed(cfg, At(w, other).minCost, At(w, side)) ==>
          At(z, other).store[y] == At(w, side).store[y])
  }

  /** Payload, acknowledgement and its effect, once y has been asked for. */
  lemma PayloadRound(cfg: Config, w: World, side: Side, y: Digest, x: Digest, wants: seq<Digest>, haves: seq<Digest>)
    returns (actions: seq<Action>)
    requires cfg.Faithful() && Ready(cfg, w, side, y, x) && y in wants
    requires Ask(Other(side), 1, MessageGet(wants, haves, None)) in w.net
    requires 1 in At(w, Other(side)).pending && At(w, Other(side)).pending[1] == MessageGet(wants, haves, None)
    ensures |actions| == 3 && Legal(cfg, w, actions) && OffersOnly(actions, side)
    ensures Exchanged(cfg, w, Run(cfg, w, actions), side, y, x)
  {
    var e := At(w, side).store[y];
    var a2, items := PayloadSent(cfg, w, side, y, wants, haves);
    var w2 := Step(cfg, w, a2);
    var a3, ids := PayloadTaken(cfg, w2, Other(side), e, x, MessageGet(wants, haves, None), items);
    var w3 := Step(cfg, w2, a3);
    var a4 := AckApplied(cfg, w3, side, ids, x);
    ThreeSteps(cfg, w, a2, a3, a4);
    actions := [a2, a3, a4];
  }

  /**
   * One loss-free exchange of six steps: the offering node loses its copy of x, the id under which the other
   * takes y in; the other stores x unless it had processed x before.
   */
  lemma Exchange(cfg: Config, w: World, side: Side, y: Digest, x: Digest) returns (actions: seq<Action>)
    requires cfg.Faithful() && Ready(cfg, w, side, y, x)
    ensures |actions| == 6 && Legal(cfg, w, actions) && OffersOnly(actions, side)
    ensures Exchanged(cfg, w, Run(cfg, w, actions), side, y, x)
  {
    var first, wants, haves := OfferAnswered(cfg, w, side, y);
    var w1 := Run(cfg, w, first);
    var more := PayloadRound(cfg, w1, side, y, x, wants, haves);
    RunsJoin(cfg, w, first, more);
    actions := first + more;
    ExchangedFrom(cfg, w, w1, Run(cfg, w1, more), side, y, x);
  }

  lemma ExchangedFrom(cfg: Config, w: World, w1: World, z: World, side: Side, y: Digest, x: Digest)
    requires y in At(w, side).store && y in At(w1, side).store
    requires At(w1, side).(pending := map[]) == At(w, side).(pending := map[])
    requires At(w1, Other(side)).(pending := map[]) == At(w, Other(side)).(pending := map[])
    requires Exchanged(cfg, w1, z, side, y, x)
    ensures Exchanged(cfg, w, z, side, y, x)
  {
    assert At(w1, side).store == At(w, side).store && At(w1, side).processed == At(w, side).processed;
    assert At(w1, side).queue == At(w, side).queue && At(w1, side).minCost == At(w, side).minCost;
    assert Unrenamed(cfg, At(w, Other(side)).minCost, At(w, side)) ==>
        Unrenamed(cfg, At(w1, Other(side)).minCost, At(w1, side));
  }

  lemma {:induction false} ItemsKeyed(cfg: Config, n: Node, items: seq<seq<byte>>)
    requires Keyed(n)
    ensures Keyed(ApplyItems(cfg, n, items).0)
  {
    if items != [] {
      ItemsKeyed(cfg, n, items[..|items| - 1]);
    }
  }

  lemma {:induction false} RunKeyed(cfg: Config, w: World, actions: seq<Action>)
    requires Keyed(w.a) && Keyed(w.b)
    ensures Keyed(Run(cfg, w, actions).a) && Keyed(Run(cfg, w, actions).b)
    decreases |actions|
  {
    if actions != [] {
      var w1 := Step(cfg, w, actions[0]);
      if actions[0].Deliver? && actions[0].packet.Reply? {
        var packet := actions[0].packet;
        var wire := DecodeResponse(EncodeResponse(packet.response));
        var n := At(w, packet.to);
        if wire.Some? && wire.value.Payload? {
          ItemsKeyed(cfg, n.(pending := n.pending - {packet.number}), wire.value.items);
        }
      }
      RunKeyed(cfg, w1, actions[1..]);
    }
  }

  /** Whether x is still stored somewhere. */
  predicate Survives(w: World, x: Digest) {
    x in w.a.store || x in w.b.store
  }

  // ---------------------------------------------------------------------------------------------
  // What is stored under an id is the content the id names

  /** The id is the hash of the data, with or without its stamp; strictly, without it. */
  ghost predicate Named(cfg: Config, strict: bool, e: Entry) {
    || (!strict && e.id == cfg.oracle.sha(e.data))
    || (|e.data| >= STAMP_SIZE && e.id == cfg.oracle.sha(e.data[..|e.data| - STAMP_SIZE]))
  }

  ghost predicate NodeNamed(cfg: Config, strict: bool, n: Node) {
    && (strict ==> n.minCost.Some?)
    && forall id :: id in n.store ==> n.store[id].id == id && Named(cfg, strict, n.store[id])
  }

  ghost predicate ItemsNamed(cfg: Config, strict: bool, items: seq<seq<byte>>) {
    forall k :: 0 <= k < |items| && cfg.decode(items[k]).Some? ==> Named(cfg, strict, cfg.decode(items[k]).value)
  }

  ghost predicate Authentic(cfg: Config, strict: bool, w: World) {
    && NodeNamed(cfg, strict, w.a) && NodeNamed(cfg, strict, w.b)
    && forall p :: p in w.net && p.Reply? && p.response.Payload? ==> ItemsNamed(cfg, strict, p.response.items)
  }

  lemma {:induction false} ItemsKeepNamed(cfg: Config, strict: bool, n: Node, items: seq<seq<byte>>)
    requires NodeNamed(cfg, strict, n) && ItemsNamed(cfg, strict, items)
    ensures NodeNamed(cfg, strict, ApplyItems(cfg, n, items).0)
  {
    if items != [] {
      var k := |items| - 1;
      assert forall j :: 0 <= j < k ==> items[..k][j] == items[j];
      ItemsKeepNamed(cfg, strict, n, items[..k]);
      var m := ApplyItems(cfg, n, items[..k]).0;
      if cfg.decode(items[k]).Some? {
        assert Named(cfg, strict, cfg.decode(items[k]).value);
        AdmitKeepsNamed(cfg, strict, m.minCost, cfg.decode(items[k]).value);
      }
    }
  }

  lemma AdmitKeepsNamed(cfg: Config, strict: bool, minCost: Option<nat>, e: Entry)
    requires Named(cfg, strict, e) && (strict ==> minCost.Some?)
    ensures Admit(cfg, minCost, e).Some? ==> Named(cfg, strict, Admit(cfg, minCost, e).value)
  {
  }

  lemma {:induction false} PayloadNamed(cfg: Config, strict: bool, n: Node, wants: seq<Digest>, limit: Option<nat>)
    requires cfg.Faithful() && NodeNamed(cfg, strict, n)
    ensures ItemsNamed(cfg, strict, PayloadFor(cfg, n, wants, limit).0)
  {
    if wants != [] {
      PayloadNamed(cfg, strict, n, wants[..|wants| - 1], limit);
    }
  }

  lemma ClientAuthentic(cfg: Config, strict: bool, n: Node, data: seq<byte>)
    requires NodeNamed(cfg, strict, n)
    ensures NodeNamed(cfg, strict, Propagate(cfg, n, data))
  {
    var e := Admit(cfg, n.minCost, Entry(cfg.oracle.sha(data), data));
    assert e.Some? ==> Named(cfg, strict, e.value);
  }

  lemma RequestAuthentic(cfg: Config, strict: bool, w: World, packet: Packet, listed: seq<Digest>, keyValid: bool)
    requires cfg.Faithful() && Authentic(cfg, strict, w) && packet.Ask?
    ensures Authentic(cfg, strict, HandleRequest(cfg, w, packet.from, packet.number, packet.request, listed, keyValid))
  {
    if packet.request.MessageGet? {
      PayloadNamed(cfg, strict, At(w, Other(packet.from)), packet.request.wants, LimitBytes(packet.request.limitKb));
    }
  }

  lemma ResponseAuthentic(cfg: Config, strict: bool, w: World, packet: Packet, number: nat)
    requires Authentic(cfg, strict, w) && packet in w.net && packet.Reply?
    ensures Authentic(cfg, strict, HandleResponse(cfg, w, packet.to, packet.number, packet.response, number))
  {
    ResponseRoundTripIff(packet.response);
    var n := At(w, packet.to);
    if packet.response.Payload? && packet.number in n.pending {
      ItemsKeepNamed(cfg, strict, n.(pending := n.pending - {packet.number}), packet.response.items);
    }
  }

  lemma StepAuthentic(cfg: Config, strict: bool, w: World, act: Action)
    requires cfg.Faithful() && Authentic(cfg, strict, w) && Enabled(w, act)
    ensures Authentic(cfg, strict, Step(cfg, w, act))
  {
    match act
    case Deliver(packet, listed, keyValid, number) => {
      if packet.Ask? {
        RequestAuthentic(cfg, strict, w, packet, listed, keyValid);
      } else {
        ResponseAuthentic(cfg, strict, w, packet, number);
      }
    }
    case Client(side, data) => { ClientAuthentic(cfg, strict, At(w, side), data); }
    case _ => {}
  }

  /** In every run, offers in both directions included, both nodes store under an id only content it names. */
  lemma {:induction false} RunAuthentic(cfg: Config, strict: bool, w: World, actions: seq<Action>)
    requires cfg.Faithful() && Authentic(cfg, strict, w) && Legal(cfg, w, actions)
    ensures Authentic(cfg, strict, Run(cfg, w, actions))
    decreases |actions|
  {
    if actions != [] {
      StepAuthentic(cfg, strict, w, actions[0]);
      RunAuthentic(cfg, strict, Step(cfg, w, actions[0]), actions[1..]);
    }
  }

  // ---------------------------------------------------------------------------------------------
  // The node as the router keeps it

  class SyncNode {
    const cfg: Config
    const minCost: Option<nat>
    var store: map<Digest, Entry>
    var processed: set<Digest>
    var queue: seq<Request>
    var pending: map<nat, Request>

    ghost function View(): Node reads this {
      Node(minCost, store, processed, queue, pending)
    }

    constructor (cfg: Config, minCost: Option<nat>)
      ensures this.cfg == cfg && View() == Node(minCost, map[], {}, [], map[])
    {
      this.cfg, this.minCost, store, processed, queue, pending := cfg, minCost, map[], {}, [], map[];
    }

    method Wanted(available: seq<Digest>) returns (wants: seq<Digest>)
      ensures wants == Wants(View(), available)
    {
      wants := [];
      for i := 0 to |available|
        invariant wants == Wants(View(), available[..i])
      {
        assert available[..i + 1][..i] == available[..i];
        if available[i] !in store {
          wants := wants + [available[i]];
        }
      }
      assert available[..|available|] == available;
    }

    /** Loops of handle_peer_sync_message_get. */
    method PayloadOf(wants: seq<Digest>, limitKb: Option<real>) returns (items: seq<seq<byte>>)
      ensures items == PayloadFor(cfg, View(), wants, LimitBytes(limitKb)).0
    {
      var limit := LimitBytes(limitKb);
      var total := 0;
      items := [];
      for i := 0 to |wants|
        invariant (items, total) == PayloadFor(cfg, View(), wants[..i], limit)
      {
        assert wants[..i + 1][..i] == wants[..i];
        if wants[i] in store {
          var bytes := cfg.encode(store[wants[i]]);
          if !(limit.Some? && total + |bytes| > limit.value) {
            total, items := total + |bytes|, items + [bytes];
          }
        }
      }
      assert wants[..|wants|] == wants;
    }

    method TakeItem(item: seq<byte>) returns (delivered: seq<Digest>)
      modifies this`store, this`processed
      ensures (View(), delivered) == ApplyItem(cfg, old(View()), item)
    {
      delivered := [];
      var e := cfg.decode(item);
      if e.Some? {
        var a := Admit(cfg, minCost, e.value);
        if a.Some? {
          var id := a.value.id;
          if !(id in store || id in processed) {
            store, processed := store[id := a.value], processed + {id};
          }
          delivered := [id];
        }
      }
    }

    /** apply_peer_sync_payload; nothing is stored or acknowledged unless the response is a payload. */
    method TakePayload(r: Response) returns (delivered: seq<Digest>)
      modifies this`store, this`processed
      ensures (View(), delivered) == ApplyPayload(cfg, old(View()), r)
    {
      delivered := [];
      if r.Payload? {
        for i := 0 to |r.items|
          invariant (View(), delivered) == ApplyItems(cfg, old(View()), r.items[..i])
        {
          assert r.items[..i + 1][..i] == r.items[..i];
          var more := TakeItem(r.items[i]);
          delivered := delivered + more;
        }
        assert r.items[..|r.items|] == r.items;
      }
    }

    /** handle_peer_sync_ack. */
    method DropDelivered(delivered: seq<Digest>)
      modifies this`store
      ensures View() == DropAll(old(View()), delivered)
    {
      for i := 0 to |delivered|
        invariant store == map id | id in old(store) && id !in delivered[..i] :: old(store)[id]
      {
        assert delivered[..i + 1] == delivered[..i] + [delivered[i]];
        store := store - {delivered[i]};
      }
      assert delivered[..|delivered|] == delivered;
    }

    /** handle_peer_sync_request_bytes, as the two-node model's step at this node. */
    method HandleRequestFrom(r: Request, listed: seq<Digest>, keyValid: bool) returns (response: Response)
      requires Enumerates(listed, store.Keys)
      modifies this`store, this`queue
      ensures forall other: Node, number ::
                HandleRequest(cfg, World(other, old(View()), {}), A, number, r, listed, keyValid)
                == World(other, View(), {Reply(A, number, response)})
    {
      match r
      case Offer(_, available) => {
        var wants := Wanted(available);
        if !keyValid {
          response := Error(0xf3);
        } else if wants == [] {
          response := Flag(false);
        } else {
          response := IdList(wants);
          queue := queue + [MessageGet(wants, listed, None)];
        }
      }
      case MessageGetList => {
        response := IdList(listed);
      }
      case MessageGet(wants, _, limit) => {
        var items := PayloadOf(wants, limit);
        response := Payload(items);
      }
      case MessageAck(delivered) => {
        DropDelivered(delivered);
        response := Flag(true);
      }
    }

    /** handle_peer_sync_response_bytes_with_peer: the acknowledgement to send, if any. */
    method HandleResponseTo(asked: nat, r: Response, number: nat) returns (ack: Option<Request>)
      modifies this`store, this`processed, this`pending
      ensures forall other: Node :: HandleResponse(cfg, World(other, old(View()), {}), B, asked, r, number)
                == World(other, View(), if ack.Some? then {Ask(B, number, ack.value)} else {})
    {
      ack := None;
      if asked in pending {
        var request := pending[asked];
        pending := pending - {asked};
        var wire := DecodeResponse(EncodeResponse(r));
        if wire.Some? && !request.Offer? && !request.MessageAck? {
          var delivered := TakePayload(wire.value);
          if delivered != [] {
            ack := Some(MessageAck(delivered));
            pending := pending[number := MessageAck(delivered)];
          }
        }
      }
    }
  }
}
