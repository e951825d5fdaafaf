/**
 * lxmf-rs/src/rns/router.rs: which messages survive every exchange between two propagation nodes, for nodes that
 * check the stamps of the messages they take in and nodes that do not.
 */
module SyncSurvival {
  import opened Common
  import opened Stamps
  import opened PeerSyncCodec
  import opened PeerSync

  // ---------------------------------------------------------------------------------------------
  // Items that are not taken in as x

  ghost predicate ItemsAvoid(cfg: Config, minCost: Option<nat>, items: seq<seq<byte>>, x: Digest) {
    forall k :: 0 <= k < |items| ==> !ItemTakenAs(cfg, minCost, items[k], x)
  }

  lemma {:induction false} AvoidedNotAcknowledged(cfg: Config, n: Node, items: seq<seq<byte>>, x: Digest)
    requires ItemsAvoid(cfg, n.minCost, items, x)
    ensures x !in ApplyItems(cfg, n, items).1
  {
    if items != [] {
      ApplyItemsGrow(cfg, n, items[..|items| - 1]);
      AvoidedNotAcknowledged(cfg, n, items[..|items| - 1], x);
    }
  }

  /** A node whose entries another never takes in as x sends it only such items. */
  lemma {:induction false} PayloadAvoids(cfg: Config, n: Node, wants: seq<Digest>, limit: Option<nat>,
      minCost: Option<nat>, x: Digest)
    requires cfg.Faithful()
    requires forall id :: id in n.store && id in wants ==> !TakenAs(cfg, minCost, n.store[id], x)
    ensures ItemsAvoid(cfg, minCost, PayloadFor(cfg, n, wants, limit).0, x)
  {
    if wants != [] {
      var m := |wants| - 1;
      assert forall id :: id in wants[..m] ==> id in wants;
      PayloadAvoids(cfg, n, wants[..m], limit, minCost, x);
    }
  }

  lemma PoliciesStay(cfg: Config, n: Node, items: seq<seq<byte>>)
    ensures ApplyItems(cfg, n, items).0.minCost == n.minCost
  {
    ApplyItemsGrow(cfg, n, items);
  }

  lemma StepKeepsPolicies(cfg: Config, w: World, act: Action)
    ensures Step(cfg, w, act).a.minCost == w.a.minCost && Step(cfg, w, act).b.minCost == w.b.minCost
  {
    if act.Deliver? && act.packet.Reply? {
      var wire := DecodeResponse(EncodeResponse(act.packet.response));
      var n := At(w, act.packet.to);
      if wire.Some? && wire.value.Payload? {
        PoliciesStay(cfg, n.(pending := n.pending - {act.packet.number}), wire.value.items);
      }
    }
  }

  // ---------------------------------------------------------------------------------------------
  // One-way runs: exactly which messages survive

  /** What a client's data becomes at a node with this policy; admission does not change the data. */
  predicate FromClient(cfg: Config, minCost: Option<nat>, e: Entry) {
    Admit(cfg, minCost, Entry(cfg.oracle.sha(e.data), e.data)) == Some(e)
  }

  predicate Stores(n: Node, e: Entry) {
    e.id in n.store && n.store[e.id] == e
  }

  /** A holds e, or can get it from a client; B would ask for it, and take it in as x. */
  predicate Threat(cfg: Config, w: World, x: Digest, e: Entry) {
    && TakenAs(cfg, w.b.minCost, e, x) && e.id !in w.b.store
    && (Stores(w.a, e) || (FromClient(cfg, w.a.minCost, e) && e.id !in w.a.store))
  }

  ghost predicate Threatened(cfg: Config, w: World, x: Digest) {
    exists e :: Threat(cfg, w, x, e)
  }

  /** What a client could send A that B would take in as x, A does not already store under that id as something else. */
  ghost predicate NoClash(cfg: Config, w: World, x: Digest) {
    forall e :: FromClient(cfg, w.a.minCost, e) && TakenAs(cfg, w.b.minCost, e, x) && e.id != x ==>
      (e.id in w.a.store && e.id !in w.b.store ==> Stores(w.a, e))
  }

  /** A holds x; what B could be sent is not taken in as x; B never asks for what it stored at the start. */
  ghost predicate RefusedPacket(cfg: Config, minCost: Option<nat>, had: set<Digest>, x: Digest, p: Packet) {
    && (p.Ask? && p.from.B? && p.request.MessageAck? ==> x !in p.request.delivered)
    && (p.Ask? && p.from.B? && p.request.MessageGet? ==> Apart(p.request.wants, had))
    && (p.Reply? && p.to.B? && p.response.Payload? ==> ItemsAvoid(cfg, minCost, p.response.items, x))
  }

  ghost predicate Apart(ids: seq<Digest>, had: set<Digest>) {
    forall id :: id in ids ==> id !in had
  }

  ghost predicate Refused(cfg: Config, w: World, had: set<Digest>, x: Digest) {
    && x in w.a.store && had <= w.b.store.Keys
    && (forall id :: id in w.a.store && id !in had ==> !TakenAs(cfg, w.b.minCost, w.a.store[id], x))
    && (forall p :: p in w.net ==> RefusedPacket(cfg, w.b.minCost, had, x, p))
    && (forall i :: 0 <= i < |w.b.queue| ==> w.b.queue[i].MessageGet? ==> Apart(w.b.queue[i].wants, had))
  }

  /** No client of A can send what B would ask for and take in as x, except x itself. */
  ghost predicate ClientsHarmless(cfg: Config, a: Option<nat>, b: Option<nat>, had: set<Digest>, x: Digest) {
    forall e :: FromClient(cfg, a, e) && e.id != x && e.id !in had ==> !TakenAs(cfg, b, e, x)
  }

  lemma RefusedClient(cfg: Config, w: World, had: set<Digest>, x: Digest, side: Side, data: seq<byte>)
    requires Refused(cfg, w, had, x) && ClientsHarmless(cfg, w.a.minCost, w.b.minCost, had, x)
    ensures Refused(cfg, Step(cfg, w, Client(side, data)), had, x)
  {
    var w1 := Step(cfg, w, Client(side, data));
    assert w1.net == w.net;
    var e := Admit(cfg, w.a.minCost, Entry(cfg.oracle.sha(data), data));
    assert e.Some? ==> FromClient(cfg, w.a.minCost, e.value);
  }

  lemma WantsApart(n: Node, available: seq<Digest>, had: set<Digest>)
    requires had <= n.store.Keys
    ensures Apart(Wants(n, available), had)
  {
    forall id | id in Wants(n, available)
      ensures id !in had
    {
      WantsMembers(n, available, id);
    }
  }

  lemma RefusedRequest(cfg: Config, w: World, known: set<Digest>, ever: set<Digest>, had: set<Digest>, x: Digest,
                       packet: Packet, listed: seq<Digest>, keyValid: bool)
    requires cfg.Faithful() && Safe(w, known, ever) && Refused(cfg, w, had, x) && packet in w.net && packet.Ask?
    ensures Refused(cfg, HandleRequest(cfg, w, packet.from, packet.number, packet.request, listed, keyValid), had, x)
  {
    assert PacketOk(w, known, packet) && RefusedPacket(cfg, w.b.minCost, had, x, packet);
    match packet.request
    case MessageGet(wants, _, limit) => { PayloadAvoids(cfg, w.a, wants, LimitBytes(limit), w.b.minCost, x); }
    case Offer(_, available) => { WantsApart(w.b, available, had); }
    case _ => {}
  }

  lemma RefusedResponse(cfg: Config, w: World, known: set<Digest>, ever: set<Digest>, had: set<Digest>, x: Digest,
                        packet: Packet, number: nat)
    requires Safe(w, known, ever) && Refused(cfg, w, had, x) && packet in w.net && packet.Reply?
    ensures Refused(cfg, HandleResponse(cfg, w, packet.to, packet.number, packet.response, number), had, x)
  {
    assert RefusedPacket(cfg, w.b.minCost, had, x, packet);
    if packet.to.B? {
      var ids := ResponseEffect(cfg, w, packet, number, x);
    }
  }

  lemma RefusedStep(cfg: Config, w: World, known: set<Digest>, ever: set<Digest>, had: set<Digest>, x: Digest,
      act: Action)
    requires cfg.Faithful() && Safe(w, known, ever)
    requires Refused(cfg, w, had, x) && ClientsHarmless(cfg, w.a.minCost, w.b.minCost, had, x)
    requires Enabled(w, act) && !(act.SendOffer? && act.side.B?)
    ensures Refused(cfg, Step(cfg, w, act), had, x)
  {
    match act
    case Client(side, data) => { RefusedClient(cfg, w, had, x, side, data); }
    case Deliver(packet, listed, keyValid, number) => {
      if packet.Ask? {
        RefusedRequest(cfg, w, known, ever, had, x, packet, listed, keyValid);
      } else {
        RefusedResponse(cfg, w, known, ever, had, x, packet, number);
      }
    }
    case _ => {}
  }

  lemma {:induction false} RefusedRun(cfg: Config, w: World, known: set<Digest>, ever: set<Digest>, had: set<Digest>,
                                      x: Digest, actions: seq<Action>)
    requires cfg.Faithful() && Safe(w, known, ever)
    requires Refused(cfg, w, had, x) && ClientsHarmless(cfg, w.a.minCost, w.b.minCost, had, x)
    requires Legal(cfg, w, actions) && OneWay(actions)
    ensures x in Run(cfg, w, actions).a.store
    decreases |actions|
  {
    if actions != [] {
      var w1 := Step(cfg, w, actions[0]);
      StepSafe(cfg, w, known, ever, actions[0]);
      RefusedStep(cfg, w, known, ever, had, x, actions[0]);
      StepKeepsPolicies(cfg, w, actions[0]);
      RefusedRun(cfg, w1, known, Ever(w1, ever), had, x, actions[1..]);
    }
  }

  lemma RefusedAtStart(cfg: Config, w: World, x: Digest)
    requires Quiet(w) && Keyed(w.a) && x in w.a.store && NoClash(cfg, w, x) && !Threatened(cfg, w, x)
    ensures Refused(cfg, w, w.b.store.Keys, x)
    ensures ClientsHarmless(cfg, w.a.minCost, w.b.minCost, w.b.store.Keys, x)
  {
    forall id | id in w.a.store && id !in w.b.store.Keys
      ensures !TakenAs(cfg, w.b.minCost, w.a.store[id], x)
    {
      assert !Threat(cfg, w, x, w.a.store[id]);
    }
    forall e | FromClient(cfg, w.a.minCost, e) && e.id != x && e.id !in w.b.store.Keys
      ensures !TakenAs(cfg, w.b.minCost, e, x)
    {
      assert !Threat(cfg, w, x, e);
    }
  }

  // ---------------------------------------------------------------------------------------------
  // Losing a message

  /** A node is given e by a client, if it does not store it yet, and once it no longer lists it as processed. */
  lemma Acquire(cfg: Config, w: World, side: Side, e: Entry) returns (actions: seq<Action>)
    requires Stores(At(w, side), e) || (FromClient(cfg, At(w, side).minCost, e) && e.id !in At(w, side).store)
    ensures Legal(cfg, w, actions) && (forall i :: 0 <= i < |actions| ==> !actions[i].SendOffer?)
    ensures var z := Run(cfg, w, actions);
            && At(z, Other(side)) == At(w, Other(side))
            && At(z, side).store == At(w, side).store[e.id := e]
            && At(z, side).queue == At(w, side).queue && At(z, side).minCost == At(w, side).minCost
  {
    if Stores(At(w, side), e) {
      actions := [];
      assert At(w, side).store[e.id := e] == At(w, side).store;
    } else if e.id !in At(w, side).processed {
      var a := Client(side, e.data);
      assert Legal(cfg, Step(cfg, w, a), []);
      LegalThen(cfg, w, a, []);
      actions := [a] + [];
    } else {
      var a1 := Forget(side, {e.id});
      var a2 := Client(side, e.data);
      var w1 := Step(cfg, w, a1);
      assert Legal(cfg, Step(cfg, w1, a2), []);
      LegalThen(cfg, w1, a2, []);
      LegalThen(cfg, w, a1, [a2] + []);
      actions := [a1] + ([a2] + []);
    }
  }

  /** An exchange of an entry that the other node takes in as x, once the offering node has it. */
  lemma AcquireAndOffer(cfg: Config, w: World, side: Side, e: Entry, x: Digest) returns (actions: seq<Action>)
    requires cfg.Faithful() && Keyed(At(w, side)) && At(w, Other(side)).queue == []
    requires Stores(At(w, side), e) || (FromClient(cfg, At(w, side).minCost, e) && e.id !in At(w, side).store)
    requires e.id !in At(w, Other(side)).store && TakenAs(cfg, At(w, Other(side)).minCost, e, x)
    ensures Legal(cfg, w, actions) && OffersOnly(actions, side)
    ensures var z := Run(cfg, w, actions);
            && x !in At(z, side).store
            && At(z, side).queue == At(w, side).queue && At(z, side).minCost == At(w, side).minCost
            && Taken(cfg, At(w, Other(side)), At(z, Other(side)), x)
  {
    var first := Acquire(cfg, w, side, e);
    var w1 := Run(cfg, w, first);
    var more := Exchange(cfg, w1, side, e.id, x);
    RunsJoin(cfg, w, first, more);
    actions := first + more;
  }

  /**
   * A message of A survives every run in which only A offers if and only if it is not both threatened and
   * listed by B as processed without being stored. This holds for all stamp policies of the two nodes.
   */
  lemma OneWayKeepsIff(cfg: Config, w: World, x: Digest)
    requires cfg.Faithful() && Quiet(w) && Keyed(w.a) && x in w.a.store && NoClash(cfg, w, x)
    ensures (forall actions :: Legal(cfg, w, actions) && OneWay(actions) ==> Survives(Run(cfg, w, actions), x))
            <==> !(x in Forgotten(w.b) && Threatened(cfg, w, x))
  {
    if x in Forgotten(w.b) && Threatened(cfg, w, x) {
      var e :| Threat(cfg, w, x, e);
      var actions := AcquireAndOffer(cfg, w, A, e, x);
      assert OneWay(actions);
      assert !Survives(Run(cfg, w, actions), x);
    } else {
      forall actions | Legal(cfg, w, actions) && OneWay(actions)
        ensures Survives(Run(cfg, w, actions), x)
      {
        if x in Forgotten(w.b) {
          RefusedAtStart(cfg, w, x);
          RefusedRun(cfg, w, Forgotten(w.b), w.a.store.Keys, w.b.store.Keys, x, actions);
        } else {
          OneWayLosesNothing(cfg, w, actions, x);
        }
      }
    }
  }

  lemma AdmittedNamed(cfg: Config, cost: nat, e: Entry)
    ensures Admit(cfg, Some(cost), e).Some? ==> Named(cfg, true, Admit(cfg, Some(cost), e).value)
  {
  }

  lemma NamedTakenAs(cfg: Config, minCost: Option<nat>, e: Entry, x: Digest)
    requires minCost.None? || Named(cfg, true, e)
    ensures TakenAs(cfg, minCost, e, x) ==> e.id == x
  {
  }

  /** What A stores or gets from a client is taken in by B under its own id, if at all. */
  lemma TakenAsItself(cfg: Config, w: World, e: Entry, x: Digest)
    requires w.b.minCost.None? || NodeNamed(cfg, true, w.a)
    requires (Stores(w.a, e) || FromClient(cfg, w.a.minCost, e)) && TakenAs(cfg, w.b.minCost, e, x)
    ensures e.id == x
  {
    if w.b.minCost.Some? && !Stores(w.a, e) {
      AdmittedNamed(cfg, w.a.minCost.value, Entry(cfg.oracle.sha(e.data), e.data));
    }
    NamedTakenAs(cfg, w.b.minCost, e, x);
  }

  /**
   * If B checks no stamps, or A checks them and names messages by their unstamped data, the condition is about
   * A's own entry only: B does not both accept it and list it as processed without storing it.
   */
  lemma OneWayKeepsIffAccepted(cfg: Config, w: World, x: Digest)
    requires cfg.Faithful() && Quiet(w) && Keyed(w.a) && x in w.a.store
    requires w.b.minCost.None? || NodeNamed(cfg, true, w.a)
    ensures (forall actions :: Legal(cfg, w, actions) && OneWay(actions) ==> Survives(Run(cfg, w, actions), x))
            <==> !(x in Forgotten(w.b) && TakenAs(cfg, w.b.minCost, w.a.store[x], x))
  {
    forall e | (Stores(w.a, e) || FromClient(cfg, w.a.minCost, e)) && TakenAs(cfg, w.b.minCost, e, x)
      ensures e.id == x
    {
      TakenAsItself(cfg, w, e, x);
    }
    OneWayKeepsIff(cfg, w, x);
    if x in Forgotten(w.b) && TakenAs(cfg, w.b.minCost, w.a.store[x], x) {
      assert Threat(cfg, w, x, w.a.store[x]);
    }
  }

  /** The stamped form of some data, as a client of a node that checks no stamps delivers it. */
  function Stamped(cfg: Config, data: seq<byte>, stamp: seq<byte>): Entry {
    Entry(cfg.oracle.sha(data + stamp), data + stamp)
  }

  /** A node that checks stamps takes data with a good stamp in under the hash of the data alone. */
  lemma StampedTakenAs(cfg: Config, cost: nat, data: seq<byte>, stamp: seq<byte>)
    requires |data| > LXMF_OVERHEAD && |stamp| == STAMP_SIZE
    requires MeetsCost(StampHash(cfg.oracle, cfg.oracle.sha(data), PN_ROUNDS, stamp), cost)
    ensures TakenAs(cfg, Some(cost), Stamped(cfg, data, stamp), cfg.oracle.sha(data))
    ensures FromClient(cfg, None, Stamped(cfg, data, stamp))
  {
    var all := data + stamp;
    assert all[..|data|] == data && all[|data|..] == stamp;
  }

  /**
   * If A checks no stamps and B does: a message x of A, known by the hash of data for which a good stamp is at
   * hand, survives every one-way run if and only if B does not list it as processed without storing it,
   * whether or not B accepts A's own entry.
   */
  lemma OneWayOpenToChecking(cfg: Config, w: World, cost: nat, data: seq<byte>, stamp: seq<byte>)
    requires cfg.Faithful() && Quiet(w) && Keyed(w.a) && w.a.minCost.None? && w.b.minCost == Some(cost)
    requires |data| > LXMF_OVERHEAD && |stamp| == STAMP_SIZE && cfg.oracle.sha(data) in w.a.store
    requires MeetsCost(StampHash(cfg.oracle, cfg.oracle.sha(data), PN_ROUNDS, stamp), cost)
    requires var e := Stamped(cfg, data, stamp); e.id !in w.b.store && (e.id in w.a.store ==> Stores(w.a, e))
    ensures var x := cfg.oracle.sha(data);
            (forall actions :: Legal(cfg, w, actions) && OneWay(actions) ==> Survives(Run(cfg, w, actions), x))
            <==> x !in Forgotten(w.b)
  {
    var x, e := cfg.oracle.sha(data), Stamped(cfg, data, stamp);
    StampedTakenAs(cfg, cost, data, stamp);
    if x in Forgotten(w.b) {
      var actions := AcquireAndOffer(cfg, w, A, e, x);
      assert OneWay(actions);
      assert !Survives(Run(cfg, w, actions), x);
    } else {
      forall actions | Legal(cfg, w, actions) && OneWay(actions)
        ensures Survives(Run(cfg, w, actions), x)
      {
        OneWayLosesNothing(cfg, w, actions, x);
      }
    }
  }

  /** In particular B need not accept A's entry: here it is too short for B, and is lost all the same. */
  lemma RefusedYetLost(cfg: Config, w: World, cost: nat, data: seq<byte>, stamp: seq<byte>)
    requires cfg.Faithful() && Quiet(w) && Keyed(w.a) && w.a.minCost.None? && w.b.minCost == Some(cost)
    requires |data| == LXMF_OVERHEAD + 1 && |stamp| == STAMP_SIZE
    requires MeetsCost(StampHash(cfg.oracle, cfg.oracle.sha(data), PN_ROUNDS, stamp), cost)
    requires var x := cfg.oracle.sha(data); Stores(w.a, Entry(x, data)) && x in Forgotten(w.b)
    requires var e := Stamped(cfg, data, stamp); e.id !in w.b.store && e.id !in w.a.store
    ensures var x := cfg.oracle.sha(data);
            && Admit(cfg, w.b.minCost, w.a.store[x]).None?
            && exists actions :: Legal(cfg, w, actions) && OneWay(actions) && !Survives(Run(cfg, w, actions), x)
  {
    OneWayOpenToChecking(cfg, w, cost, data, stamp);
  }

  // ---------------------------------------------------------------------------------------------
  // Two-way runs: exactly which messages survive

  /** Both nodes name messages alike: neither checks stamps, or both do and name them by their unstamped data. */
  ghost predicate Agree(cfg: Config, w: World) {
    && Keyed(w.a) && Keyed(w.b)
    && ((w.a.minCost.None? && w.b.minCost.None?) || Authentic(cfg, true, w))
  }

  lemma AgreeStep(cfg: Config, w: World, act: Action)
    requires cfg.Faithful() && Agree(cfg, w) && Enabled(w, act)
    ensures Agree(cfg, Step(cfg, w, act))
  {
    assert [act][1..] == [] && Run(cfg, Step(cfg, w, act), []) == Step(cfg, w, act);
    RunKeyed(cfg, w, [act]);
    StepKeepsPolicies(cfg, w, act);
    if w.a.minCost.Some? || w.b.minCost.Some? {
      StepAuthentic(cfg, true, w, act);
    }
  }

  lemma {:induction false} AgreeRun(cfg: Config, w: World, actions: seq<Action>)
    requires cfg.Faithful() && Agree(cfg, w) && Legal(cfg, w, actions)
    ensures Agree(cfg, Run(cfg, w, actions))
    decreases |actions|
  {
    if actions != [] {
      AgreeStep(cfg, w, actions[0]);
      AgreeRun(cfg, Step(cfg, w, actions[0]), actions[1..]);
    }
  }

  lemma AgreeUnrenamed(cfg: Config, w: World, side: Side)
    requires Agree(cfg, w)
    ensures Unrenamed(cfg, At(w, Other(side)).minCost, At(w, side))
  {
    forall id | id in At(w, side).store && Admit(cfg, At(w, Other(side)).minCost, At(w, side).store[id]).Some?
      ensures Admit(cfg, At(w, Other(side)).minCost, At(w, side).store[id]).value.id == id
    {
      if w.a.minCost.Some? || w.b.minCost.Some? {
        assert Named(cfg, true, At(w, side).store[id]);
      }
    }
  }

  /** Nothing under way concerns x. */
  ghost predicate Unconcerned(cfg: Config, w: World, x: Digest, p: Packet) {
    match p
    case Ask(_, _, r) => (r.MessageGet? ==> x !in r.wants) && (r.MessageAck? ==> x !in r.delivered)
    case Reply(to, _, r) => r.Payload? ==> ItemsAvoid(cfg, At(w, to).minCost, r.items, x)
  }

  ghost predicate AsksOthers(queue: seq<Request>, x: Digest) {
    forall i :: 0 <= i < |queue| ==> queue[i].MessageGet? && x !in queue[i].wants
  }

  ghost predicate BothHold(cfg: Config, w: World, x: Digest) {
    && x in w.a.store && x in w.b.store
    && AsksOthers(w.a.queue, x) && AsksOthers(w.b.queue, x)
    && forall p :: p in w.net ==> Unconcerned(cfg, w, x, p)
  }

  lemma BothRequest(cfg: Config, w: World, x: Digest, packet: Packet, listed: seq<Digest>, keyValid: bool)
    requires cfg.Faithful() && Agree(cfg, w) && BothHold(cfg, w, x) && packet in w.net && packet.Ask?
    ensures BothHold(cfg, HandleRequest(cfg, w, packet.from, packet.number, packet.request, listed, keyValid), x)
  {
    var w1 := HandleRequest(cfg, w, packet.from, packet.number, packet.request, listed, keyValid);
    var n := At(w, Other(packet.from));
    assert Unconcerned(cfg, w, x, packet);
    match packet.request
    case Offer(_, available) => { WantsMembers(n, available, x); }
    case MessageGet(wants, _, limit) => {
      AgreeUnrenamed(cfg, w, Other(packet.from));
      PayloadAvoids(cfg, n, wants, LimitBytes(limit), At(w, packet.from).minCost, x);
    }
    case _ => {}
    forall p | p in w1.net
      ensures Unconcerned(cfg, w1, x, p)
    {
      assert p in w.net ==> Unconcerned(cfg, w, x, p);
    }
  }

  lemma PayloadEffect(cfg: Config, n: Node, r: Response, x: Digest)
    ensures var (m, ids) := ApplyPayload(cfg, n, r);
            Fuller(n, m) && ((r.Payload? ==> ItemsAvoid(cfg, n.minCost, r.items, x)) ==> x !in ids)
  {
    if r.Payload? {
      ApplyItemsGrow(cfg, n, r.items);
      if ItemsAvoid(cfg, n.minCost, r.items, x) {
        AvoidedNotAcknowledged(cfg, n, r.items, x);
      }
    }
  }

  /**
   * What a response does: the node grows, keeps its queue, and may acknowledge; never an id that its payload
   * avoids.
   */
  lemma ResponseEffect(cfg: Config, w: World, packet: Packet, number: nat, x: Digest) returns (ids: seq<Digest>)
    requires packet.Reply?
    ensures var w1 := HandleResponse(cfg, w, packet.to, packet.number, packet.response, number);
            && At(w1, Other(packet.to)) == At(w, Other(packet.to)) && Fuller(At(w, packet.to), At(w1, packet.to))
            && w1.net == w.net + (if ids == [] then {} else {Ask(packet.to, number, MessageAck(ids))})
    ensures (packet.response.Payload? ==> ItemsAvoid(cfg, At(w, packet.to).minCost, packet.response.items, x)) ==>
        x !in ids
  {
    ids := [];
    var n := At(w, packet.to);
    if packet.number in n.pending && !n.pending[packet.number].Offer? && !n.pending[packet.number].MessageAck? {
      ResponseRoundTripIff(packet.response);
      var wire := DecodeResponse(EncodeResponse(packet.response));
      if wire.Some? {
        assert wire.value.Payload? ==> wire.value == packet.response;
        var n1 := n.(pending := n.pending - {packet.number});
        PayloadEffect(cfg, n1, wire.value, x);
        ids := ApplyPayload(cfg, n1, wire.value).1;
      }
    }
  }

  lemma BothResponse(cfg: Config, w: World, x: Digest, packet: Packet, number: nat)
    requires BothHold(cfg, w, x) && packet in w.net && packet.Reply?
    ensures BothHold(cfg, HandleResponse(cfg, w, packet.to, packet.number, packet.response, number), x)
  {
    var w1 := HandleResponse(cfg, w, packet.to, packet.number, packet.response, number);
    assert Unconcerned(cfg, w, x, packet);
    var ids := ResponseEffect(cfg, w, packet, number, x);
    forall p | p in w1.net
      ensures Unconcerned(cfg, w1, x, p)
    {
      assert p in w.net ==> Unconcerned(cfg, w, x, p);
    }
  }

  lemma BothOther(cfg: Config, w: World, x: Digest, act: Action)
    requires BothHold(cfg, w, x) && !act.Deliver?
    ensures BothHold(cfg, Step(cfg, w, act), x)
  {
    var w1 := Step(cfg, w, act);
    StepKeepsPolicies(cfg, w, act);
    forall p | p in w1.net
      ensures Unconcerned(cfg, w1, x, p)
    {
      assert p in w.net ==> Unconcerned(cfg, w, x, p);
    }
  }

  lemma {:induction false} BothRun(cfg: Config, w: World, x: Digest, actions: seq<Action>)
    requires cfg.Faithful() && Agree(cfg, w) && BothHold(cfg, w, x) && Legal(cfg, w, actions)
    ensures BothHold(cfg, Run(cfg, w, actions), x)
    decreases |actions|
  {
    if actions != [] {
      var act := actions[0];
      AgreeStep(cfg, w, act);
      if act.Deliver? && act.packet.Ask? {
        BothRequest(cfg, w, x, act.packet, act.listed, act.keyValid);
      } else if act.Deliver? {
        BothResponse(cfg, w, x, act.packet, act.number);
      } else {
        BothOther(cfg, w, x, act);
      }
      BothRun(cfg, Step(cfg, w, act), x, actions[1..]);
    }
  }

  /** What would make the other node acknowledge x to `side`. */
  ghost predicate ShunnedPacket(cfg: Config, w: World, side: Side, x: Digest, p: Packet) {
    && (p.Ask? && p.from == Other(side) && p.request.MessageAck? ==> x !in p.request.delivered)
    && (p.Reply? && p.to == Other(side) && p.response.Payload? ==>
        ItemsAvoid(cfg, At(w, Other(side)).minCost, p.response.items, x))
  }

  /** `side` holds x as an entry that the other node refuses, and nothing under way acknowledges x to it. */
  ghost predicate Shunned(cfg: Config, w: World, side: Side, x: Digest) {
    && x in At(w, side).store && !TakenAs(cfg, At(w, Other(side)).minCost, At(w, side).store[x], x)
    && forall p :: p in w.net ==> ShunnedPacket(cfg, w, side, x, p)
  }

  /** The other node takes in nothing that `side` stores as x. */
  ghost predicate SideAvoids(cfg: Config, w: World, side: Side, x: Digest) {
    forall id :: id in At(w, side).store ==> !TakenAs(cfg, At(w, Other(side)).minCost, At(w, side).store[id], x)
  }

  lemma ShunnedAvoids(cfg: Config, w: World, side: Side, x: Digest)
    requires Agree(cfg, w) && Shunned(cfg, w, side, x)
    ensures SideAvoids(cfg, w, side, x)
  {
    AgreeUnrenamed(cfg, w, side);
  }

  lemma ShunnedRequest(cfg: Config, w: World, side: Side, x: Digest, packet: Packet, listed: seq<Digest>,
      keyValid: bool)
    requires cfg.Faithful() && SideAvoids(cfg, w, side, x) && Shunned(cfg, w, side, x) && packet in w.net && packet.Ask?
    ensures Shunned(cfg, HandleRequest(cfg, w, packet.from, packet.number, packet.request, listed, keyValid), side, x)
  {
    var w1 := HandleRequest(cfg, w, packet.from, packet.number, packet.request, listed, keyValid);
    assert ShunnedPacket(cfg, w, side, x, packet);
    if packet.request.MessageGet? && packet.from == Other(side) {
      var limit := LimitBytes(packet.request.limitKb);
      PayloadAvoids(cfg, At(w, side), packet.request.wants, limit, At(w, Other(side)).minCost, x);
    }
    forall p | p in w1.net
      ensures ShunnedPacket(cfg, w1, side, x, p)
    {
      assert p in w.net ==> ShunnedPacket(cfg, w, side, x, p);
    }
  }

  lemma ShunnedResponse(cfg: Config, w: World, side: Side, x: Digest, packet: Packet, number: nat)
    requires Shunned(cfg, w, side, x) && packet in w.net && packet.Reply?
    ensures Shunned(cfg, HandleResponse(cfg, w, packet.to, packet.number, packet.response, number), side, x)
  {
    var w1 := HandleResponse(cfg, w, packet.to, packet.number, packet.response, number);
    assert ShunnedPacket(cfg, w, side, x, packet);
    var ids := ResponseEffect(cfg, w, packet, number, x);
    forall p | p in w1.net
      ensures ShunnedPacket(cfg, w1, side, x, p)
    {
      assert p in w.net ==> ShunnedPacket(cfg, w, side, x, p);
    }
  }

  /** Queues hold only requests for messages. */
  ghost predicate QueuesAsk(w: World) {
    && (forall i :: 0 <= i < |w.a.queue| ==> w.a.queue[i].MessageGet?)
    && (forall i :: 0 <= i < |w.b.queue| ==> w.b.queue[i].MessageGet?)
  }

  lemma ShunnedOther(cfg: Config, w: World, side: Side, x: Digest, act: Action)
    requires Shunned(cfg, w, side, x) && QueuesAsk(w) && !act.Deliver?
    ensures Shunned(cfg, Step(cfg, w, act), side, x)
  {
    var w1 := Step(cfg, w, act);
    StepKeepsPolicies(cfg, w, act);
    forall p | p in w1.net
      ensures ShunnedPacket(cfg, w1, side, x, p)
    {
      assert p in w.net ==> ShunnedPacket(cfg, w, side, x, p);
    }
  }

  lemma QueuesKeepAsking(cfg: Config, w: World, act: Action)
    requires QueuesAsk(w)
    ensures QueuesAsk(Step(cfg, w, act))
  {
    if act.Deliver? && act.packet.Reply? {
      var wire := DecodeResponse(EncodeResponse(act.packet.response));
      var n := At(w, act.packet.to);
      if wire.Some? && wire.value.Payload? {
        ApplyItemsGrow(cfg, n.(pending := n.pending - {act.packet.number}), wire.value.items);
      }
    }
  }

  /** No entry whatever is taken in as x under this policy. */
  ghost predicate Unclaimable(cfg: Config, minCost: Option<nat>, x: Digest) {
    forall e :: !TakenAs(cfg, minCost, e, x)
  }

  lemma {:induction false} ShunnedRun(cfg: Config, w: World, side: Side, x: Digest, actions: seq<Action>)
    requires cfg.Faithful() && (Agree(cfg, w) || Unclaimable(cfg, At(w, Other(side)).minCost, x))
    requires QueuesAsk(w) && Shunned(cfg, w, side, x) && Legal(cfg, w, actions)
    ensures x in At(Run(cfg, w, actions), side).store
    decreases |actions|
  {
    if actions != [] {
      var act := actions[0];
      if Agree(cfg, w) {
        AgreeStep(cfg, w, act);
        ShunnedAvoids(cfg, w, side, x);
      }
      StepKeepsPolicies(cfg, w, act);
      QueuesKeepAsking(cfg, w, act);
      ShunnedStep(cfg, w, side, x, act);
      ShunnedRun(cfg, Step(cfg, w, act), side, x, actions[1..]);
    }
  }

  lemma ShunnedStep(cfg: Config, w: World, side: Side, x: Digest, act: Action)
    requires cfg.Faithful() && SideAvoids(cfg, w, side, x) && QueuesAsk(w)
    requires Shunned(cfg, w, side, x) && Enabled(w, act)
    ensures Shunned(cfg, Step(cfg, w, act), side, x)
  {
    if act.Deliver? && act.packet.Ask? {
      ShunnedRequest(cfg, w, side, x, act.packet, act.listed, act.keyValid);
    } else if act.Deliver? {
      ShunnedResponse(cfg, w, side, x, act.packet, act.number);
    } else {
      ShunnedOther(cfg, w, side, x, act);
    }
  }

  /** Exactly one of the nodes checks stamps. */
  predicate Mixed(w: World) {
    w.a.minCost.None? <==> w.b.minCost.Some?
  }

  /** `side` holds x, the other does not but, like `side`, would take it in; nothing waits to be asked for. */
  ghost predicate OnlyHolder(cfg: Config, w: World, side: Side, x: Digest) {
    && (Agree(cfg, w) || (Mixed(w) && Keyed(w.a) && Keyed(w.b)))
    && w.a.queue == [] && w.b.queue == []
    && x in At(w, side).store && x !in At(w, Other(side)).store
    && TakenAs(cfg, w.a.minCost, At(w, side).store[x], x) && TakenAs(cfg, w.b.minCost, At(w, side).store[x], x)
  }

  lemma StillPaired(cfg: Config, w: World, actions: seq<Action>)
    requires cfg.Faithful() && Legal(cfg, w, actions) && (Agree(cfg, w) || (Mixed(w) && Keyed(w.a) && Keyed(w.b)))
    requires Run(cfg, w, actions).a.minCost == w.a.minCost && Run(cfg, w, actions).b.minCost == w.b.minCost
    ensures var z := Run(cfg, w, actions); Agree(cfg, z) || (Mixed(z) && Keyed(z.a) && Keyed(z.b))
  {
    if Agree(cfg, w) {
      AgreeRun(cfg, w, actions);
    } else {
      RunKeyed(cfg, w, actions);
    }
  }

  /** One exchange loses x, or moves it to the other node, which has then processed it. */
  lemma OneExchange(cfg: Config, w: World, side: Side, x: Digest) returns (actions: seq<Action>)
    requires cfg.Faithful() && OnlyHolder(cfg, w, side, x)
    ensures |actions| == 6 && Legal(cfg, w, actions)
    ensures var z := Run(cfg, w, actions);
            && At(z, side).processed == At(w, side).processed && x in At(z, Other(side)).processed
            && if x in At(w, Other(side)).processed then !Survives(z, x) else OnlyHolder(cfg, z, Other(side), x)
  {
    if Agree(cfg, w) {
      AgreeUnrenamed(cfg, w, side);
    }
    actions := Exchange(cfg, w, side, x, x);
    StillPaired(cfg, w, actions);
  }

  /** How many exchanges it takes to lose x. */
  function ExchangesLeft(w: World, side: Side, x: Digest): nat {
    if x in At(w, Other(side)).processed then 1 else if x in At(w, side).processed then 2 else 3
  }

  /** Three exchanges at most, of six steps each, lose x. */
  lemma LoseFrom(cfg: Config, w: World, side: Side, x: Digest) returns (actions: seq<Action>)
    requires cfg.Faithful() && OnlyHolder(cfg, w, side, x)
    ensures Legal(cfg, w, actions) && !Survives(Run(cfg, w, actions), x)
    ensures |actions| == 6 * ExchangesLeft(w, side, x) <= 18
    decreases ExchangesLeft(w, side, x)
  {
    var first := OneExchange(cfg, w, side, x);
    if x in At(w, Other(side)).processed {
      actions := first;
    } else {
      var w1 := Run(cfg, w, first);
      var more := LoseFrom(cfg, w1, Other(side), x);
      RunsJoin(cfg, w, first, more);
      actions := first + more;
    }
  }

  /** One of the nodes stores x and the other would accept that entry, but does not store x. */
  predicate Exposed(cfg: Config, w: World, side: Side, x: Digest) {
    && x in At(w, side).store && x !in At(w, Other(side)).store
    && TakenAs(cfg, At(w, Other(side)).minCost, At(w, side).store[x], x)
  }

  /**
   * When both nodes offer, a message that its holder would still accept survives every run if and only if no
   * node holds it alone while the other would accept it: both store it, or the other refuses it.
   */
  lemma TwoWayKeepsIff(cfg: Config, w: World, x: Digest)
    requires cfg.Faithful() && Quiet(w) && Agree(cfg, w) && Survives(w, x)
    requires forall side :: x in At(w, side).store ==> TakenAs(cfg, At(w, side).minCost, At(w, side).store[x], x)
    ensures (forall actions :: Legal(cfg, w, actions) ==> Survives(Run(cfg, w, actions), x))
            <==> !Exposed(cfg, w, A, x) && !Exposed(cfg, w, B, x)
  {
    var side := if x in w.a.store then A else B;
    assert x in At(w, side).store;
    if Exposed(cfg, w, side, x) {
      var actions := LoseFrom(cfg, w, side, x);
      assert !Survives(Run(cfg, w, actions), x);
    } else {
      forall actions | Legal(cfg, w, actions)
        ensures Survives(Run(cfg, w, actions), x)
      {
        if x in At(w, Other(side)).store {
          BothRun(cfg, w, x, actions);
        } else {
          ShunnedRun(cfg, w, side, x, actions);
        }
      }
    }
  }

  /** Between nodes that check no stamps: if and only if both already store it. */
  lemma OpenTwoWayKeepsIff(cfg: Config, w: World, x: Digest)
    requires cfg.Faithful() && Quiet(w) && Keyed(w.a) && Keyed(w.b)
    requires w.a.minCost.None? && w.b.minCost.None? && Survives(w, x)
    ensures (forall actions :: Legal(cfg, w, actions) ==> Survives(Run(cfg, w, actions), x))
            <==> x in w.a.store && x in w.b.store
  {
    TwoWayKeepsIff(cfg, w, x);
  }

  // ---------------------------------------------------------------------------------------------
  // Two-way runs between a node that checks stamps and one that does not

  /** `checking` checks stamps and the other node does not. */
  predicate OnlyChecks(w: World, checking: Side) {
    At(w, checking).minCost.Some? && At(w, Other(checking)).minCost.None?
  }

  /** The form that a client's data has at a node that checks no stamps. */
  function Plain(cfg: Config, data: seq<byte>): Entry {
    Entry(cfg.oracle.sha(data), data)
  }

  /** The node that checks no stamps stores e or can be given it by a client, and the other would ask for it. */
  predicate Usable(cfg: Config, w: World, checking: Side, e: Entry) {
    && e.id !in At(w, checking).store
    && (Stores(At(w, Other(checking)), e) || (FromClient(cfg, None, e) && e.id !in At(w, Other(checking)).store))
  }

  /** If the checking node takes a usable entry in as x, some run loses x. */
  lemma UsableLoses(cfg: Config, w: World, checking: Side, x: Digest, e: Entry) returns (actions: seq<Action>)
    requires cfg.Faithful() && Quiet(w) && Keyed(w.a) && Keyed(w.b) && OnlyChecks(w, checking) && Survives(w, x)
    requires x in At(w, checking).store ==> TakenAs(cfg, At(w, checking).minCost, At(w, checking).store[x], x)
    requires Usable(cfg, w, checking, e) && TakenAs(cfg, At(w, checking).minCost, e, x)
    ensures Legal(cfg, w, actions) && !Survives(Run(cfg, w, actions), x)
  {
    var open := Other(checking);
    if x !in At(w, open).store {
      actions := LoseFrom(cfg, w, checking, x);
    } else {
      var first := AcquireAndOffer(cfg, w, open, e, x);
      var z := Run(cfg, w, first);
      actions := first;
      if x in At(z, checking).store {
        RunKeyed(cfg, w, first);
        var more := LoseFrom(cfg, z, checking, x);
        RunsJoin(cfg, w, first, more);
        actions := first + more;
      }
    }
  }

  /** The checking node judges an entry by its data alone. */
  lemma DataDecides(cfg: Config, cost: nat, e: Entry, x: Digest)
    ensures TakenAs(cfg, Some(cost), e, x) <==> TakenAs(cfg, Some(cost), Plain(cfg, e.data), x)
  {
  }

  /**
   * A message that the checking node holds and would still accept is lost in some run, even if both nodes store
   * it: a client gives the same data to the other node, which knows it by its full hash.
   */
  lemma MixedLosesHeld(cfg: Config, w: World, checking: Side, x: Digest) returns (actions: seq<Action>)
    requires cfg.Faithful() && Quiet(w) && Keyed(w.a) && Keyed(w.b) && OnlyChecks(w, checking)
    requires x in At(w, checking).store && TakenAs(cfg, At(w, checking).minCost, At(w, checking).store[x], x)
    requires x in At(w, Other(checking)).store ==> Usable(cfg, w, checking, Plain(cfg, At(w, checking).store[x].data))
    ensures Legal(cfg, w, actions) && !Survives(Run(cfg, w, actions), x)
  {
    if x in At(w, Other(checking)).store {
      var e := At(w, checking).store[x];
      DataDecides(cfg, At(w, checking).minCost.value, e, x);
      actions := UsableLoses(cfg, w, checking, x, Plain(cfg, e.data));
    } else {
      actions := LoseFrom(cfg, w, checking, x);
    }
  }

  /** And so is one that the other node holds, if it is the hash of data for which a good stamp is at hand. */
  lemma MixedLosesStamped(cfg: Config, w: World, checking: Side, data: seq<byte>, stamp: seq<byte>)
    returns (actions: seq<Action>)
    requires cfg.Faithful() && Quiet(w) && Keyed(w.a) && Keyed(w.b) && OnlyChecks(w, checking)
    requires var x := cfg.oracle.sha(data); x in At(w, Other(checking)).store && x !in At(w, checking).store
    requires |data| > LXMF_OVERHEAD && |stamp| == STAMP_SIZE
    requires MeetsCost(StampHash(cfg.oracle, cfg.oracle.sha(data), PN_ROUNDS, stamp), At(w, checking).minCost.value)
    requires Usable(cfg, w, checking, Stamped(cfg, data, stamp))
    ensures Legal(cfg, w, actions) && !Survives(Run(cfg, w, actions), cfg.oracle.sha(data))
  {
    StampedTakenAs(cfg, At(w, checking).minCost.value, data, stamp);
    actions := UsableLoses(cfg, w, checking, cfg.oracle.sha(data), Stamped(cfg, data, stamp));
  }

  /**
   * Whatever data the checking node takes in as x is usable: neither node stores something else under its full
   * hash.
   */
  ghost predicate AllUsable(cfg: Config, w: World, checking: Side, x: Digest) {
    forall data :: TakenAs(cfg, At(w, checking).minCost, Plain(cfg, data), x) ==>
        Usable(cfg, w, checking, Plain(cfg, data))
  }

  /**
   * Between a node that checks stamps and one that does not, a message survives every run if and only if there
   * is no data that the checking node takes in under its id. Those the checking node holds and accepts never
   * do; those held by the other alone do as long as no good stamp exists for them.
   */
  lemma MixedKeepsIff(cfg: Config, w: World, checking: Side, x: Digest)
    requires cfg.Faithful() && Quiet(w) && Keyed(w.a) && Keyed(w.b) && OnlyChecks(w, checking) && Survives(w, x)
    requires x in At(w, checking).store ==> TakenAs(cfg, At(w, checking).minCost, At(w, checking).store[x], x)
    requires AllUsable(cfg, w, checking, x)
    ensures (forall actions :: Legal(cfg, w, actions) ==> Survives(Run(cfg, w, actions), x))
            <==> Unclaimable(cfg, At(w, checking).minCost, x)
  {
    if Unclaimable(cfg, At(w, checking).minCost, x) {
      forall actions | Legal(cfg, w, actions)
        ensures Survives(Run(cfg, w, actions), x)
      {
        ShunnedRun(cfg, w, Other(checking), x, actions);
      }
    } else {
      var e :| TakenAs(cfg, At(w, checking).minCost, e, x);
      DataDecides(cfg, At(w, checking).minCost.value, e, x);
      var actions := UsableLoses(cfg, w, checking, x, Plain(cfg, e.data));
      assert !Survives(Run(cfg, w, actions), x);
    }
  }
}
