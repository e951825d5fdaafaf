/**
 * lxmf-rs/src/rns/router.rs: what a propagation node answers to each request and what each request, response and
 * client message does to it, in terms of what it stores.
 */
module SyncAnswers {
  import opened Common
  import opened Stamps
  import opened PeerSyncCodec
  import opened PeerSync

  /** The world without its traffic, so that what a step sends can be seen. */
  function Silent(w: World): World {
    w.(net := {})
  }

  /** A request with a wrong peering key is answered by error 0xf3; the node is left as it was. */
  lemma InvalidKeyRefused(cfg: Config, w: World, from: Side, number: nat, offer: Request, listed: seq<Digest>)
    requires offer.Offer?
    ensures HandleRequest(cfg, w, from, number, offer, listed, false)
         == w.(net := w.net + {Reply(from, number, Error(0xf3))})
  {
  }

  /**
   * An offer with a good key: the answer is `false` if and only if every offered id is stored. Otherwise it lists
   * exactly the offered ids that are not, in the order of the offer, and a request for just these is queued.
   */
  lemma OfferAnswer(cfg: Config, w: World, from: Side, number: nat, key: seq<byte>, available: seq<Digest>,
                    listed: seq<Digest>)
    ensures var n := At(w, Other(from));
            var z := HandleRequest(cfg, Silent(w), from, number, Offer(key, available), listed, true);
            var m := At(z, Other(from));
            && At(z, from) == At(w, from)
            && m.(queue := n.queue) == n
            && (z.net == {Reply(from, number, Flag(false))} <==> forall id :: id in available ==> id in n.store)
            && (z.net == {Reply(from, number, Flag(false))} ==> m.queue == n.queue)
            && (z.net != {Reply(from, number, Flag(false))} ==>
                  exists wants: seq<Digest> ::
                    && wants != [] && IsSubsequence(wants, available)
                    && (forall id :: id in wants <==> id in available && id !in n.store)
                    && z.net == {Reply(from, number, IdList(wants))}
                    && m.queue == n.queue + [MessageGet(wants, listed, None)])
  {
    var n := At(w, Other(from));
    var wants := Wants(n, available);
    forall id
      ensures id in wants <==> id in available && id !in n.store
    {
      WantsMembers(n, available, id);
    }
    WantsInOrder(n, available);
    if wants != [] {
      assert wants[0] in wants;
    }
    assert Reply(from, number, Flag(false)) != Reply(from, number, IdList(wants));
    var z := HandleRequest(cfg, Silent(w), from, number, Offer(key, available), listed, true);
    assert wants != [] ==> Reply(from, number, IdList(wants)) in z.net;
    assert wants == [] ==> z.net == {Reply(from, number, Flag(false))};
    assert wants != [] ==> z.net == {Reply(from, number, IdList(wants))};
  }

  /** a is obtained from b by leaving members out. */
  predicate IsSubsequence<T(==)>(a: seq<T>, b: seq<T>) {
    if a == [] then true
    else if b == [] then false
    else if a[|a| - 1] == b[|b| - 1] then IsSubsequence(a[..|a| - 1], b[..|b| - 1])
    else IsSubsequence(a, b[..|b| - 1])
  }

  lemma {:induction false} SkipLast<T>(a: seq<T>, b: seq<T>, x: T)
    requires IsSubsequence(a, b)
    ensures IsSubsequence(a, b + [x])
    decreases |b|, 1
  {
    assert (b + [x])[..|b|] == b;
    if a != [] && a[|a| - 1] == x {
      DropLast(a, b);
    }
  }

  lemma {:induction false} DropLast<T>(a: seq<T>, b: seq<T>)
    requires a != [] && IsSubsequence(a, b)
    ensures IsSubsequence(a[..|a| - 1], b)
    decreases |b|, 0
  {
    var a', b' := a[..|a| - 1], b[..|b| - 1];
    assert b == b' + [b[|b| - 1]];
    if a[|a| - 1] == b[|b| - 1] {
      SkipLast(a', b', b[|b| - 1]);
    } else {
      DropLast(a, b');
      SkipLast(a', b', b[|b| - 1]);
    }
  }

  lemma {:induction false} WantsInOrder(n: Node, available: seq<Digest>)
    ensures IsSubsequence(Wants(n, available), available)
  {
    if available != [] {
      var k := |available| - 1;
      var before := Wants(n, available[..k]);
      WantsInOrder(n, available[..k]);
      assert available == available[..k] + [available[k]];
      if available[k] !in n.store {
        assert (before + [available[k]])[..|before|] == before;
      } else {
        SkipLast(before, available[..k], available[k]);
        assert Wants(n, available) == before;
      }
    }
  }

  /** The answer to a request for the list of messages holds exactly the stored ids, each once; nothing changes. */
  lemma ListAnswer(cfg: Config, w: World, from: Side, number: nat, listed: seq<Digest>, keyValid: bool)
    requires Enumerates(listed, At(w, Other(from)).store.Keys)
    ensures exists ids: seq<Digest> ::
              && HandleRequest(cfg, w, from, number, MessageGetList, listed, keyValid)
                 == w.(net := w.net + {Reply(from, number, IdList(ids))})
              && Distinct(ids) && forall id :: id in ids <==> id in At(w, Other(from)).store
  {
    assert HandleRequest(cfg, w, from, number, MessageGetList, listed, keyValid)
        == w.(net := w.net + {Reply(from, number, IdList(listed))});
  }

  /** The answer to a request for messages changes nothing but the traffic, whatever it holds. */
  lemma GetAnswer(cfg: Config, w: World, from: Side, number: nat, get: Request, listed: seq<Digest>, keyValid: bool)
    returns (items: seq<seq<byte>>)
    requires get.MessageGet?
    ensures HandleRequest(cfg, w, from, number, get, listed, keyValid)
         == w.(net := w.net + {Reply(from, number, Payload(items))})
    ensures var n := At(w, Other(from));
            get.limitKb.None? ==>
              forall item :: item in items <==>
                  exists id :: id in get.wants && id in n.store && cfg.encode(n.store[id]) == item
    ensures get.limitKb.Some? && get.limitKb.value >= 0.0 ==> |Flatten(items)| as real <= get.limitKb.value * 1000.0
  {
    var n := At(w, Other(from));
    items := PayloadFor(cfg, n, get.wants, LimitBytes(get.limitKb)).0;
    assert HandleRequest(cfg, w, from, number, get, listed, keyValid)
        == w.(net := w.net + {Reply(from, number, Payload(items))});
    if get.limitKb.None? {
      forall item
        ensures item in items <==> exists id :: id in get.wants && id in n.store && cfg.encode(n.store[id]) == item
      {
        PayloadMembers(cfg, n, get.wants, item);
      }
    } else {
      PayloadWithinLimit(cfg, n, get.wants, LimitBytes(get.limitKb).value);
    }
  }

  /** A wanted stored entry is left out of a limited payload only if it would not fit beside what is in it. */
  lemma {:induction false} LeftOutForRoom(cfg: Config, n: Node, wants: seq<Digest>, limit: nat, id: Digest)
    requires id in wants && id in n.store && cfg.encode(n.store[id]) !in PayloadFor(cfg, n, wants, Some(limit)).0
    ensures |Flatten(PayloadFor(cfg, n, wants, Some(limit)).0)| + |cfg.encode(n.store[id])| > limit
  {
    var k := |wants| - 1;
    PayloadWithinLimit(cfg, n, wants, limit);
    PayloadWithinLimit(cfg, n, wants[..k], limit);
    if id in wants[..k] {
      LeftOutForRoom(cfg, n, wants[..k], limit, id);
    } else {
      assert wants == wants[..k] + [wants[k]];
    }
  }

  /** In kilobytes: the smallest whole number of bytes above a limit is refused. */
  lemma LimitInBytes(kb: real)
    requires kb >= 0.0
    ensures LimitBytes(Some(kb)).value as real <= kb * 1000.0 < LimitBytes(Some(kb)).value as real + 1.0
  {
  }

  /** An acknowledgement removes exactly the acknowledged copies, and is answered by `true`. */
  lemma AckAnswer(cfg: Config, w: World, from: Side, number: nat, ids: seq<Digest>, listed: seq<Digest>, keyValid: bool)
    ensures var n := At(w, Other(from));
            var z := HandleRequest(cfg, Silent(w), from, number, MessageAck(ids), listed, keyValid);
            var m := At(z, Other(from));
            && At(z, from) == At(w, from) && m.(store := n.store) == n
            && (forall id :: id in m.store <==> id in n.store && id !in ids)
            && (forall id :: id in m.store ==> m.store[id] == n.store[id])
            && z.net == {Reply(from, number, Flag(true))}
  {
  }

  /**
   * A response nobody waits for changes nothing; one to an offer or to an acknowledgement only ends the waiting.
   */
  lemma ResponseIgnored(cfg: Config, w: World, side: Side, asked: nat, r: Response, number: nat)
    ensures asked !in At(w, side).pending ==> HandleResponse(cfg, w, side, asked, r, number) == w
    ensures var n := At(w, side);
            (asked in n.pending && (n.pending[asked].Offer? || n.pending[asked].MessageAck?)) ==>
              HandleResponse(cfg, w, side, asked, r, number) == Put(w, side, n.(pending := n.pending - {asked}), {})
  {
    var n1 := At(w, side).(pending := At(w, side).pending - {asked});
    assert w.net + {} == w.net;
    assert Put(w, side, n1, {}).net == w.net;
  }

  // ---------------------------------------------------------------------------------------------
  // A message is taken in once

  /** The same data again, even after the copy was dropped on an acknowledgement, changes nothing. */
  lemma ClientOnce(cfg: Config, n: Node, data: seq<byte>, ids: seq<Digest>)
    ensures var m := Propagate(cfg, n, data);
            && Propagate(cfg, m, data) == m
            && (Propagated(cfg, n, data) ==> Propagate(cfg, DropAll(m, ids), data) == DropAll(m, ids))
  {
  }

  /** Whether the data is taken in: it is admitted under an id that is neither stored nor processed. */
  predicate Propagated(cfg: Config, n: Node, data: seq<byte>) {
    var e := Admit(cfg, n.minCost, Entry(cfg.oracle.sha(data), data));
    e.Some? && e.value.id !in n.store && e.value.id !in n.processed
  }

  /** Taken in, it is stored and marked processed under that id, and nothing else changes; else nothing does. */
  lemma ClientEffect(cfg: Config, n: Node, data: seq<byte>)
    ensures var m := Propagate(cfg, n, data);
            && (Propagated(cfg, n, data) ==>
                  var e := Admit(cfg, n.minCost, Entry(cfg.oracle.sha(data), data)).value;
                  && e.id in m.store && m.store[e.id].data == data && m.store - {e.id} == n.store
                  && m.processed == n.processed + {e.id})
            && (!Propagated(cfg, n, data) ==> m == n)
            && m.(store := n.store, processed := n.processed) == n
  {
    if Propagated(cfg, n, data) {
      var e := Admit(cfg, n.minCost, Entry(cfg.oracle.sha(data), data)).value;
      assert n.store[e.id := e] - {e.id} == n.store;
    }
  }

  /**
   * Without stamp checks everything is admitted under the hash of its data; with them, only what carries a good
   * stamp.
   */
  lemma AdmitIff(cfg: Config, minCost: Option<nat>, e: Entry)
    ensures minCost.None? ==> Admit(cfg, minCost, e) == Some(e)
    ensures minCost.Some? ==>
              (Admit(cfg, minCost, e).Some? <==>
                 |e.data| > 144 && MeetsCost(StampHash(cfg.oracle, cfg.oracle.sha(e.data[..|e.data| - 32]), 1000,
                                                       e.data[|e.data| - 32..]), minCost.value))
    ensures minCost.Some? && Admit(cfg, minCost, e).Some? ==>
              Admit(cfg, minCost, e).value == Entry(cfg.oracle.sha(e.data[..|e.data| - 32]), e.data)
  {
  }

  // ---------------------------------------------------------------------------------------------
  // Runs in which no offer reaches B with a good key

  /** Every offer that reaches B comes with a wrong key. */
  ghost predicate Keyless(actions: seq<Action>) {
    forall i :: 0 <= i < |actions| && OfferToB(actions[i]) ==> !actions[i].keyValid
  }

  predicate OfferToB(act: Action) {
    act.Deliver? && act.packet.Ask? && act.packet.from.A? && act.packet.request.Offer?
  }

  /** B asks for nothing and acknowledges nothing. */
  ghost predicate Aloof(w: World) {
    && w.b.queue == []
    && (forall k :: k in w.b.pending ==> w.b.pending[k].Offer?)
    && (forall p :: p in w.net && p.Ask? && p.from.B? ==> p.request.Offer?)
    && (forall i :: 0 <= i < |w.a.queue| ==> w.a.queue[i].MessageGet?)
  }

  /** Where an entry of B comes from: it was there, or a client of B brought its data. */
  ghost predicate Accounted(cfg: Config, b: Node, actions: seq<Action>, e: Entry) {
    || (e.id in b.store && b.store[e.id] == e)
    || (exists i :: 0 <= i < |actions| && BroughtBy(cfg, b.minCost, actions[i], e))
  }

  predicate BroughtBy(cfg: Config, minCost: Option<nat>, act: Action, e: Entry) {
    act == Client(B, e.data) && Admit(cfg, minCost, Entry(cfg.oracle.sha(e.data), e.data)) == Some(e)
  }

  lemma AloofRequest(cfg: Config, w: World, packet: Packet, listed: seq<Digest>, keyValid: bool)
    requires Aloof(w) && packet in w.net && packet.Ask?
    requires packet.from.A? && packet.request.Offer? ==> !keyValid
    ensures var z := HandleRequest(cfg, w, packet.from, packet.number, packet.request, listed, keyValid);
            && Aloof(z) && z.b.minCost == w.b.minCost
            && (forall id :: id in z.b.store ==> id in w.b.store && z.b.store[id] == w.b.store[id])
            && (forall id :: id in w.a.store ==> id in z.a.store)
  {
  }

  lemma AloofResponse(cfg: Config, w: World, packet: Packet, number: nat)
    requires Aloof(w) && packet.Reply?
    ensures var z := HandleResponse(cfg, w, packet.to, packet.number, packet.response, number);
            && Aloof(z) && z.b.store == w.b.store && z.b.minCost == w.b.minCost
            && (forall id :: id in w.a.store ==> id in z.a.store)
  {
    var wire := DecodeResponse(EncodeResponse(packet.response));
    var n := At(w, packet.to);
    if wire.Some? && wire.value.Payload? {
      ApplyItemsGrow(cfg, n.(pending := n.pending - {packet.number}), wire.value.items);
    }
  }

  lemma AloofStep(cfg: Config, w: World, act: Action)
    requires Aloof(w) && Enabled(w, act) && (OfferToB(act) ==> !act.keyValid)
    ensures var z := Step(cfg, w, act);
            && Aloof(z) && z.b.minCost == w.b.minCost
            && (forall id :: id in z.b.store ==>
                  || (id in w.b.store && z.b.store[id] == w.b.store[id])
                  || (z.b.store[id].id == id && BroughtBy(cfg, w.b.minCost, act, z.b.store[id])))
            && (forall id :: id in w.a.store ==> id in z.a.store)
  {
    match act
    case Deliver(packet, listed, keyValid, number) => {
      if packet.Ask? {
        AloofRequest(cfg, w, packet, listed, keyValid);
      } else {
        AloofResponse(cfg, w, packet, number);
      }
    }
    case _ => {}
  }

  /**
   * Over every run in which all offers reach B with a wrong key, B asks for nothing and takes nothing in except
   * from its clients, and A loses nothing.
   */
  lemma {:induction false} KeylessRun(cfg: Config, w: World, actions: seq<Action>)
    requires Aloof(w) && Legal(cfg, w, actions) && Keyless(actions) && Keyed(w.b)
    ensures var z := Run(cfg, w, actions);
            && Aloof(z)
            && (forall id :: id in z.b.store ==> z.b.store[id].id == id && Accounted(cfg, w.b, actions, z.b.store[id]))
            && (forall id :: id in w.a.store ==> id in z.a.store)
    decreases |actions|
  {
    if actions != [] {
      var w1 := Step(cfg, w, actions[0]);
      AloofStep(cfg, w, actions[0]);
      KeylessRun(cfg, w1, actions[1..]);
      var z := Run(cfg, w, actions);
      forall id | id in z.b.store
        ensures Accounted(cfg, w.b, actions, z.b.store[id])
      {
        AccountedBefore(cfg, w.b, w1.b, actions, z.b.store[id]);
      }
    }
  }

  lemma AccountedBefore(cfg: Config, b: Node, b1: Node, actions: seq<Action>, e: Entry)
    requires actions != [] && b1.minCost == b.minCost && Accounted(cfg, b1, actions[1..], e)
    requires e.id in b1.store && b1.store[e.id] == e ==>
               (e.id in b.store && b.store[e.id] == e) || BroughtBy(cfg, b.minCost, actions[0], e)
    ensures Accounted(cfg, b, actions, e)
  {
    if !(e.id in b1.store && b1.store[e.id] == e) {
      var i :| 0 <= i < |actions[1..]| && BroughtBy(cfg, b.minCost, actions[1..][i], e);
      assert actions[i + 1] == actions[1..][i];
    }
  }
}
