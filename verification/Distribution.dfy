/**
 * lxmf-rs/src/rns/router.rs, peer.rs and storage.rs: the fan-out of stored messages to peers through the
 * distribution queue and the per-peer queues of handled and unhandled messages.
 */
module Distribution {
  import opened Common

  /** For each message the peers it is marked for (handled_peers or unhandled_peers). */
  type Marks = map<Digest, set<Address>>

  function Mark(m: Marks, id: Digest, peer: Address): Marks {
    m[id := (if id in m then m[id] else {}) + {peer}]
  }

  /** A message whose last mark goes loses its row. */
  function Unmark(m: Marks, id: Digest, peer: Address): Marks {
    if id !in m then m
    else if m[id] - {peer} == {} then m - {id}
    else m[id := m[id] - {peer}]
  }

  /** The messages marked for a peer: handled_messages_for_peer and unhandled_messages_for_peer. */
  function MarkedFor(m: Marks, peer: Address): set<Digest> {
    set id | id in m && peer in m[id]
  }

  lemma MarkAdds(m: Marks, id: Digest, peer: Address)
    ensures forall p :: MarkedFor(Mark(m, id, peer), p) == MarkedFor(m, p) + (if p == peer then {id} else {})
  {
  }

  lemma UnmarkRemoves(m: Marks, id: Digest, peer: Address)
    ensures forall p :: MarkedFor(Unmark(m, id, peer), p) == MarkedFor(m, p) - (if p == peer then {id} else {})
  {
    forall p
      ensures MarkedFor(Unmark(m, id, peer), p) == MarkedFor(m, p) - (if p == peer then {id} else {})
    {
      if id in m && p in m[id] && p != peer {
        assert p in m[id] - {peer};
      }
    }
  }

  function Elements(s: seq<Digest>): set<Digest> {
    set x | x in s
  }

  /** The propagation store, as far as distribution is concerned. */
  datatype Store = Store(entries: set<Digest>, handled: Marks, unhandled: Marks)

  /** What process_queues makes of the handled set H, for queue Qh and stored ids S. */
  function NewHandled(h: set<Digest>, qh: set<Digest>, stored: set<Digest>): set<Digest> {
    h + qh * stored
  }

  /** What process_queues makes of the unhandled set U, for queues Qh and Qu. */
  function NewUnhandled(h: set<Digest>, u: set<Digest>, qh: set<Digest>, qu: set<Digest>,
      stored: set<Digest>): set<Digest> {
    (u - qh * stored) + (qu * stored - (h + u))
  }

  /**
   * Handled and unhandled sets that were disjoint stay disjoint exactly when every stored message queued
   * both ways was already marked one way.
   */
  lemma DisjointIff(h: set<Digest>, u: set<Digest>, qh: set<Digest>, qu: set<Digest>, stored: set<Digest>)
    requires h !! u
    ensures NewHandled(h, qh, stored) !! NewUnhandled(h, u, qh, qu, stored) <==> qh * qu * stored <= h + u
  {
    var h', u' := NewHandled(h, qh, stored), NewUnhandled(h, u, qh, qu, stored);
    if qh * qu * stored <= h + u {
      forall x | x in h'
        ensures x !in u'
      {
      }
    } else {
      var x :| x in qh * qu * stored && x !in h + u;
      assert x in h' && x in u';
    }
  }

  /** No stored message queued for a peer is forgotten: it ends up handled or unhandled. */
  lemma QueuedIsMarked(h: set<Digest>, u: set<Digest>, qh: set<Digest>, qu: set<Digest>, stored: set<Digest>)
    ensures (qh + qu) * stored <= NewHandled(h, qh, stored) + NewUnhandled(h, u, qh, qu, stored)
    ensures (h + u) <= NewHandled(h, qh, stored) + NewUnhandled(h, u, qh, qu, stored)
  {
  }

  datatype Peer = Peer(handledQueue: seq<Digest>, unhandledQueue: seq<Digest>)

  /** An entry of the distribution queue: a message and the peer it came from, if any. */
  datatype Delivery = Delivery(id: Digest, from: Option<Address>)

  /** What the distribution queue means for one peer: everything that did not come from it. */
  function FanOut(entries: seq<Delivery>, peer: Address): seq<Digest> {
    if entries == [] then []
    else FanOut(entries[..|entries| - 1], peer)
         + (if entries[|entries| - 1].from != Some(peer) then [entries[|entries| - 1].id] else [])
  }

  lemma {:induction false} FanOutMembers(entries: seq<Delivery>, peer: Address, id: Digest)
    ensures id in FanOut(entries, peer) <==>
        exists i :: 0 <= i < |entries| && entries[i].id == id && entries[i].from != Some(peer)
  {
    if entries != [] {
      var m := |entries| - 1;
      FanOutMembers(entries[..m], peer, id);
      if i :| 0 <= i < m && entries[..m][i].id == id && entries[..m][i].from != Some(peer) {
        assert entries[i].id == id && entries[i].from != Some(peer);
      }
      if i :| 0 <= i < |entries| && entries[i].id == id && entries[i].from != Some(peer) {
        assert i < m ==> entries[..m][i] == entries[i];
      }
    }
  }

  ghost predicate SameMarks(before: Store, after: Store, peer: Address) {
    && MarkedFor(after.handled, peer) == MarkedFor(before.handled, peer)
    && MarkedFor(after.unhandled, peer) == MarkedFor(before.unhandled, peer)
  }

  lemma SameMarksTwice(a: Store, b: Store, c: Store, peer: Address)
    requires forall p :: p != peer ==> SameMarks(a, b, p)
    requires forall p :: p != peer ==> SameMarks(b, c, p)
    ensures forall p :: p != peer ==> SameMarks(a, c, p)
  {
    forall p | p != peer
      ensures SameMarks(a, c, p)
    {
      assert SameMarks(a, b, p) && SameMarks(b, c, p);
    }
  }

  /** One round of the handled loop; h and u are the marks the peer started with. */
  function HandleOne(s: Store, id: Digest, peer: Address, h: set<Digest>, u: set<Digest>): Store {
    if id !in s.entries then s else
    s.(handled := if id !in h then Mark(s.handled, id, peer) else s.handled,
       unhandled := if id in u then Unmark(s.unhandled, id, peer) else s.unhandled)
  }

  lemma HandleOneEffect(s: Store, id: Digest, peer: Address, h: set<Digest>, u: set<Digest>)
    requires h <= MarkedFor(s.handled, peer) && MarkedFor(s.unhandled, peer) <= u
    ensures var t := HandleOne(s, id, peer, h, u);
            && MarkedFor(t.handled, peer) == MarkedFor(s.handled, peer) + {id} * s.entries
            && MarkedFor(t.unhandled, peer) == MarkedFor(s.unhandled, peer) - {id} * s.entries
            && forall p :: p != peer ==> SameMarks(s, t, p)
  {
    MarkAdds(s.handled, id, peer);
    UnmarkRemoves(s.unhandled, id, peer);
  }

  method ProcessHandled(store: Store, peer: Address, queue: seq<Digest>, h: set<Digest>, u: set<Digest>)
    returns (s: Store)
    requires h == MarkedFor(store.handled, peer) && u == MarkedFor(store.unhandled, peer)
    ensures s.entries == store.entries
    ensures MarkedFor(s.handled, peer) == NewHandled(h, Elements(queue), store.entries)
    ensures MarkedFor(s.unhandled, peer) == u - Elements(queue) * store.entries
    ensures forall p :: p != peer ==> SameMarks(store, s, p)
  {
    s := store;
    for i := 0 to |queue|
      invariant s.entries == store.entries
      invariant MarkedFor(s.handled, peer) == h + Elements(queue[..i]) * store.entries
      invariant MarkedFor(s.unhandled, peer) == u - Elements(queue[..i]) * store.entries
      invariant forall p :: p != peer ==> SameMarks(store, s, p)
    {
      assert Elements(queue[..i + 1]) == Elements(queue[..i]) + {queue[i]};
      HandleOneEffect(s, queue[i], peer, h, u);
      SameMarksTwice(store, s, HandleOne(s, queue[i], peer, h, u), peer);
      s := HandleOne(s, queue[i], peer, h, u);
    }
    assert queue[..|queue|] == queue;
  }

  method ProcessUnhandled(store: Store, peer: Address, queue: seq<Digest>, h: set<Digest>, u: set<Digest>)
    returns (s: Store)
    ensures s.entries == store.entries && s.handled == store.handled
    ensures MarkedFor(s.unhandled, peer) == MarkedFor(store.unhandled, peer)
        + (Elements(queue) * store.entries - (h + u))
    ensures forall p :: p != peer ==> SameMarks(store, s, p)
  {
    s := store;
    for i := 0 to |queue|
      invariant s.entries == store.entries && s.handled == store.handled
      invariant MarkedFor(s.unhandled, peer) == MarkedFor(store.unhandled, peer)
          + (Elements(queue[..i]) * store.entries - (h + u))
      invariant forall p :: p != peer ==> SameMarks(store, s, p)
    {
      var id := queue[i];
      assert Elements(queue[..i + 1]) == Elements(queue[..i]) + {id};
      MarkAdds(s.unhandled, id, peer);
      if id !in h && id !in u && id in s.entries {
        SameMarksTwice(store, s, s.(unhandled := Mark(s.unhandled, id, peer)), peer);
        s := s.(unhandled := Mark(s.unhandled, id, peer));
      }
    }
    assert queue[..|queue|] == queue;
  }

  /** What one peer's queues do to its marks; other peers' marks stay. */
  ghost predicate Processed(before: Store, after: Store, peer: Address, qh: set<Digest>, qu: set<Digest>) {
    var h, u := MarkedFor(before.handled, peer), MarkedFor(before.unhandled, peer);
    && MarkedFor(after.handled, peer) == NewHandled(h, qh, before.entries)
    && MarkedFor(after.unhandled, peer) == NewUnhandled(h, u, qh, qu, before.entries)
  }

  /** Peer::process_queues: both decisions use the marks as they were before the call. */
  method ProcessQueues(store: Store, peer: Address, p: Peer) returns (s: Store)
    ensures s.entries == store.entries
    ensures Processed(store, s, peer, Elements(p.handledQueue), Elements(p.unhandledQueue))
    ensures forall other :: other != peer ==> SameMarks(store, s, other)
  {
    var h, u := MarkedFor(store.handled, peer), MarkedFor(store.unhandled, peer);
    var first := ProcessHandled(store, peer, p.handledQueue, h, u);
    s := ProcessUnhandled(first, peer, p.unhandledQueue, h, u);
    SameMarksTwice(store, first, s, peer);
  }

  lemma NothingQueued(s: Store, p: Address)
    ensures Processed(s, s, p, Elements([]), Elements([]))
  {
    assert Elements([]) == {};
  }

  /** A peer's queues, as they were at the start, have been worked off. */
  ghost predicate Done(before: Store, after: Store, peers: map<Address, Peer>, p: Address)
    requires p in peers
  {
    Processed(before, after, p, Elements(peers[p].handledQueue), Elements(peers[p].unhandledQueue))
  }

  /** Working off one more peer's queues disturbs neither the finished nor the waiting ones. */
  lemma OthersKeep(first: Store, prior: Store, now: Store, peers: map<Address, Peer>, left: set<Address>, p: Address)
    requires p in left && left <= peers.Keys && prior.entries == first.entries
    requires forall q :: q in peers && q !in left ==> Done(first, prior, peers, q)
    requires forall q :: q in left || q !in peers ==> SameMarks(first, prior, q)
    requires Done(prior, now, peers, p) && forall q :: q != p ==> SameMarks(prior, now, q)
    ensures forall q :: q in peers && q !in left - {p} ==> Done(first, now, peers, q)
    ensures forall q :: q in left - {p} || q !in peers ==> SameMarks(first, now, q)
  {
    assert SameMarks(first, prior, p);
    forall q | q != p
      ensures q in peers && q !in left ==> Done(first, now, peers, q)
      ensures q in left || q !in peers ==> SameMarks(first, now, q)
    {
      assert SameMarks(prior, now, q);
      if q in left || q !in peers {
        assert SameMarks(first, prior, q);
      } else {
        assert Done(first, prior, peers, q);
      }
    }
  }

  class DistributionRouter {
    var peers: map<Address, Peer>
    var queue: seq<Delivery>
    var store: Store

    constructor (store: Store)
      ensures peers == map[] && queue == [] && this.store == store
    {
      peers, queue, this.store := map[], [], store;
    }

    /** Enqueue for one peer what the drained distribution queue holds for it. */
    method FlushTo(peer: Address, entries: seq<Delivery>)
      requires peer in peers
      modifies this`peers
      ensures peers == old(peers)[peer :=
        old(peers)[peer].(unhandledQueue := old(peers)[peer].unhandledQueue + FanOut(entries, peer))]
    {
      var pending := peers[peer].unhandledQueue;
      for i := 0 to |entries|
        invariant pending == peers[peer].unhandledQueue + FanOut(entries[..i], peer)
      {
        assert entries[..i + 1][..i] == entries[..i];
        if entries[i].from != Some(peer) {
          pending := pending + [entries[i].id];
        }
      }
      assert entries[..|entries|] == entries;
      peers := peers[peer := peers[peer].(unhandledQueue := pending)];
    }

    method FlushPeerDistributionQueue()
      modifies this`peers, this`queue
      ensures queue == [] && peers.Keys == old(peers).Keys
      ensures forall p :: p in peers ==>
        && peers[p].handledQueue == old(peers)[p].handledQueue
        && peers[p].unhandledQueue == old(peers)[p].unhandledQueue + FanOut(old(queue), p)
    {
      var entries := queue;
      queue := [];
      var left := peers.Keys;
      while left != {}
        invariant left <= peers.Keys == old(peers).Keys && queue == []
        invariant forall p :: p in left ==> peers[p] == old(peers)[p]
        invariant forall p :: p in peers && p !in left ==>
          && peers[p].handledQueue == old(peers)[p].handledQueue
          && peers[p].unhandledQueue == old(peers)[p].unhandledQueue + FanOut(entries, p)
        decreases left
      {
        var p :| p in left;
        FlushTo(p, entries);
        left := left - {p};
      }
    }

    /** Process the queues of every peer that has something queued. */
    method ProcessAll()
      modifies this`peers, this`store
      ensures peers.Keys == old(peers).Keys && store.entries == old(store).entries
      ensures forall p :: p in peers ==> peers[p] == Peer([], [])
      ensures forall p :: p in peers ==>
        Processed(old(store), store, p, Elements(old(peers)[p].handledQueue), Elements(old(peers)[p].unhandledQueue))
      ensures forall p :: p !in peers ==> SameMarks(old(store), store, p)
    {
      ghost var first, start := store, peers;
      var left := peers.Keys;
      while left != {}
        invariant left <= peers.Keys == start.Keys && store.entries == first.entries
        invariant forall p :: p in left ==> peers[p] == start[p]
        invariant forall p :: p in start && p !in left ==> peers[p] == Peer([], [])
        invariant forall p :: p in start && p !in left ==> Done(first, store, start, p)
        invariant forall p :: p in left || p !in start ==> SameMarks(first, store, p)
        decreases left
      {
        var p :| p in left;
        ghost var prior := store;
        if peers[p].handledQueue != [] || peers[p].unhandledQueue != [] {
          store := ProcessQueues(store, p, peers[p]);
          peers := peers[p := Peer([], [])];
        } else {
          NothingQueued(store, p);
        }
        OthersKeep(first, prior, store, start, left, p);
        left := left - {p};
      }
    }

    /**
     * flush_queues. With at least one peer every queue is empty afterwards, each peer's marks follow from
     * its queues and the distribution queue, and everybody else's marks are untouched.
     */
    method FlushQueues()
      modifies this
      ensures peers.Keys == old(peers).Keys && store.entries == old(store).entries
      ensures old(peers) == map[] ==> unchanged(this)
      ensures old(peers) != map[] ==> queue == [] && forall p :: p in peers ==> peers[p] == Peer([], [])
      ensures old(peers) != map[] ==> forall p :: p in peers ==>
        Processed(old(store), store, p, Elements(old(peers)[p].handledQueue),
                  Elements(old(peers)[p].unhandledQueue + FanOut(old(queue), p)))
      ensures forall p :: p !in peers ==> SameMarks(old(store), store, p)
    {
      if |peers| == 0 {
        return;
      }
      FlushPeerDistributionQueue();
      ProcessAll();
    }
  }

  /**
   * After a flush, each stored message of the distribution queue is handled or unhandled for every peer
   * other than the one it came from.
   */
  lemma FlushReachesEveryPeer(before: Store, after: Store, peer: Address, p: Peer, entries: seq<Delivery>, i: nat)
    requires Processed(before, after, peer, Elements(p.handledQueue),
        Elements(p.unhandledQueue + FanOut(entries, peer)))
    requires i < |entries| && entries[i].from != Some(peer) && entries[i].id in before.entries
    ensures entries[i].id in MarkedFor(after.handled, peer) || entries[i].id in MarkedFor(after.unhandled, peer)
  {
    FanOutMembers(entries, peer, entries[i].id);
    var h, u := MarkedFor(before.handled, peer), MarkedFor(before.unhandled, peer);
    var qh, qu := Elements(p.handledQueue), Elements(p.unhandledQueue + FanOut(entries, peer));
    assert entries[i].id in qu;
    QueuedIsMarked(h, u, qh, qu, before.entries);
    assert entries[i].id in (qh + qu) * before.entries;
  }
}
