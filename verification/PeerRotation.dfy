/** lxmf-rs/src/rns/router.rs: rotate_peers, which makes room by dropping peers with low acceptance rates. */
module PeerRotation {
  import opened Common
  import opened StableSort

  datatype PeerState = Idle | OfferSent | AwaitingPayload | Backoff

  datatype Peer = Peer(
    state: PeerState,
    lastAttemptMs: nat,
    lastHeardMs: nat,
    offered: nat,
    outgoing: nat,
    unhandled: nat)

  type Peers = map<Address, Peer>

  function Rate(p: Peer): real {
    if p.offered == 0 then 0.0 else p.outgoing as real / p.offered as real
  }

  /** Acceptance rate, in percent, below ROTATION_AR_MAX. */
  predicate Low(p: Peer) {
    Rate(p) * 100.0 < 0.5 * 100.0
  }

  /** In terms of the counts: fewer than half of the offered messages were wanted, or none was offered. */
  lemma LowIff(p: Peer)
    ensures Low(p) <==> p.offered == 0 || 2 * p.outgoing < p.offered
  {
    if p.offered > 0 {
      var r := Rate(p);
      assert r * p.offered as real == p.outgoing as real;
      RateBelow(r, p.outgoing, p.offered);
    }
  }

  lemma RateBelow(r: real, wanted: nat, offered: nat)
    requires offered > 0 && r * offered as real == wanted as real
    ensures r < 0.5 <==> 2 * wanted < offered
  {
    BelowHalf(r, offered as real, wanted as real);
    assert wanted as real < 0.5 * offered as real <==> 2 * wanted < offered;
  }

  lemma BelowHalf(r: real, d: real, w: real)
    requires d > 0.0 && r * d == w
    ensures r < 0.5 <==> w < 0.5 * d
  {
    CrossMultiplied(r, 0.5, d, 1.0);
  }

  /** One peer's rate is lower iff, cross-multiplied, its share is. */
  lemma RateLess(p: Peer, q: Peer)
    requires p.offered > 0 && q.offered > 0
    ensures Rate(p) < Rate(q) <==> p.outgoing * q.offered < q.outgoing * p.offered
  {
    var a, b, c, d := p.outgoing as real, p.offered as real, q.outgoing as real, q.offered as real;
    var r, s := Rate(p), Rate(q);
    assert r * b == a && s * d == c;
    CrossMultiplied(r, s, b, d);
    assert a * d == r * (b * d) && c * b == s * (b * d);
    assert (p.outgoing * q.offered) as real == a * d && (q.outgoing * p.offered) as real == c * b;
  }

  lemma CrossMultiplied(r: real, s: real, b: real, d: real)
    requires b > 0.0 && d > 0.0
    ensures r < s <==> r * (b * d) < s * (b * d)
  {
    var k := b * d;
    assert k > 0.0;
    if r < s {
      assert (s - r) * k > 0.0;
    } else {
      assert (r - s) * k >= 0.0;
    }
  }

  /** A tenth of the maximum, rounded down, but at least one; the drops bring the count down to the rest. */
  lemma DropsIff(count: nat, maxPeers: nat)
    ensures Headroom(maxPeers) >= 1
    ensures (maxPeers >= 20 ==> 10 * Headroom(maxPeers) <= maxPeers < 10 * Headroom(maxPeers) + 10)
    ensures maxPeers < 20 ==> Headroom(maxPeers) == 1
    ensures count + Headroom(maxPeers) <= maxPeers <==>
        RequiredDrops(count, maxPeers) == 0 && (maxPeers > 0 || count > 0)
    ensures maxPeers > 0 && RequiredDrops(count, maxPeers) > 0 ==>
              count - RequiredDrops(count, maxPeers) == maxPeers - Headroom(maxPeers)
  {
  }

  function Headroom(maxPeers: nat): nat {
    if maxPeers / 10 > 1 then maxPeers / 10 else 1
  }

  function Minus(x: nat, y: nat): nat {
    if x > y then x - y else 0
  }

  function RequiredDrops(count: nat, maxPeers: nat): nat {
    Minus(count, Minus(maxPeers, Headroom(maxPeers)))
  }

  ghost function Untested(peers: Peers): set<Address> {
    set id | id in peers && peers[id].lastAttemptMs == 0
  }

  /** Whether a rotation is due: there is something to drop, something left over, and few untested peers. */
  ghost predicate Due(peers: Peers, maxPeers: nat) {
    var required := RequiredDrops(|peers|, maxPeers);
    required > 0 && Minus(|peers|, required) > 1 && |Untested(peers)| < Headroom(maxPeers)
  }

  ghost predicate FullySynced(peers: Peers) {
    exists id :: id in peers && peers[id].unhandled == 0
  }

  /** Part of the basis of the pool: fully synced peers if there are any, else all of them. */
  ghost predicate Considered(peers: Peers, statics: set<Address>, id: Address) {
    id in peers && (FullySynced(peers) ==> peers[id].unhandled == 0) && id !in statics && peers[id].state.Idle?
  }

  ghost predicate Unresponsive(peers: Peers, statics: set<Address>, id: Address) {
    Considered(peers, statics, id) && peers[id].lastHeardMs == 0
  }

  ghost predicate Waiting(peers: Peers, statics: set<Address>, id: Address) {
    Considered(peers, statics, id) && peers[id].lastHeardMs > 0 && peers[id].offered > 0
  }

  ghost predicate InPool(peers: Peers, statics: set<Address>, prioritiseUnreachable: bool, id: Address) {
    || Unresponsive(peers, statics, id)
    || (Waiting(peers, statics, id) && !(prioritiseUnreachable && exists u :: Unresponsive(peers, statics, u)))
  }

  /** The drop pool: unresponsive peers, and waiting ones unless unresponsive ones take precedence. */
  ghost function Pool(peers: Peers, statics: set<Address>, prioritiseUnreachable: bool): set<Address> {
    set id | id in peers && InPool(peers, statics, prioritiseUnreachable, id)
  }

  /**
   * When a rotation is due, in numbers: more than one peer, and not all, would be left by what the maximum less
   * the headroom allows, and fewer peers than the headroom have never been tried.
   */
  lemma DueIff(peers: Peers, maxPeers: nat, untried: set<Address>)
    requires forall id :: id in untried <==> id in peers && peers[id].lastAttemptMs == 0
    ensures var room := if maxPeers >= 20 then maxPeers / 10 else 1;
            Due(peers, maxPeers) <==> 1 < maxPeers - room < |peers| && |untried| < room
  {
    assert untried == Untested(peers);
  }

  /** Idle, not static, and without unhandled messages if any peer is; and never heard of. */
  ghost predicate NeverHeard(peers: Peers, statics: set<Address>, u: Address) {
    && u in peers && u !in statics && peers[u].state == Idle && peers[u].lastHeardMs == 0
    && (peers[u].unhandled == 0 || forall q :: q in peers ==> peers[q].unhandled != 0)
  }

  /**
   * Who may be dropped, in terms of the peers: idle and not static; fully synced if any peer is; and either never
   * heard of, or heard of and offered something, the latter unless the former exist and take precedence.
   */
  lemma PoolIff(peers: Peers, statics: set<Address>, prioritiseUnreachable: bool, id: Address)
    ensures id in Pool(peers, statics, prioritiseUnreachable) <==>
      && id in peers && peers[id].state == Idle && id !in statics
      && (peers[id].unhandled == 0 || forall q :: q in peers ==> peers[q].unhandled != 0)
      && (|| peers[id].lastHeardMs == 0
          || (peers[id].offered != 0 && !(prioritiseUnreachable && exists u :: NeverHeard(peers, statics, u))))
  {
    forall u
      ensures NeverHeard(peers, statics, u) <==> Unresponsive(peers, statics, u)
    {
    }
  }

  datatype Row = Row(id: Address, rate: real)

  /** One row for each member of a listing of peers. */
  ghost predicate Rows(peers: Peers, rows: seq<Row>) {
    && (forall i, j :: 0 <= i < j < |rows| ==> rows[i].id != rows[j].id)
    && (forall i :: 0 <= i < |rows| ==> rows[i].id in peers && rows[i].rate == Rate(peers[rows[i].id]))
  }

  ghost predicate ByRate(rows: seq<Row>) {
    forall i, j :: 0 <= i < j < |rows| ==> rows[i].rate <= rows[j].rate
  }

  function LowestFirst(rows: seq<Row>): seq<Row> {
    Sorted(rows, (r: Row) => r.rate)
  }

  lemma SortKeepsRows(peers: Peers, rows: seq<Row>)
    requires Rows(peers, rows)
    ensures var t := LowestFirst(rows);
            Rows(peers, t) && ByRate(t) && |t| == |rows| && forall r :: r in t <==> r in rows
  {
    var key := (r: Row) => r.rate;
    var t := LowestFirst(rows);
    assert t == Sorted(rows, key);
    SortedPermutes(rows, key);
    forall i | 0 <= i < |t|
      ensures t[i].id in peers && t[i].rate == Rate(peers[t[i].id])
    {
      assert t[i] in rows;
    }
    forall i, j | 0 <= i < j < |t|
      ensures t[i].rate <= t[j].rate && t[i].id != t[j].id
    {
      assert key(t[i]) <= key(t[j]);
      assert t[i] in rows && t[j] in rows;
    }
  }

  /** What a rotation may do, given the pool it drops from. */
  ghost predicate Rotated(before: Peers, after: Peers, maxPeers: nat, pool: set<Address>) {
    && (forall id :: id in after ==> id in before && after[id] == before[id])
    && (forall id :: id in before && id !in after ==> id in pool && Low(before[id]))
    && (forall gone, id :: gone in before && gone !in after && id in after && id in pool ==>
          Rate(before[gone]) <= Rate(before[id]))
    && (after != before ==> |after| > 1 && |after| >= Minus(maxPeers, Headroom(maxPeers)))
  }

  /**
   * A completed rotation also drops as much as it may: it stops short of the required number only when
   * no peer with a low rate is left in the pool.
   */
  ghost predicate Exhaustive(before: Peers, after: Peers, maxPeers: nat, pool: set<Address>) {
    |before| - |after| < RequiredDrops(|before|, maxPeers) ==>
      forall id :: id in after && id in before && id in pool ==> !Low(before[id])
  }

  /** Static peers and peers in the middle of an exchange are never in the pool. */
  lemma PoolEligible(peers: Peers, statics: set<Address>, prioritiseUnreachable: bool, id: Address)
    requires id in Pool(peers, statics, prioritiseUnreachable)
    ensures id in peers && id !in statics && peers[id].state.Idle?
  {
  }

  ghost function IdsOf(rows: seq<Row>): set<Address> {
    set i | 0 <= i < |rows| :: rows[i].id
  }

  lemma {:induction false} IdsSize(peers: Peers, rows: seq<Row>)
    requires Rows(peers, rows)
    ensures IdsOf(rows) <= peers.Keys && |IdsOf(rows)| == |rows|
  {
    if rows != [] {
      var m := |rows| - 1;
      IdsSize(peers, rows[..m]);
      assert rows[m].id !in IdsOf(rows[..m]);
      IdsAppend(rows, m);
    }
  }

  lemma IdsAppend(rows: seq<Row>, m: nat)
    requires m < |rows|
    ensures IdsOf(rows[..m + 1]) == IdsOf(rows[..m]) + {rows[m].id}
    ensures IdsOf(rows[..|rows|]) == IdsOf(rows)
  {
    assert rows[..|rows|] == rows;
    forall x | x in IdsOf(rows[..m])
      ensures x in IdsOf(rows[..m + 1])
    {
      var i :| 0 <= i < m && rows[..m][i].id == x;
      assert rows[..m + 1][i].id == x;
    }
    assert rows[..m + 1][m].id == rows[m].id;
  }

  lemma DropSize(peers: Peers, ids: set<Address>)
    requires ids <= peers.Keys
    ensures |peers - ids| == |peers| - |ids|
  {
    assert (peers - ids).Keys == peers.Keys - ids;
  }

  /** Which of the two listings are taken. */
  lemma PoolListed(peers: Peers, statics: set<Address>, prioritise: bool, unresponsive: seq<Address>,
                   waiting: seq<Address>, pool: seq<Address>)
    requires Distinct(unresponsive) && Distinct(waiting)
    requires forall id :: id in unresponsive <==> Unresponsive(peers, statics, id)
    requires forall id :: id in waiting <==> Waiting(peers, statics, id)
    requires pool == if unresponsive == [] then waiting else if prioritise then unresponsive else unresponsive + waiting
    ensures Distinct(pool)
    ensures forall id :: id in pool <==> id in Pool(peers, statics, prioritise)
  {
    assert (exists u :: Unresponsive(peers, statics, u)) <==> unresponsive != [] by {
      if unresponsive != [] {
        assert unresponsive[0] in unresponsive;
      }
    }
    forall i, j | 0 <= i < |unresponsive| && 0 <= j < |waiting|
      ensures unresponsive[i] != waiting[j]
    {
      assert unresponsive[i] in unresponsive && waiting[j] in waiting;
    }
  }

  class RotatingRouter {
    var peers: Peers
    var staticPeers: set<Address>
    var maxPeers: Option<nat>
    var enabled: bool
    var prioritiseUnreachable: bool

    constructor (peers: Peers, staticPeers: set<Address>, maxPeers: Option<nat>, enabled: bool,
        prioritiseUnreachable: bool)
      ensures this.peers == peers && this.staticPeers == staticPeers && this.maxPeers == maxPeers
      ensures this.enabled == enabled && this.prioritiseUnreachable == prioritiseUnreachable
    {
      this.peers, this.staticPeers, this.maxPeers := peers, staticPeers, maxPeers;
      this.enabled, this.prioritiseUnreachable := enabled, prioritiseUnreachable;
    }

    method CountUntested() returns (n: nat)
      ensures n == |Untested(peers)|
    {
      var order := Iterate(peers);
      n := 0;
      ghost var seen: set<Address> := {};
      for i := 0 to |order|
        invariant n == |seen|
        invariant forall k :: k in seen <==> k in order[..i] && peers[k].lastAttemptMs == 0
      {
        assert order[i] !in order[..i] && order[..i + 1] == order[..i] + [order[i]];
        if peers[order[i]].lastAttemptMs == 0 {
          n := n + 1;
          seen := seen + {order[i]};
        }
      }
      assert order[..|order|] == order;
      assert seen == Untested(peers);
    }

    method AnySynced() returns (synced: bool)
      ensures synced <==> FullySynced(peers)
    {
      var order := Iterate(peers);
      synced := false;
      for i := 0 to |order|
        invariant synced <==> exists k :: 0 <= k < i && peers[order[k]].unhandled == 0
      {
        if peers[order[i]].unhandled == 0 {
          synced := true;
        }
      }
    }

    /** The first pass: peers never heard from, and peers with offers on record. */
    method Partition(synced: bool) returns (unresponsive: seq<Address>, waiting: seq<Address>)
      requires synced <==> FullySynced(peers)
      ensures Distinct(unresponsive) && Distinct(waiting)
      ensures forall id :: id in unresponsive <==> Unresponsive(peers, staticPeers, id)
      ensures forall id :: id in waiting <==> Waiting(peers, staticPeers, id)
    {
      var order := Iterate(peers);
      unresponsive, waiting := [], [];
      for i := 0 to |order|
        invariant Distinct(unresponsive) && Distinct(waiting)
        invariant forall id :: id in unresponsive <==> id in order[..i] && Unresponsive(peers, staticPeers, id)
        invariant forall id :: id in waiting <==> id in order[..i] && Waiting(peers, staticPeers, id)
      {
        var id := order[i];
        var peer := peers[id];
        assert id !in order[..i] && order[..i + 1] == order[..i] + [id];
        if !(synced && peer.unhandled != 0) && id !in staticPeers && peer.state.Idle? {
          if peer.lastHeardMs > 0 {
            if peer.offered > 0 {
              AppendDistinct(waiting, id);
              waiting := waiting + [id];
            }
          } else {
            AppendDistinct(unresponsive, id);
            unresponsive := unresponsive + [id];
          }
        }
      }
      assert order[..|order|] == order;
    }

    /** The candidates for dropping, as rows of id and acceptance rate. */
    method CollectPool(synced: bool) returns (rows: seq<Row>)
      requires synced <==> FullySynced(peers)
      ensures Rows(peers, rows) && IdsOf(rows) == Pool(peers, staticPeers, prioritiseUnreachable)
    {
      var unresponsive, waiting := Partition(synced);
      var pool := if unresponsive == [] then waiting
                  else if prioritiseUnreachable then unresponsive
                  else unresponsive + waiting;
      PoolListed(peers, staticPeers, prioritiseUnreachable, unresponsive, waiting, pool);
      rows := RateRows(pool);
      forall id
        ensures id in IdsOf(rows) <==> id in Pool(peers, staticPeers, prioritiseUnreachable)
      {
        assert id in IdsOf(rows) <==> id in pool;
      }
    }

    method RateRows(pool: seq<Address>) returns (rows: seq<Row>)
      requires Distinct(pool) && forall id :: id in pool ==> id in peers
      ensures Rows(peers, rows)
      ensures forall id :: id in IdsOf(rows) <==> id in pool
    {
      rows := [];
      for i := 0 to |pool|
        invariant |rows| == i
        invariant forall k :: 0 <= k < i ==> rows[k] == Row(pool[k], Rate(peers[pool[k]]))
      {
        rows := rows + [Row(pool[i], Rate(peers[pool[i]]))];
      }
      forall id
        ensures id in IdsOf(rows) <==> id in pool
      {
        if id in pool {
          var i :| 0 <= i < |pool| && pool[i] == id;
          assert rows[i].id == id;
        }
      }
    }

    /** Drop the first `count` rows of a table sorted by rate, except those whose rate is not low. */
    method DropRows(rows: seq<Row>, count: nat) returns (dropped: nat)
      requires Rows(peers, rows) && ByRate(rows) && count <= |rows|
      modifies this`peers
      ensures dropped <= count && peers == old(peers) - IdsOf(rows[..dropped])
      ensures forall k :: 0 <= k < dropped ==> Low(old(peers)[rows[k].id])
      ensures dropped < count ==> !Low(old(peers)[rows[dropped].id])
    {
      ghost var start: Peers := peers;
      dropped := 0;
      for i := 0 to count
        invariant dropped <= i && peers == start - IdsOf(rows[..dropped])
        invariant forall k :: 0 <= k < dropped ==> Low(start[rows[k].id])
        invariant dropped < i ==> !Low(start[rows[dropped].id])
      {
        assert dropped < i ==> rows[dropped].rate <= rows[i].rate;
        if rows[i].rate * 100.0 < 0.5 * 100.0 {
          IdsAppend(rows, i);
          peers := peers - {rows[i].id};
          dropped := dropped + 1;
        }
      }
    }

    /** rotate_peers: never touches static or busy peers, and keeps enough of the others. */
    method RotatePeers()
      modifies this`peers
      ensures maxPeers.None? || !enabled || !Due(old(peers), maxPeers.value) ==> peers == old(peers)
      ensures maxPeers.Some? ==>
        Rotated(old(peers), peers, maxPeers.value, Pool(old(peers), staticPeers, prioritiseUnreachable))
      ensures maxPeers.Some? && enabled && Due(old(peers), maxPeers.value) ==>
        Exhaustive(old(peers), peers, maxPeers.value, Pool(old(peers), staticPeers, prioritiseUnreachable))
      ensures forall id :: id in old(peers) && id !in peers ==> id !in staticPeers && old(peers)[id].state.Idle?
    {
      if !enabled || maxPeers.None? {
        return;
      }
      var headroom := Headroom(maxPeers.value);
      var required := RequiredDrops(|peers|, maxPeers.value);
      if required == 0 || Minus(|peers|, required) <= 1 {
        return;
      }
      var untested := CountUntested();
      if untested >= headroom {
        return;
      }
      var synced := AnySynced();
      var rows := CollectPool(synced);
      if rows == [] {
        return;
      }
      ghost var pool := Pool(peers, staticPeers, prioritiseUnreachable);
      var _ := DropFrom(rows, required, maxPeers.value, pool);
      forall id | id in old(peers) && id !in peers
        ensures id !in staticPeers && old(peers)[id].state.Idle?
      {
        PoolEligible(old(peers), staticPeers, prioritiseUnreachable, id);
      }
    }

    /** The drop itself, once the pool is known. */
    method DropFrom(listing: seq<Row>, required: nat, max: nat, ghost pool: set<Address>) returns (dropped: nat)
      requires required == RequiredDrops(|peers|, max) && required > 0 && |peers| - required > 1
      requires Rows(peers, listing) && IdsOf(listing) == pool
      modifies this`peers
      ensures dropped == |old(peers)| - |peers|
      ensures Rotated(old(peers), peers, max, pool) && Exhaustive(old(peers), peers, max, pool)
    {
      SortKeepsRows(peers, listing);
      var rows := LowestFirst(listing);
      SameIds(listing, rows);
      var count := if required < |rows| then required else |rows|;
      dropped := DropRows(rows, count);
      RotationSound(old(peers), rows, dropped, max, pool);
    }
  }

  lemma SameIds(a: seq<Row>, b: seq<Row>)
    requires forall r :: r in a <==> r in b
    ensures IdsOf(a) == IdsOf(b)
  {
    forall x | x in IdsOf(a)
      ensures x in IdsOf(b)
    {
      var i :| 0 <= i < |a| && a[i].id == x;
      assert a[i] in b;
    }
    forall x | x in IdsOf(b)
      ensures x in IdsOf(a)
    {
      var i :| 0 <= i < |b| && b[i].id == x;
      assert b[i] in a;
    }
  }

  /** In a table sorted by rate, what is dropped precedes what stays. */
  lemma PrefixIsLowest(before: Peers, rows: seq<Row>, dropped: nat, gone: Address, id: Address)
    requires Rows(before, rows) && ByRate(rows) && dropped <= |rows|
    requires gone in before && id in before && gone in IdsOf(rows[..dropped])
    requires id in IdsOf(rows) && id !in IdsOf(rows[..dropped])
    ensures Rate(before[gone]) <= Rate(before[id])
    ensures dropped < |rows| && Rate(before[rows[dropped].id]) <= Rate(before[id])
  {
    var j :| 0 <= j < dropped && rows[..dropped][j].id == gone;
    var k := RowOf(rows, dropped, id);
  }

  lemma RowOf(rows: seq<Row>, dropped: nat, id: Address) returns (k: nat)
    requires dropped <= |rows| && id in IdsOf(rows) && id !in IdsOf(rows[..dropped])
    ensures dropped <= k < |rows| && rows[k].id == id
  {
    k :| 0 <= k < |rows| && rows[k].id == id;
    assert forall i :: 0 <= i < dropped ==> rows[..dropped][i] == rows[i];
  }

  lemma DroppedAreLow(before: Peers, rows: seq<Row>, dropped: nat, id: Address)
    requires Rows(before, rows) && dropped <= |rows| && id in IdsOf(rows[..dropped])
    requires forall k :: 0 <= k < dropped ==> Low(before[rows[k].id])
    ensures id in IdsOf(rows) && id in before && Low(before[id])
  {
    var k :| 0 <= k < dropped && rows[..dropped][k].id == id;
    assert rows[k].id == id;
  }

  lemma KeptAreNotLow(before: Peers, rows: seq<Row>, dropped: nat, id: Address)
    requires Rows(before, rows) && ByRate(rows) && dropped <= |rows|
    requires id in IdsOf(rows) && id !in IdsOf(rows[..dropped])
    requires dropped < |rows| ==> !Low(before[rows[dropped].id])
    ensures id in before && !Low(before[id])
  {
    var k := RowOf(rows, dropped, id);
    assert rows[dropped].rate <= rows[k].rate;
  }

  lemma RotationSound(before: Peers, rows: seq<Row>, dropped: nat, max: nat, pool: set<Address>)
    requires var required := RequiredDrops(|before|, max);
             && required > 0 && |before| - required > 1
             && var count := if required < |rows| then required else |rows|;
                && dropped <= count
                && Rows(before, rows)
                && (dropped < count ==> !Low(before[rows[dropped].id]))
    requires ByRate(rows) && IdsOf(rows) == pool
    requires forall k :: 0 <= k < dropped ==> Low(before[rows[k].id])
    ensures var after := before - IdsOf(rows[..dropped]);
            && dropped == |before| - |after|
            && Rotated(before, after, max, pool)
            && Exhaustive(before, after, max, pool)
  {
    var gones := IdsOf(rows[..dropped]);
    IdsSize(before, rows[..dropped]);
    DropSize(before, gones);
    forall id | id in gones
      ensures id in pool && id in before && Low(before[id])
    {
      DroppedAreLow(before, rows, dropped, id);
    }
    forall gone, id | gone in gones && id in before && id !in gones && id in pool
      ensures gone in before && Rate(before[gone]) <= Rate(before[id])
    {
      PrefixIsLowest(before, rows, dropped, gone, id);
    }
    if dropped < RequiredDrops(|before|, max) {
      forall id | id in before && id !in gones && id in pool
        ensures !Low(before[id])
      {
        KeptAreNotLow(before, rows, dropped, id);
      }
    }
  }
}
