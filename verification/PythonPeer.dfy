/**
 * LXMF/LXMPeer.py: one propagation peer and its entries in the router's message table. Every entry lists
 * the peers that have handled it and the peers that have not; a sync offers unhandled entries, and the
 * peer's answers and the outcome of the transfer decide which of them become handled.
 */
module PythonPeer {
  import opened Common
  import opened StableSort

  datatype Entry = Entry(
    destination: Address,
    received: real,
    size: nat,
    handledBy: seq<Address>,
    unhandledBy: seq<Address>,
    stampValue: int)

  type Table = map<Digest, Entry>

  // ---------------------------------------------------------------------------------------------
  // Marks: add and remove, handled and unhandled

  /** list.remove: the first occurrence goes. */
  function Without(s: seq<Address>, p: Address): seq<Address> {
    if s == [] then [] else if s[0] == p then s[1..] else [s[0]] + Without(s[1..], p)
  }

  function AddHandled(t: Table, p: Address, id: Digest): Table {
    if id in t && p !in t[id].handledBy then t[id := t[id].(handledBy := t[id].handledBy + [p])] else t
  }

  function AddUnhandled(t: Table, p: Address, id: Digest): Table {
    if id in t && p !in t[id].unhandledBy then t[id := t[id].(unhandledBy := t[id].unhandledBy + [p])] else t
  }

  function RemoveUnhandled(t: Table, p: Address, id: Digest): Table {
    if id in t && p in t[id].unhandledBy then t[id := t[id].(unhandledBy := Without(t[id].unhandledBy, p))] else t
  }

  predicate Handled(t: Table, p: Address, id: Digest) {
    id in t && p in t[id].handledBy
  }

  predicate Unhandled(t: Table, p: Address, id: Digest) {
    id in t && p in t[id].unhandledBy
  }

  /** No peer is listed twice. */
  ghost predicate Lists(t: Table) {
    forall id :: id in t ==> Distinct(t[id].handledBy) && Distinct(t[id].unhandledBy)
  }

  /** The same messages; only the marks may differ. */
  ghost predicate SameMessages(t: Table, u: Table) {
    && (forall id :: id in t <==> id in u)
    && (forall id :: id in t && id in u ==>
          u[id] == t[id].(handledBy := u[id].handledBy, unhandledBy := u[id].unhandledBy))
  }

  lemma {:induction false} WithoutMembers(s: seq<Address>, p: Address)
    requires Distinct(s)
    ensures Distinct(Without(s, p))
    ensures forall q :: q in Without(s, p) <==> q in s && q != p
  {
    if s != [] {
      assert forall q :: q in s <==> q == s[0] || q in s[1..];
      WithoutMembers(s[1..], p);
      if s[0] != p {
        assert s[0] !in s[1..];
        assert s[0] !in Without(s[1..], p);
      }
    }
  }

  // ---------------------------------------------------------------------------------------------
  // Moving ids from unhandled to handled

  function Move(t: Table, p: Address, id: Digest): Table {
    RemoveUnhandled(AddHandled(t, p, id), p, id)
  }

  function MoveAll(t: Table, p: Address, ids: seq<Digest>): Table {
    if ids == [] then t else Move(MoveAll(t, p, ids[..|ids| - 1]), p, ids[|ids| - 1])
  }

  function UnmarkAll(t: Table, p: Address, ids: seq<Digest>): Table {
    if ids == [] then t else RemoveUnhandled(UnmarkAll(t, p, ids[..|ids| - 1]), p, ids[|ids| - 1])
  }

  /** u is t with `ids` moved to handled for p; every other mark, those of other peers included, is as it was. */
  ghost predicate Moved(t: Table, u: Table, p: Address, ids: seq<Digest>) {
    && SameMessages(t, u) && Lists(u)
    && (forall q, id :: Handled(u, q, id) <==> Handled(t, q, id) || (q == p && id in ids && id in t))
    && (forall q, id :: Unhandled(u, q, id) <==> Unhandled(t, q, id) && !(q == p && id in ids))
  }

  /** u is t with the unhandled marks of p removed from `ids`. */
  ghost predicate Unmarked(t: Table, u: Table, p: Address, ids: seq<Digest>) {
    && SameMessages(t, u) && Lists(u)
    && (forall q, id :: Handled(u, q, id) <==> Handled(t, q, id))
    && (forall q, id :: Unhandled(u, q, id) <==> Unhandled(t, q, id) && !(q == p && id in ids))
  }

  /** u is t with unhandled marks of p added to the stored ones of `ids`. */
  ghost predicate Added(t: Table, u: Table, p: Address, ids: seq<Digest>) {
    && SameMessages(t, u) && Lists(u)
    && (forall q, id :: Handled(u, q, id) <==> Handled(t, q, id))
    && (forall q, id :: Unhandled(u, q, id) <==> Unhandled(t, q, id) || (q == p && id in ids && id in t))
  }

  lemma AddHandledEffect(t: Table, p: Address, id: Digest)
    requires Lists(t)
    ensures var u := AddHandled(t, p, id);
            && SameMessages(t, u) && Lists(u)
            && (forall q, i :: Handled(u, q, i) <==> Handled(t, q, i) || (q == p && i == id && id in t))
            && (forall q, i :: Unhandled(u, q, i) <==> Unhandled(t, q, i))
  {
    if id in t && p !in t[id].handledBy {
      AppendDistinct(t[id].handledBy, p);
    }
  }

  lemma AddUnhandledEffect(t: Table, p: Address, id: Digest)
    requires Lists(t)
    ensures Added(t, AddUnhandled(t, p, id), p, [id])
  {
    if id in t && p !in t[id].unhandledBy {
      AppendDistinct(t[id].unhandledBy, p);
    }
  }

  lemma RemoveUnhandledEffect(t: Table, p: Address, id: Digest)
    requires Lists(t)
    ensures Unmarked(t, RemoveUnhandled(t, p, id), p, [id])
  {
    if id in t {
      WithoutMembers(t[id].unhandledBy, p);
    }
  }

  lemma MoveEffect(t: Table, p: Address, id: Digest)
    requires Lists(t)
    ensures Moved(t, Move(t, p, id), p, [id])
  {
    AddHandledEffect(t, p, id);
    RemoveUnhandledEffect(AddHandled(t, p, id), p, id);
  }

  lemma {:induction false} MoveAllEffect(t: Table, p: Address, ids: seq<Digest>)
    requires Lists(t)
    ensures Moved(t, MoveAll(t, p, ids), p, ids)
  {
    if ids != [] {
      var m := |ids| - 1;
      MoveAllEffect(t, p, ids[..m]);
      MoveEffect(MoveAll(t, p, ids[..m]), p, ids[m]);
      assert ids == ids[..m] + [ids[m]];
    }
  }

  lemma {:induction false} UnmarkAllEffect(t: Table, p: Address, ids: seq<Digest>)
    requires Lists(t)
    ensures Unmarked(t, UnmarkAll(t, p, ids), p, ids)
  {
    if ids != [] {
      var m := |ids| - 1;
      UnmarkAllEffect(t, p, ids[..m]);
      RemoveUnhandledEffect(UnmarkAll(t, p, ids[..m]), p, ids[m]);
      assert ids == ids[..m] + [ids[m]];
    }
  }

  // ---------------------------------------------------------------------------------------------
  // Building an offer

  const OVERHEAD: nat := 16
  const STRUCTURE: nat := 24

  /**
   * What a call finds: the clock, the prioritised destinations, what the peer announced, whether the peer can
   * be reached now, and the table's iteration order; whether identifying on the link and starting a resource
   * succeed instead of raising; and the messages whose files exist.
   */
  datatype Conditions = Conditions(
    now: real,
    prioritised: set<Address>,
    cost: int,
    flexibility: int,
    transferKb: Option<real>,
    syncKb: Option<real>,
    ready: bool,
    order: seq<Digest>,
    identifies: bool,
    startsResource: bool,
    files: set<Digest>)

  function Weight(e: Entry, now: real, prioritised: set<Address>): real {
    var age := (now - e.received) / 60.0 / 60.0 / 24.0 / 4.0;
    (if e.destination in prioritised then 0.1 else 1.0) * (if age > 1.0 then age else 1.0) * e.size as real
  }

  function WeightIn(t: Table, c: Conditions, id: Digest): real {
    if id in t then Weight(t[id], c.now, c.prioritised) else 0.0
  }

  /** `min(0, cost - flexibility)`: never positive. */
  function MinAccepted(c: Conditions): (r: int)
    ensures r <= 0
  {
    if c.cost - c.flexibility < 0 then c.cost - c.flexibility else 0
  }

  predicate LowValue(t: Table, c: Conditions, id: Digest) {
    id in t && t[id].stampValue < MinAccepted(c)
  }

  function Size(t: Table, id: Digest): nat {
    if id in t then t[id].size else 0
  }

  predicate Oversize(t: Table, limitKb: real, id: Digest) {
    (Size(t, id) + OVERHEAD) as real > limitKb * 1000.0
  }

  /** The unhandled entries in table order: those of too low a value (`low`) or the others. */
  function Pick(t: Table, p: Address, c: Conditions, low: bool, order: seq<Digest>): seq<Digest> {
    if order == [] then [] else
    var id := order[|order| - 1];
    Pick(t, p, c, low, order[..|order| - 1]) + (if Unhandled(t, p, id) && LowValue(t, c, id) == low then [id] else [])
  }

  function Candidates(t: Table, p: Address, c: Conditions): seq<Digest> {
    Sorted(Pick(t, p, c, false, c.order), (x: Digest) => WeightIn(t, c, x))
  }

  /** The cumulative size and the ids of an offer. */
  function Fill(t: Table, transferKb: real, syncKb: real, ids: seq<Digest>): (nat, seq<Digest>) {
    if ids == [] then (STRUCTURE, []) else
    var (total, chosen) := Fill(t, transferKb, syncKb, ids[..|ids| - 1]);
    var id := ids[|ids| - 1];
    var next := total + Size(t, id) + OVERHEAD;
    if Oversize(t, transferKb, id) || next as real >= syncKb * 1000.0 then (total, chosen) else (next, chosen + [id])
  }

  function OversizeOf(t: Table, transferKb: real, ids: seq<Digest>): seq<Digest> {
    if ids == [] then [] else
    var id := ids[|ids| - 1];
    OversizeOf(t, transferKb, ids[..|ids| - 1]) + (if Oversize(t, transferKb, id) then [id] else [])
  }

  /** The table after building an offer, and the offer; without both limits the attempt raises. */
  function Build(t: Table, p: Address, c: Conditions): (Table, Option<seq<Digest>>) {
    var t1 := UnmarkAll(t, p, Pick(t, p, c, true, c.order));
    if c.transferKb.None? || c.syncKb.None? then (t1, None) else
    var ids := Candidates(t, p, c);
    (MoveAll(t1, p, OversizeOf(t, c.transferKb.value, ids)), Some(Fill(t, c.transferKb.value, c.syncKb.value, ids).1))
  }

  /** Sum of size and overhead over an offer. */
  function Load(t: Table, ids: seq<Digest>): nat {
    if ids == [] then 0 else Load(t, ids[..|ids| - 1]) + Size(t, ids[|ids| - 1]) + OVERHEAD
  }

  lemma {:induction false} PickMembers(t: Table, p: Address, c: Conditions, low: bool, order: seq<Digest>)
    requires Distinct(order)
    ensures forall id :: id in Pick(t, p, c, low, order) <==>
        id in order && Unhandled(t, p, id) && LowValue(t, c, id) == low
    ensures Distinct(Pick(t, p, c, low, order))
  {
    if order != [] {
      var m := |order| - 1;
      PickMembers(t, p, c, low, order[..m]);
      assert order == order[..m] + [order[m]];
      assert order[m] !in order[..m];
    }
  }

  lemma CandidatesMembers(t: Table, p: Address, c: Conditions)
    requires Enumerates(c.order, t.Keys)
    ensures forall id :: id in Candidates(t, p, c) <==> Unhandled(t, p, id) && !LowValue(t, c, id)
    ensures Distinct(Candidates(t, p, c))
    ensures Ascending(Candidates(t, p, c), (x: Digest) => WeightIn(t, c, x))
  {
    PickMembers(t, p, c, false, c.order);
    SortedPermutes(Pick(t, p, c, false, c.order), (x: Digest) => WeightIn(t, c, x));
  }

  lemma {:induction false} OversizeMembers(t: Table, transferKb: real, ids: seq<Digest>)
    ensures forall id :: id in OversizeOf(t, transferKb, ids) <==> id in ids && Oversize(t, transferKb, id)
  {
    if ids != [] {
      var m := |ids| - 1;
      OversizeMembers(t, transferKb, ids[..m]);
      assert ids == ids[..m] + [ids[m]];
    }
  }

  /** The running total is the load of what was chosen; the limits hold of every non-empty choice. */
  lemma {:induction false} FillBounds(t: Table, transferKb: real, syncKb: real, ids: seq<Digest>)
    ensures var (total, chosen) := Fill(t, transferKb, syncKb, ids);
            && total == STRUCTURE + Load(t, chosen)
            && (chosen != [] ==> total as real < syncKb * 1000.0)
            && (forall id :: id in chosen ==> id in ids && !Oversize(t, transferKb, id))
  {
    if ids != [] {
      var m := |ids| - 1;
      FillBounds(t, transferKb, syncKb, ids[..m]);
      assert ids == ids[..m] + [ids[m]];
    }
  }

  lemma {:induction false} FillDistinct(t: Table, transferKb: real, syncKb: real, ids: seq<Digest>)
    requires Distinct(ids)
    ensures Distinct(Fill(t, transferKb, syncKb, ids).1)
  {
    if ids != [] {
      var m := |ids| - 1;
      FillDistinct(t, transferKb, syncKb, ids[..m]);
      FillBounds(t, transferKb, syncKb, ids[..m]);
      assert ids[m] !in ids[..m];
    }
  }

  /**
   * The k-th id did not fit behind the chosen ones before it: those up to position `before`, all ahead of it
   * in the order; the rest of the choice comes after it.
   */
  ghost predicate PassedOver(t: Table, syncKb: real, ids: seq<Digest>, k: nat, chosen: seq<Digest>, before: nat)
    requires k < |ids|
  {
    && before <= |chosen|
    && (forall i :: 0 <= i < before ==> chosen[i] in ids[..k])
    && (forall i :: before <= i < |chosen| ==> chosen[i] in ids[k + 1..])
    && (STRUCTURE + Load(t, chosen[..before]) + Size(t, ids[k]) + OVERHEAD) as real >= syncKb * 1000.0
  }

  lemma PassedOverLast(t: Table, syncKb: real, ids: seq<Digest>, chosen: seq<Digest>)
    requires ids != [] && forall id :: id in chosen ==> id in ids[..|ids| - 1]
    requires (STRUCTURE + Load(t, chosen) + Size(t, ids[|ids| - 1]) + OVERHEAD) as real >= syncKb * 1000.0
    ensures PassedOver(t, syncKb, ids, |ids| - 1, chosen, |chosen|)
  {
    assert chosen[..|chosen|] == chosen;
    forall i | 0 <= i < |chosen|
      ensures chosen[i] in ids[..|ids| - 1]
    {
      assert chosen[i] in chosen;
    }
  }

  lemma PassedOverStill(t: Table, syncKb: real, ids: seq<Digest>, k: nat, rest: seq<Digest>, chosen: seq<Digest>,
      before: nat)
    requires k + 1 < |ids| && PassedOver(t, syncKb, ids[..|ids| - 1], k, rest, before)
    requires chosen == rest || chosen == rest + [ids[|ids| - 1]]
    ensures PassedOver(t, syncKb, ids, k, chosen, before)
  {
    var m := |ids| - 1;
    assert chosen[..before] == rest[..before];
    assert ids[..m][..k] == ids[..k];
    assert ids[k + 1..] == ids[..m][k + 1..] + [ids[m]];
  }

  /** An eligible id is passed over only for lack of room. */
  lemma {:induction false} FillGreedy(t: Table, transferKb: real, syncKb: real, ids: seq<Digest>, k: nat)
    returns (before: nat)
    requires k < |ids|
    requires !Oversize(t, transferKb, ids[k]) && ids[k] !in Fill(t, transferKb, syncKb, ids).1
    ensures PassedOver(t, syncKb, ids, k, Fill(t, transferKb, syncKb, ids).1, before)
  {
    var m := |ids| - 1;
    var rest := Fill(t, transferKb, syncKb, ids[..m]).1;
    var chosen := Fill(t, transferKb, syncKb, ids).1;
    if k == m {
      FillBounds(t, transferKb, syncKb, ids[..m]);
      before := |rest|;
      assert chosen == rest;
      PassedOverLast(t, syncKb, ids, rest);
    } else {
      assert ids[..m][k] == ids[k];
      before := FillGreedy(t, transferKb, syncKb, ids[..m], k);
      PassedOverStill(t, syncKb, ids, k, rest, chosen, before);
    }
  }

  lemma {:induction false} LoadPrefix(t: Table, ids: seq<Digest>, k: nat)
    requires k <= |ids|
    ensures Load(t, ids[..k]) <= Load(t, ids)
  {
    if k == |ids| {
      assert ids[..k] == ids;
    } else {
      LoadPrefix(t, ids[..|ids| - 1], k);
      assert ids[..|ids| - 1][..k] == ids[..k];
    }
  }

  function TotalSize(t: Table, ids: seq<Digest>): nat {
    if ids == [] then 0 else TotalSize(t, ids[..|ids| - 1]) + Size(t, ids[|ids| - 1])
  }

  /** The load in bytes: 24 for the structure, and 16 on top of each message. */
  lemma {:induction false} LoadInBytes(t: Table, ids: seq<Digest>)
    ensures STRUCTURE + Load(t, ids) == 24 + TotalSize(t, ids) + 16 * |ids|
  {
    if ids != [] {
      LoadInBytes(t, ids[..|ids| - 1]);
    }
  }

  /** Whether `id` could be offered at all. */
  predicate Eligible(t: Table, p: Address, c: Conditions, limitKb: real, id: Digest) {
    Unhandled(t, p, id) && !LowValue(t, c, id) && !Oversize(t, limitKb, id)
  }

  /**
   * An offer goes out iff both limits are known. A non-empty offer stays below the sync limit and within the
   * transfer limit, names only eligible entries, and leaves out an eligible entry only if that entry
   * would bring the load to the sync limit.
   */
  lemma OfferSound(t: Table, p: Address, c: Conditions)
    requires Enumerates(c.order, t.Keys)
    ensures Build(t, p, c).1.Some? <==> c.transferKb.Some? && c.syncKb.Some?
    ensures Build(t, p, c).1.Some? ==>
              var offer := Build(t, p, c).1.value;
              && Distinct(offer)
              && (offer != [] ==> (STRUCTURE + Load(t, offer)) as real < c.syncKb.value * 1000.0)
              && (forall id :: id in offer ==>
                    Eligible(t, p, c, c.transferKb.value, id)
                        && (Size(t, id) + OVERHEAD) as real <= c.transferKb.value * 1000.0)
              && (forall id :: Eligible(t, p, c, c.transferKb.value, id) && id !in offer ==>
                    (STRUCTURE + Load(t, offer) + Size(t, id) + OVERHEAD) as real >= c.syncKb.value * 1000.0)
  {
    if c.transferKb.Some? && c.syncKb.Some? {
      var ids := Candidates(t, p, c);
      var offer := Build(t, p, c).1.value;
      CandidatesMembers(t, p, c);
      FillBounds(t, c.transferKb.value, c.syncKb.value, ids);
      FillDistinct(t, c.transferKb.value, c.syncKb.value, ids);
      forall id | Eligible(t, p, c, c.transferKb.value, id) && id !in offer
        ensures (STRUCTURE + Load(t, offer) + Size(t, id) + OVERHEAD) as real >= c.syncKb.value * 1000.0
      {
        var k :| 0 <= k < |ids| && ids[k] == id;
        var before := FillGreedy(t, c.transferKb.value, c.syncKb.value, ids, k);
        LoadPrefix(t, offer, before);
      }
    }
  }

  /** In an ascending order the members before position k weigh no more than the k-th, those after it no less. */
  lemma OrderedAround(ids: seq<Digest>, key: Digest -> real, k: nat)
    requires k < |ids| && Ascending(ids, key)
    ensures forall x :: x in ids[..k] ==> key(x) <= key(ids[k])
    ensures forall x :: x in ids[k + 1..] ==> key(ids[k]) <= key(x)
  {
    forall x | x in ids[k + 1..]
      ensures key(ids[k]) <= key(x)
    {
      var j :| 0 <= j < |ids[k + 1..]| && ids[k + 1..][j] == x;
      assert ids[k + 1 + j] == x;
    }
  }

  /** An eligible entry is left out in favour of entries that weigh no more: they alone leave it no room. */
  lemma OfferPrefersLight(t: Table, p: Address, c: Conditions, id: Digest) returns (before: nat)
    requires Enumerates(c.order, t.Keys) && c.transferKb.Some? && c.syncKb.Some?
    requires Eligible(t, p, c, c.transferKb.value, id) && id !in Build(t, p, c).1.value
    ensures var offer := Build(t, p, c).1.value;
            && before <= |offer|
            && (forall i :: 0 <= i < before ==> WeightIn(t, c, offer[i]) <= WeightIn(t, c, id))
            && (forall i :: before <= i < |offer| ==> WeightIn(t, c, id) <= WeightIn(t, c, offer[i]))
            && (STRUCTURE + Load(t, offer[..before]) + Size(t, id) + OVERHEAD) as real >= c.syncKb.value * 1000.0
  {
    var ids := Candidates(t, p, c);
    CandidatesMembers(t, p, c);
    var k :| 0 <= k < |ids| && ids[k] == id;
    before := FillGreedy(t, c.transferKb.value, c.syncKb.value, ids, k);
    OrderedAround(ids, (x: Digest) => WeightIn(t, c, x), k);
  }

  /** What is chosen keeps the order in which it is considered. */
  lemma {:induction false} FillInOrder(t: Table, transferKb: real, syncKb: real, ids: seq<Digest>, a: nat, b: nat)
    returns (i: nat, j: nat)
    requires a < b < |Fill(t, transferKb, syncKb, ids).1|
    ensures var chosen := Fill(t, transferKb, syncKb, ids).1;
            i < j < |ids| && ids[i] == chosen[a] && ids[j] == chosen[b]
  {
    var m := |ids| - 1;
    var rest := Fill(t, transferKb, syncKb, ids[..m]).1;
    if b < |rest| {
      i, j := FillInOrder(t, transferKb, syncKb, ids[..m], a, b);
    } else {
      FillBounds(t, transferKb, syncKb, ids[..m]);
      assert rest[a] in ids[..m];
      i :| 0 <= i < m && ids[..m][i] == rest[a];
      j := m;
    }
  }

  lemma {:induction false} LoadUpTo(t: Table, ids: seq<Digest>, before: nat, q: nat)
    requires before <= q < |ids|
    ensures Load(t, ids[..before]) + Size(t, ids[q]) + OVERHEAD <= Load(t, ids)
  {
    assert ids[..q + 1][..q] == ids[..q] && ids[..q][..before] == ids[..before];
    LoadPrefix(t, ids, q + 1);
    LoadPrefix(t, ids[..q], before);
  }

  /** Of two ids, the one considered first and no larger is offered if the other is. */
  lemma FirstOfTwo(t: Table, transferKb: real, syncKb: real, ids: seq<Digest>, i: nat, j: nat)
    requires i < j < |ids| && Distinct(ids)
    requires !Oversize(t, transferKb, ids[i]) && Size(t, ids[i]) <= Size(t, ids[j])
    requires ids[j] in Fill(t, transferKb, syncKb, ids).1
    ensures ids[i] in Fill(t, transferKb, syncKb, ids).1
  {
    var chosen := Fill(t, transferKb, syncKb, ids).1;
    if ids[i] !in chosen {
      var before := FillGreedy(t, transferKb, syncKb, ids, i);
      var q :| 0 <= q < |chosen| && chosen[q] == ids[j];
      assert q >= before by {
        assert ids[j] !in ids[..i];
      }
      LoadUpTo(t, chosen, before, q);
      FillBounds(t, transferKb, syncKb, ids);
      assert false;
    }
  }

  /** x is offered whenever y is, and ahead of it. */
  ghost predicate Precedes(offer: seq<Digest>, x: Digest, y: Digest) {
    && (y in offer ==> x in offer)
    && (forall a, b :: 0 <= a < |offer| && 0 <= b < |offer| && offer[a] == x && offer[b] == y ==> a < b)
  }

  /** A lighter entry that is no larger precedes. */
  lemma LighterPrecedes(t: Table, p: Address, c: Conditions, x: Digest, y: Digest)
    requires Enumerates(c.order, t.Keys) && c.transferKb.Some? && c.syncKb.Some?
    requires Eligible(t, p, c, c.transferKb.value, x) && Eligible(t, p, c, c.transferKb.value, y)
    requires WeightIn(t, c, x) < WeightIn(t, c, y) && Size(t, x) <= Size(t, y)
    ensures Precedes(Build(t, p, c).1.value, x, y)
  {
    var ids, kb, sync := Candidates(t, p, c), c.transferKb.value, c.syncKb.value;
    CandidatesMembers(t, p, c);
    var i :| 0 <= i < |ids| && ids[i] == x;
    var j :| 0 <= j < |ids| && ids[j] == y;
    var offer := Fill(t, kb, sync, ids).1;
    if y in offer {
      FirstOfTwo(t, kb, sync, ids, i, j);
    }
    forall a, b | 0 <= a < |offer| && 0 <= b < |offer| && offer[a] == x && offer[b] == y
      ensures a < b
    {
      if b < a {
        var i', j' := FillInOrder(t, kb, sync, ids, b, a);
        assert false;
      }
    }
  }

  lemma Scaled(k: real, a: real, b: real)
    requires k > 0.0 && a < b
    ensures k * a < k * b && a * k < b * k
  {
  }

  /** The weight in terms of an entry's fields: a tenth for priority, times its age in four days, if more than one. */
  lemma WeightOfFields(e: Entry, now: real, prioritised: set<Address>)
    ensures var w := Weight(e, now, prioritised);
            var k := if e.destination in prioritised then 0.1 else 1.0;
            && (now - e.received <= 345600.0 ==> w == k * e.size as real)
            && (now - e.received >= 345600.0 ==> w == k * ((now - e.received) / 345600.0) * e.size as real)
  {
    assert (now - e.received) / 60.0 / 60.0 / 24.0 / 4.0 == (now - e.received) / 345600.0;
  }

  /** Of two entries alike in size and time of receipt, the one for a prioritised destination precedes. */
  lemma PrioritisedPrecedes(t: Table, p: Address, c: Conditions, x: Digest, y: Digest)
    requires Enumerates(c.order, t.Keys) && c.transferKb.Some? && c.syncKb.Some?
    requires Eligible(t, p, c, c.transferKb.value, x) && Eligible(t, p, c, c.transferKb.value, y)
    requires t[x].size == t[y].size > 0 && t[x].received == t[y].received
    requires t[x].destination in c.prioritised && t[y].destination !in c.prioritised
    ensures Precedes(Build(t, p, c).1.value, x, y)
  {
    var age := (c.now - t[x].received) / 345600.0;
    var size := t[x].size as real;
    WeightOfFields(t[x], c.now, c.prioritised);
    WeightOfFields(t[y], c.now, c.prioritised);
    if c.now - t[x].received > 345600.0 {
      Scaled(age, 0.1, 1.0);
      Scaled(size, 0.1 * age, 1.0 * age);
    }
    LighterPrecedes(t, p, c, x, y);
  }

  /** Of two entries alike in priority and size, one of them older than four days, the younger precedes. */
  lemma YoungerPrecedes(t: Table, p: Address, c: Conditions, x: Digest, y: Digest)
    requires Enumerates(c.order, t.Keys) && c.transferKb.Some? && c.syncKb.Some?
    requires Eligible(t, p, c, c.transferKb.value, x) && Eligible(t, p, c, c.transferKb.value, y)
    requires t[x].size == t[y].size > 0 && (t[x].destination in c.prioritised <==> t[y].destination in c.prioritised)
    requires t[x].received > t[y].received && c.now - t[y].received > 345600.0
    ensures Precedes(Build(t, p, c).1.value, x, y)
  {
    YoungerLighter(t[x], t[y], c.now, c.prioritised);
    LighterPrecedes(t, p, c, x, y);
  }

  /** The factor of age, in units of four days. */
  function AgeFactor(e: Entry, now: real): real {
    if now - e.received >= 345600.0 then (now - e.received) / 345600.0 else 1.0
  }

  lemma ProductLess(k: real, a: real, b: real, size: real, wa: real, wb: real)
    requires k > 0.0 && a < b && size > 0.0 && wa == (k * a) * size && wb == (k * b) * size
    ensures wa < wb
  {
    Scaled(k, a, b);
    Scaled(size, k * a, k * b);
  }

  lemma WeightIsProduct(e: Entry, now: real, prioritised: set<Address>, k: real, a: real, size: real) returns (w: real)
    requires k == (if e.destination in prioritised then 0.1 else 1.0)
    requires a == AgeFactor(e, now) && size == e.size as real
    ensures w == Weight(e, now, prioritised) == (k * a) * size
  {
    w := Weight(e, now, prioritised);
    WeightOfFields(e, now, prioritised);
  }

  lemma YoungerLighter(e: Entry, f: Entry, now: real, prioritised: set<Address>)
    requires e.size == f.size > 0 && (e.destination in prioritised <==> f.destination in prioritised)
    requires e.received > f.received && now - f.received > 345600.0
    ensures Weight(e, now, prioritised) < Weight(f, now, prioritised)
  {
    var k := if e.destination in prioritised then 0.1 else 1.0;
    var a, b, size := AgeFactor(e, now), AgeFactor(f, now), e.size as real;
    var wa := WeightIsProduct(e, now, prioritised, k, a, size);
    var wb := WeightIsProduct(f, now, prioritised, k, b, size);
    ProductLess(k, a, b, size, wa, wb);
  }

  /** Of two entries alike in priority and at most four days old, the smaller precedes. */
  lemma SmallerPrecedes(t: Table, p: Address, c: Conditions, x: Digest, y: Digest)
    requires Enumerates(c.order, t.Keys) && c.transferKb.Some? && c.syncKb.Some?
    requires Eligible(t, p, c, c.transferKb.value, x) && Eligible(t, p, c, c.transferKb.value, y)
    requires t[x].size < t[y].size && (t[x].destination in c.prioritised <==> t[y].destination in c.prioritised)
    requires c.now - t[x].received <= 345600.0 && c.now - t[y].received <= 345600.0
    ensures Precedes(Build(t, p, c).1.value, x, y)
  {
    WeightOfFields(t[x], c.now, c.prioritised);
    WeightOfFields(t[y], c.now, c.prioritised);
    LighterPrecedes(t, p, c, x, y);
  }

  /** Building an offer moves the oversize entries to handled and forgets the low-value ones; nothing else. */
  lemma BuildEffect(t: Table, p: Address, c: Conditions)
    requires Enumerates(c.order, t.Keys) && Lists(t)
    ensures var u := Build(t, p, c).0;
            && SameMessages(t, u) && Lists(u)
            && (forall q, id :: Unhandled(u, q, id) <==> Unhandled(t, q, id) && !(q == p && Dropped(t, c, id)))
            && (forall q, id :: Handled(u, q, id) <==>
                Handled(t, q, id) || (q == p && Unhandled(t, q, id) && TooLarge(t, c, id)))
  {
    var low := Pick(t, p, c, true, c.order);
    var t1 := UnmarkAll(t, p, low);
    PickMembers(t, p, c, true, c.order);
    UnmarkAllEffect(t, p, low);
    if c.transferKb.Some? && c.syncKb.Some? {
      var ids := Candidates(t, p, c);
      var large := OversizeOf(t, c.transferKb.value, ids);
      CandidatesMembers(t, p, c);
      OversizeMembers(t, c.transferKb.value, ids);
      MoveAllEffect(t1, p, large);
    }
  }

  /** The two ways in which building an offer takes an entry from the unhandled ones. */
  predicate TooLarge(t: Table, c: Conditions, id: Digest) {
    c.transferKb.Some? && c.syncKb.Some? && !LowValue(t, c, id) && Oversize(t, c.transferKb.value, id)
  }

  predicate Dropped(t: Table, c: Conditions, id: Digest) {
    LowValue(t, c, id) || TooLarge(t, c, id)
  }

  /** Stamp values are never negative, so the low-value rule never applies, whatever the peer asks for. */
  lemma LowValueNeverApplies(t: Table, c: Conditions, id: Digest)
    requires id in t
    ensures t[id].stampValue >= 0 ==> !LowValue(t, c, id)
    ensures LowValue(t, c, id) <==> t[id].stampValue < 0 && t[id].stampValue < c.cost - c.flexibility
  {
  }

  /**
   * What becomes of an unhandled entry, in numbers: it is given up as handled iff with 16 bytes more it exceeds the
   * transfer limit; else it stays unhandled, and is offered unless it would bring the total to the sync limit.
   */
  lemma EntryFate(t: Table, p: Address, c: Conditions, id: Digest)
    requires Enumerates(c.order, t.Keys) && Lists(t) && c.transferKb.Some? && c.syncKb.Some?
    requires Unhandled(t, p, id) && t[id].stampValue >= 0
    ensures var (u, sent) := Build(t, p, c);
            var offer := sent.value;
            && (!Unhandled(u, p, id) <==> (t[id].size + 16) as real > c.transferKb.value * 1000.0)
            && (!Unhandled(u, p, id) ==> Handled(u, p, id) && id !in offer)
            && (Unhandled(u, p, id) && id !in offer ==>
                  (24 + TotalSize(t, offer) + 16 * |offer| + t[id].size + 16) as real >= c.syncKb.value * 1000.0)
  {
    BuildEffect(t, p, c);
    OfferSound(t, p, c);
    LowValueNeverApplies(t, c, id);
    LoadInBytes(t, Build(t, p, c).1.value);
  }

  // ---------------------------------------------------------------------------------------------
  // The peer and its life

  datatype State = Idle | LinkEstablishing | LinkReady | RequestSent | ResponseReceived | ResourceTransferring

  /** A peer together with the router's table; `sent` are the messages that were put into the last resource. */
  datatype Peer = Peer(
    me: Address,
    table: Table,
    state: State,
    link: bool,
    lastOffer: seq<Digest>,
    transferring: Option<seq<Digest>>,
    sent: seq<Digest>,
    handledQueue: seq<Digest>,
    unhandledQueue: seq<Digest>,
    offered: nat,
    outgoing: nat)

  /** Answers to an offer, up to Python's equality; Other is a value that is no container. */
  datatype Answer = NoIdentity | NoAccess | Throttled | Flag(wantsAll: bool) | Ids(ids: seq<Digest>) | Other

  predicate AnyUnhandled(s: Peer) {
    exists id :: id in s.table && Unhandled(s.table, s.me, id)
  }

  /** sync, with the flag that says whether it raised: for want of a limit, or of a link to ask on. */
  function Sync(s: Peer, c: Conditions): (Peer, bool) {
    if !c.ready || !AnyUnhandled(s) || s.transferring.Some? then (s, false)
    else if s.state.Idle? then (s.(state := LinkEstablishing, link := true), false)
    else if s.state.LinkReady? then
      var (t, offer) := Build(s.table, s.me, c);
      if offer.None? then (s.(table := t), true)
      else if !s.link then (s.(table := t, lastOffer := offer.value), true)
      else (s.(table := t, lastOffer := offer.value, state := RequestSent), false)
    else (s, false)
  }

  function Abort(s: Peer): Peer {
    s.(link := false, state := Idle)
  }

  predicate AllStored(t: Table, ids: seq<Digest>) {
    forall i :: 0 <= i < |ids| ==> ids[i] in t
  }

  function NotIn(ids: seq<Digest>, answer: seq<Digest>): seq<Digest> {
    if ids == [] then []
    else NotIn(ids[..|ids| - 1], answer) + (if ids[|ids| - 1] !in answer then [ids[|ids| - 1]] else [])
  }

  /** The peer already has all: each of `ids` that is still unhandled is moved. */
  function Settle(t: Table, p: Address, ids: seq<Digest>): Table {
    if ids == [] then t else
    var u := Settle(t, p, ids[..|ids| - 1]);
    if Unhandled(u, p, ids[|ids| - 1]) then Move(u, p, ids[|ids| - 1]) else u
  }

  /** A wanted message whose file is gone is left out of the resource. */
  function WithFiles(files: set<Digest>, ids: seq<Digest>): seq<Digest> {
    if ids == [] then []
    else WithFiles(files, ids[..|ids| - 1]) + (if ids[|ids| - 1] in files then [ids[|ids| - 1]] else [])
  }

  /** The last part of offer_response: send what is wanted, or finish. */
  function Transfer(s: Peer, wanted: seq<Digest>, c: Conditions): Peer {
    if !AllStored(s.table, wanted) then Abort(s)
    else if wanted == [] then Abort(s.(offered := s.offered + |s.lastOffer|))
    else if !c.startsResource then Abort(s)
    else s.(transferring := Some(wanted), sent := WithFiles(c.files, wanted), state := ResourceTransferring)
  }

  function OfferResponse(s: Peer, answer: Answer, c: Conditions): Peer {
    var s1 := s.(state := ResponseReceived);
    match answer
    case NoIdentity =>
      if s.link && !c.identifies then Abort(s1)
      else if s.link then
        var (z, raised) := Sync(s.(state := LinkReady), c);
        if raised then Abort(z) else z
      else Transfer(s1, [], c)
    case NoAccess => s1
    case Throttled => s1
    case Flag(wantsAll) =>
      if wantsAll then Transfer(s1, s.lastOffer, c)
      else Transfer(s1.(table := Settle(s.table, s.me, s.lastOffer)), [], c)
    case Ids(ids) => Transfer(s1.(table := MoveAll(s.table, s.me, NotIn(s.lastOffer, ids))), ids, c)
    case Other => Abort(s1)
  }

  /** resource_concluded; the last sync of a persistent peer is subject to the conditions. */
  function Concluded(s: Peer, complete: bool, c: Conditions): Peer {
    if !complete then Abort(s).(transferring := None)
    else if s.transferring.None? then Abort(s)
    else
      var ids := s.transferring.value;
      Sync(Abort(s).(table := MoveAll(s.table, s.me, ids), transferring := None,
                     offered := s.offered + |s.lastOffer|, outgoing := s.outgoing + |ids|), c).0
  }

  /** process_queues decides by the marks found at its start. */
  function NewlyUnhandled(t: Table, p: Address, ids: seq<Digest>): seq<Digest> {
    if ids == [] then [] else
    var id := ids[|ids| - 1];
    NewlyUnhandled(t, p, ids[..|ids| - 1]) + (if !Handled(t, p, id) && !Unhandled(t, p, id) then [id] else [])
  }

  function AddAll(t: Table, p: Address, ids: seq<Digest>): Table {
    if ids == [] then t else AddUnhandled(AddAll(t, p, ids[..|ids| - 1]), p, ids[|ids| - 1])
  }

  /** deque.pop: the queues are emptied from their right ends. */
  function Popped(queue: seq<Digest>): seq<Digest> {
    if queue == [] then [] else [queue[|queue| - 1]] + Popped(queue[..|queue| - 1])
  }

  function ProcessQueues(s: Peer): Peer {
    s.(table := AddAll(MoveAll(s.table, s.me, Popped(s.handledQueue)), s.me,
                       NewlyUnhandled(s.table, s.me, Popped(s.unhandledQueue))),
       handledQueue := [], unhandledQueue := [])
  }

  /** What can happen to a peer: its own calls, the router's table changing, other peers marking entries. */
  datatype Action =
    | Attempt(c: Conditions)
    | LinkUp(c: Conditions)
    | LinkDown
    | RequestFailed
    | Answered(answer: Answer, c: Conditions)
    | Finished(complete: bool, c: Conditions)
    | QueueHandled(id: Digest)
    | QueueUnhandled(id: Digest)
    | Process
    | Stored(id: Digest, destination: Address, received: real, size: nat, stampValue: nat)
    | Purged(id: Digest)
    | Elsewhere(peer: Address, id: Digest, handled: bool)

  ghost predicate Enabled(s: Peer, act: Action) {
    match act
    case Attempt(c) => Enumerates(c.order, s.table.Keys)
    case LinkUp(c) => Enumerates(c.order, s.table.Keys)
    case Answered(_, c) => Enumerates(c.order, s.table.Keys)
    case Finished(_, c) => Enumerates(c.order, s.table.Keys)
    case Elsewhere(peer, _, _) => peer != s.me
    case _ => true
  }

  function Step(s: Peer, act: Action): Peer {
    match act
    case Attempt(c) => Sync(s, c).0
    case LinkUp(c) => if s.link then Sync(s.(state := LinkReady), c).0 else s
    case LinkDown => Abort(s)
    case RequestFailed => s.(state := Idle)
    case Answered(answer, c) => OfferResponse(s, answer, c)
    case Finished(complete, c) => Concluded(s, complete, c)
    case QueueHandled(id) => s.(handledQueue := s.handledQueue + [id])
    case QueueUnhandled(id) => s.(unhandledQueue := s.unhandledQueue + [id])
    case Process => ProcessQueues(s)
    case Stored(id, destination, received, size, value) =>
      s.(table := s.table[id := Entry(destination, received, size, [], [], value)])
    case Purged(id) => s.(table := s.table - {id})
    case Elsewhere(peer, id, handled) =>
      s.(table := if handled then Move(s.table, peer, id) else AddUnhandled(s.table, peer, id))
  }

  // ---------------------------------------------------------------------------------------------
  // Why an entry leaves the unhandled ones

  /** The router dropped the entry, or took the same message in again with empty lists. */
  predicate Overwritten(act: Action, id: Digest) {
    (act.Purged? || act.Stored?) && act.id == id
  }

  /** The conditions under which this action builds an offer, if it does. */
  function Building(s: Peer, act: Action): Option<Conditions> {
    if s.transferring.Some? then None
    else if act.Attempt? then if s.state.LinkReady? && act.c.ready then Some(act.c) else None
    else if act.LinkUp? then if s.link && act.c.ready then Some(act.c) else None
    else if act.Answered? && act.answer.NoIdentity? && s.link then
      if act.c.identifies && act.c.ready then Some(act.c) else None
    else None
  }

  /** The peer was told that the other side already holds the entry. */
  predicate ReportedHeld(s: Peer, act: Action, id: Digest) {
    && act.Answered? && id in s.lastOffer
    && (act.answer == Flag(false) || (act.answer.Ids? && id !in act.answer.ids))
  }

  /** The entry was part of a transfer that completed. */
  predicate Transferred(s: Peer, act: Action, id: Digest) {
    act.Finished? && act.complete && s.transferring.Some? && id in s.transferring.value
  }

  predicate TooLargeToOffer(s: Peer, act: Action, id: Digest) {
    Building(s, act).Some? && TooLarge(s.table, Building(s, act).value, id)
  }

  predicate TooCheapToOffer(s: Peer, act: Action, id: Digest) {
    Building(s, act).Some? && LowValue(s.table, Building(s, act).value, id)
  }

  /** What places a mark of handled, for an entry that is unhandled. */
  predicate Settles(s: Peer, act: Action, id: Digest) {
    || TooLargeToOffer(s, act, id)
    || ReportedHeld(s, act, id)
    || Transferred(s, act, id)
    || (act.Process? && id in s.handledQueue)
  }

  predicate Leaves(s: Peer, act: Action, id: Digest) {
    Overwritten(act, id) || TooCheapToOffer(s, act, id) || Settles(s, act, id)
  }

  predicate Enters(s: Peer, act: Action, id: Digest) {
    && act.Process? && id in s.unhandledQueue && id in s.table
    && !Handled(s.table, s.me, id) && !Unhandled(s.table, s.me, id)
  }

  lemma {:induction false} NotInMembers(ids: seq<Digest>, answer: seq<Digest>)
    ensures forall id :: id in NotIn(ids, answer) <==> id in ids && id !in answer
  {
    if ids != [] {
      var m := |ids| - 1;
      NotInMembers(ids[..m], answer);
      assert ids == ids[..m] + [ids[m]];
    }
  }

  lemma {:induction false} SettleEffect(t: Table, p: Address, ids: seq<Digest>)
    requires Lists(t)
    ensures var u := Settle(t, p, ids);
            && SameMessages(t, u) && Lists(u)
            && (forall q, id :: Handled(u, q, id) <==>
                Handled(t, q, id) || (q == p && id in ids && Unhandled(t, p, id)))
            && (forall q, id :: Unhandled(u, q, id) <==> Unhandled(t, q, id) && !(q == p && id in ids))
  {
    if ids != [] {
      var m := |ids| - 1;
      SettleEffect(t, p, ids[..m]);
      MoveEffect(Settle(t, p, ids[..m]), p, ids[m]);
      assert ids == ids[..m] + [ids[m]];
    }
  }

  lemma {:induction false} NewlyUnhandledMembers(t: Table, p: Address, ids: seq<Digest>)
    ensures forall id :: id in NewlyUnhandled(t, p, ids) <==> id in ids && !Handled(t, p, id) && !Unhandled(t, p, id)
  {
    if ids != [] {
      var m := |ids| - 1;
      NewlyUnhandledMembers(t, p, ids[..m]);
      assert ids == ids[..m] + [ids[m]];
    }
  }

  lemma {:induction false} PoppedMembers(queue: seq<Digest>)
    ensures forall id :: id in Popped(queue) <==> id in queue
  {
    if queue != [] {
      var m := |queue| - 1;
      PoppedMembers(queue[..m]);
      assert queue == queue[..m] + [queue[m]];
    }
  }

  lemma {:induction false} AddAllEffect(t: Table, p: Address, ids: seq<Digest>)
    requires Lists(t)
    ensures Added(t, AddAll(t, p, ids), p, ids)
  {
    if ids != [] {
      var m := |ids| - 1;
      AddAllEffect(t, p, ids[..m]);
      AddUnhandledEffect(AddAll(t, p, ids[..m]), p, ids[m]);
      assert ids == ids[..m] + [ids[m]];
    }
  }

  /** The marks of `id` after an action, as the specification has them. */
  ghost predicate MarksFollow(s: Peer, act: Action, z: Peer, id: Digest) {
    && (Unhandled(z.table, z.me, id) <==>
          (Unhandled(s.table, s.me, id) && !Leaves(s, act, id)) || Enters(s, act, id))
    && (Unhandled(s.table, s.me, id) && Settles(s, act, id) ==> Handled(z.table, z.me, id))
    && (Handled(s.table, s.me, id) && !Overwritten(act, id) ==> Handled(z.table, z.me, id))
    && (Handled(z.table, z.me, id) ==> Handled(s.table, s.me, id) || Settles(s, act, id))
    && (!Overwritten(act, id) ==> (id in z.table <==> id in s.table))
    && (!Overwritten(act, id) && id in s.table && id in z.table ==>
          z.table[id].size == s.table[id].size && z.table[id].stampValue == s.table[id].stampValue)
  }

  lemma SyncEffect(s: Peer, c: Conditions)
    requires Lists(s.table) && Enumerates(c.order, s.table.Keys)
    ensures var z := Sync(s, c).0;
            && z.me == s.me && Lists(z.table) && SameMessages(s.table, z.table)
            && var built := s.transferring.None? && s.state.LinkReady? && c.ready;
               && (forall id :: Unhandled(z.table, s.me, id) <==>
                   Unhandled(s.table, s.me, id) && !(built && Dropped(s.table, c, id)))
               && (forall id :: Handled(z.table, s.me, id) <==>
                     Handled(s.table, s.me, id) || (built && Unhandled(s.table, s.me, id) && TooLarge(s.table, c, id)))
  {
    BuildEffect(s.table, s.me, c);
  }

  lemma RetryMarks(s: Peer, c: Conditions, id: Digest)
    requires Lists(s.table) && Enumerates(c.order, s.table.Keys)
    ensures MarksFollow(s, Answered(NoIdentity, c), OfferResponse(s, NoIdentity, c), id)
    ensures Lists(OfferResponse(s, NoIdentity, c).table)
  {
    if s.link && c.identifies {
      SyncEffect(s.(state := LinkReady), c);
    }
  }

  lemma FlagMarks(s: Peer, wantsAll: bool, c: Conditions, id: Digest)
    requires Lists(s.table)
    ensures MarksFollow(s, Answered(Flag(wantsAll), c), OfferResponse(s, Flag(wantsAll), c), id)
    ensures Lists(OfferResponse(s, Flag(wantsAll), c).table) && OfferResponse(s, Flag(wantsAll), c).me == s.me
  {
    if !wantsAll {
      SettleEffect(s.table, s.me, s.lastOffer);
    }
  }

  lemma IdsMarks(s: Peer, ids: seq<Digest>, c: Conditions, id: Digest)
    requires Lists(s.table)
    ensures MarksFollow(s, Answered(Ids(ids), c), OfferResponse(s, Ids(ids), c), id)
    ensures Lists(OfferResponse(s, Ids(ids), c).table) && OfferResponse(s, Ids(ids), c).me == s.me
  {
    NotInMembers(s.lastOffer, ids);
    MoveAllEffect(s.table, s.me, NotIn(s.lastOffer, ids));
  }

  lemma AnsweredMarks(s: Peer, answer: Answer, c: Conditions, id: Digest)
    requires Lists(s.table) && Enumerates(c.order, s.table.Keys)
    ensures MarksFollow(s, Answered(answer, c), OfferResponse(s, answer, c), id)
    ensures Lists(OfferResponse(s, answer, c).table) && OfferResponse(s, answer, c).me == s.me
  {
    match answer
    case NoIdentity => { RetryMarks(s, c, id); }
    case Flag(wantsAll) => { FlagMarks(s, wantsAll, c, id); }
    case Ids(ids) => { IdsMarks(s, ids, c, id); }
    case _ => {}
  }

  lemma SyncMarks(s: Peer, act: Action, id: Digest)
    requires Lists(s.table) && (act.Attempt? || act.LinkUp?) && Enumerates(act.c.order, s.table.Keys)
    ensures MarksFollow(s, act, Step(s, act), id)
    ensures Lists(Step(s, act).table) && Step(s, act).me == s.me
  {
    if act.Attempt? || s.link {
      SyncEffect(if act.LinkUp? then s.(state := LinkReady) else s, act.c);
    }
  }

  lemma ElsewhereMarks(s: Peer, act: Action, id: Digest)
    requires Lists(s.table) && act.Elsewhere? && act.peer != s.me
    ensures MarksFollow(s, act, Step(s, act), id)
    ensures Lists(Step(s, act).table) && Step(s, act).me == s.me
  {
    MoveEffect(s.table, act.peer, act.id);
    AddUnhandledEffect(s.table, act.peer, act.id);
  }

  lemma FinishedMarks(s: Peer, complete: bool, c: Conditions, id: Digest)
    requires Lists(s.table)
    ensures MarksFollow(s, Finished(complete, c), Concluded(s, complete, c), id)
    ensures Lists(Concluded(s, complete, c).table)
  {
    if complete && s.transferring.Some? {
      MoveAllEffect(s.table, s.me, s.transferring.value);
    }
  }

  lemma ProcessMarks(s: Peer, id: Digest)
    requires Lists(s.table)
    ensures MarksFollow(s, Process, ProcessQueues(s), id)
    ensures Lists(ProcessQueues(s).table)
  {
    var t1 := MoveAll(s.table, s.me, Popped(s.handledQueue));
    var more := NewlyUnhandled(s.table, s.me, Popped(s.unhandledQueue));
    PoppedMembers(s.handledQueue);
    PoppedMembers(s.unhandledQueue);
    NewlyUnhandledMembers(s.table, s.me, Popped(s.unhandledQueue));
    MoveAllEffect(s.table, s.me, Popped(s.handledQueue));
    AddAllEffect(t1, s.me, more);
  }

  /**
   * One action: an entry stops being unhandled exactly for one of the listed reasons and starts exactly when
   * its queued id is processed; all reasons but removal and low value leave it handled, and a handled
   * entry stays handled while it is stored.
   */
  lemma StepMarks(s: Peer, act: Action, id: Digest)
    requires Lists(s.table) && Enabled(s, act)
    ensures MarksFollow(s, act, Step(s, act), id)
    ensures Lists(Step(s, act).table) && Step(s, act).me == s.me
  {
    match act
    case Attempt(_) => { SyncMarks(s, act, id); }
    case LinkUp(_) => { SyncMarks(s, act, id); }
    case Answered(answer, c) => { AnsweredMarks(s, answer, c, id); }
    case Finished(complete, c) => { FinishedMarks(s, complete, c, id); }
    case Process => { ProcessMarks(s, id); }
    case Elsewhere(_, _, _) => { ElsewhereMarks(s, act, id); }
    case _ => {}
  }

  ghost predicate Legal(s: Peer, actions: seq<Action>)
    decreases |actions|
  {
    actions == [] || (Enabled(s, actions[0]) && Legal(Step(s, actions[0]), actions[1..]))
  }

  function Run(s: Peer, actions: seq<Action>): Peer
    decreases |actions|
  {
    if actions == [] then s else Run(Step(s, actions[0]), actions[1..])
  }

  /** Some action of the run settles `id` in the state it meets. */
  ghost predicate SettledIn(s: Peer, actions: seq<Action>, id: Digest)
    decreases |actions|
  {
    actions != [] && ((Unhandled(s.table, s.me, id) && Settles(s, actions[0], id))
        || SettledIn(Step(s, actions[0]), actions[1..], id))
  }

  ghost predicate NeverOverwritten(actions: seq<Action>, id: Digest) {
    forall i :: 0 <= i < |actions| ==> !Overwritten(actions[i], id)
  }

  /**
   * Over every run, a stored entry that is unhandled or handled for the peer remains one of the two; if it was
   * unhandled and no longer is, it is handled, and some action found it too large, reported it as held,
   * completed its transfer or took it from the handled queue.
   */
  lemma {:induction false} NothingForgotten(s: Peer, actions: seq<Action>, id: Digest)
    requires Lists(s.table) && Legal(s, actions) && NeverOverwritten(actions, id)
    requires id in s.table && s.table[id].stampValue >= 0
    ensures var z := Run(s, actions);
            && id in z.table
            && (Handled(s.table, s.me, id) ==> Handled(z.table, z.me, id))
            && (Unhandled(s.table, s.me, id) && !Unhandled(z.table, z.me, id) ==>
                Handled(z.table, z.me, id) && SettledIn(s, actions, id))
    decreases |actions|
  {
    if actions != [] {
      var s1 := Step(s, actions[0]);
      StepMarks(s, actions[0], id);
      assert !Overwritten(actions[0], id);
      assert !TooCheapToOffer(s, actions[0], id);
      NothingForgotten(s1, actions[1..], id);
    }
  }

  /** A transfer that fails changes no mark and clears the way for the next attempt. */
  lemma FailedTransfer(s: Peer, c: Conditions)
    ensures var z := Concluded(s, false, c);
            && z.table == s.table && z.transferring == None && z.state == Idle
            && forall c': Conditions :: c'.ready && AnyUnhandled(s) ==> Sync(z, c').0.state == LinkEstablishing
  {
  }

  // ---------------------------------------------------------------------------------------------
  // Two routers: the other side's answer, and a whole round

  /** LXMRouter.offer_request for a valid key: the ids not held, in short form when they are none or all. */
  function OfferRequest(held: set<Digest>, offer: seq<Digest>): Answer {
    var wanted := Missing(held, offer);
    if |wanted| == 0 then Flag(false) else if |wanted| == |offer| then Flag(true) else Ids(wanted)
  }

  function Missing(held: set<Digest>, offer: seq<Digest>): seq<Digest> {
    if offer == [] then [] else
    Missing(held, offer[..|offer| - 1]) + (if offer[|offer| - 1] !in held then [offer[|offer| - 1]] else [])
  }

  lemma {:induction false} MissingMembers(held: set<Digest>, offer: seq<Digest>)
    ensures forall id :: id in Missing(held, offer) <==> id in offer && id !in held
    ensures |Missing(held, offer)| <= |offer|
    ensures |Missing(held, offer)| == |offer| ==> Missing(held, offer) == offer
  {
    if offer != [] {
      var m := |offer| - 1;
      MissingMembers(held, offer[..m]);
      assert offer == offer[..m] + [offer[m]];
    }
  }

  /** The ids of the offer as they stand: stored and unhandled. */
  ghost predicate Outstanding(s: Peer) {
    forall id :: id in s.lastOffer ==> Unhandled(s.table, s.me, id)
  }

  lemma MissingStored(s: Peer, held: set<Digest>)
    requires Outstanding(s)
    ensures AllStored(s.table, Missing(held, s.lastOffer))
  {
    MissingMembers(held, s.lastOffer);
    var wanted := Missing(held, s.lastOffer);
    forall i | 0 <= i < |wanted|
      ensures wanted[i] in s.table
    {
      assert Unhandled(s.table, s.me, wanted[i]);
    }
  }

  lemma SettledLists(t: Table, p: Address, ids: seq<Digest>)
    requires Lists(t)
    ensures Lists(Settle(t, p, ids))
  {
    SettleEffect(t, p, ids);
  }

  lemma MovedStored(t: Table, p: Address, ids: seq<Digest>, wanted: seq<Digest>)
    requires Lists(t) && AllStored(t, wanted)
    ensures Lists(MoveAll(t, p, ids)) && AllStored(MoveAll(t, p, ids), wanted)
  {
    MoveAllEffect(t, p, ids);
  }

  lemma {:induction false} WithFilesMembers(files: set<Digest>, ids: seq<Digest>)
    ensures forall id :: id in WithFiles(files, ids) <==> id in ids && id in files
  {
    if ids != [] {
      var m := |ids| - 1;
      WithFilesMembers(files, ids[..m]);
      assert ids == ids[..m] + [ids[m]];
    }
  }

  /** The sync is over, without a transfer. */
  predicate Ended(s: Peer, z: Peer) {
    z.state == Idle && !z.link && z.transferring == s.transferring
  }

  /**
   * The answer of a router that holds `held`: exactly the other entries are put into the transfer, in the order
   * of the offer, and those of them that have a file are sent; or nothing is wanted, or starting the resource
   * fails, and the sync ends.
   */
  lemma AnswerStartsTransfer(s: Peer, held: set<Digest>, c: Conditions)
    requires Lists(s.table) && Outstanding(s)
    ensures var z := OfferResponse(s, OfferRequest(held, s.lastOffer), c);
            && z.me == s.me && z.lastOffer == s.lastOffer && Lists(z.table)
            && var wanted := Missing(held, s.lastOffer);
               if wanted == [] then Ended(s, z) && z.offered == s.offered + |s.lastOffer|
               else if !c.startsResource then Ended(s, z) && z.offered == s.offered
               else
                 && z.state == ResourceTransferring && z.transferring == Some(wanted)
                 && z.sent == WithFiles(c.files, wanted)
  {
    var wanted := Missing(held, s.lastOffer);
    var answer := OfferRequest(held, s.lastOffer);
    MissingStored(s, held);
    if answer == Flag(false) {
      SettledLists(s.table, s.me, s.lastOffer);
    } else if answer == Flag(true) {
      MissingMembers(held, s.lastOffer);
    } else {
      MovedStored(s.table, s.me, NotIn(s.lastOffer, wanted), wanted);
    }
  }

  lemma AnswerTells(s: Peer, held: set<Digest>, c: Conditions, id: Digest)
    requires id in s.lastOffer
    ensures ReportedHeld(s, Answered(OfferRequest(held, s.lastOffer), c), id) <==> id in held
  {
    MissingMembers(held, s.lastOffer);
  }

  lemma AnsweredSplits(s: Peer, answer: Answer, c: Conditions, z: Peer, id: Digest)
    requires Unhandled(s.table, s.me, id) && (answer.Flag? || answer.Ids?)
    requires MarksFollow(s, Answered(answer, c), z, id)
    ensures id in z.table
    ensures Unhandled(z.table, z.me, id) <==> !ReportedHeld(s, Answered(answer, c), id)
    ensures Handled(z.table, z.me, id) <==> Handled(s.table, s.me, id) || ReportedHeld(s, Answered(answer, c), id)
  {
  }

  /** Exactly the offered entries that the other router holds become handled. */
  lemma AnswerSplitsOffer(s: Peer, held: set<Digest>, c: Conditions, id: Digest)
    requires Lists(s.table) && Unhandled(s.table, s.me, id) && id in s.lastOffer
    ensures var z := OfferResponse(s, OfferRequest(held, s.lastOffer), c);
            && id in z.table
            && (Unhandled(z.table, s.me, id) <==> id !in held)
            && (id in held ==> Handled(z.table, s.me, id))
            && (id !in held ==> (Handled(z.table, s.me, id) <==> Handled(s.table, s.me, id)))
  {
    var answer := OfferRequest(held, s.lastOffer);
    assert answer.Flag? || answer.Ids?;
    if answer.Flag? {
      FlagMarks(s, answer.wantsAll, c, id);
    } else {
      IdsMarks(s, answer.ids, c, id);
    }
    AnsweredSplits(s, answer, c, OfferResponse(s, answer, c), id);
    AnswerTells(s, held, c, id);
  }

  /**
   * A whole round without interruption: afterwards every offered entry is handled and none unhandled. Each of
   * them was held by the other router or was listed in the completed transfer; of those listed, exactly the
   * ones whose file existed were sent, so an entry becomes handled without reaching the other side if and
   * only if that side lacks it and its file is gone.
   */
  lemma RoundSettlesOffer(s: Peer, held: set<Digest>, c: Conditions, c': Conditions, id: Digest)
    requires Lists(s.table) && Outstanding(s) && id in s.lastOffer && s.transferring.None? && c.startsResource
    ensures var z := OfferResponse(s, OfferRequest(held, s.lastOffer), c);
            var y := if z.transferring.Some? then Concluded(z, true, c') else z;
            && Handled(y.table, s.me, id) && !Unhandled(y.table, s.me, id)
            && (id in held || (z.transferring.Some? && id in z.transferring.value))
            && (!(id in held || (z.transferring.Some? && id in z.sent)) <==> id !in held && id !in c.files)
  {
    RoundSends(s, held, c, id);
    RoundMarks(s, held, c, c', id);
  }

  lemma RoundSends(s: Peer, held: set<Digest>, c: Conditions, id: Digest)
    requires Lists(s.table) && Outstanding(s) && id in s.lastOffer && s.transferring.None? && c.startsResource
    ensures var z := OfferResponse(s, OfferRequest(held, s.lastOffer), c);
            && (id in held || (z.transferring.Some? && id in z.transferring.value))
            && (id in held || (z.transferring.Some? && id in z.sent) <==> id in held || id in c.files)
  {
    AnswerStartsTransfer(s, held, c);
    MissingMembers(held, s.lastOffer);
    WithFilesMembers(c.files, Missing(held, s.lastOffer));
  }

  lemma RoundMarks(s: Peer, held: set<Digest>, c: Conditions, c': Conditions, id: Digest)
    requires Lists(s.table) && Outstanding(s) && id in s.lastOffer && s.transferring.None? && c.startsResource
    ensures var z := OfferResponse(s, OfferRequest(held, s.lastOffer), c);
            var y := if z.transferring.Some? then Concluded(z, true, c') else z;
            Handled(y.table, s.me, id) && !Unhandled(y.table, s.me, id)
  {
    AnswerStartsTransfer(s, held, c);
    assert Unhandled(s.table, s.me, id);
    AnswerSplitsOffer(s, held, c, id);
    MissingMembers(held, s.lastOffer);
    var z := OfferResponse(s, OfferRequest(held, s.lastOffer), c);
    if z.transferring.Some? {
      FinishedMarks(z, true, c', id);
    }
  }

  /** When the resource cannot be started, what the other side lacks stays unhandled. */
  lemma UnstartedResource(s: Peer, held: set<Digest>, c: Conditions, id: Digest)
    requires Lists(s.table) && Outstanding(s) && id in s.lastOffer && id !in held && !c.startsResource
    ensures var z := OfferResponse(s, OfferRequest(held, s.lastOffer), c);
            Unhandled(z.table, s.me, id) && z.transferring == s.transferring && z.state == Idle
  {
    assert Unhandled(s.table, s.me, id);
    MissingMembers(held, s.lastOffer);
    AnswerStartsTransfer(s, held, c);
    AnswerSplitsOffer(s, held, c, id);
  }

  /**
   * What a sync does, for a peer that can be reached, has unhandled messages and no transfer under way: with a ready
   * link it sends an offer iff both limits are known and there is a link to send it on, and raises otherwise; idle,
   * it starts a link; in any other state, and for any other peer, it does nothing.
   */
  lemma SyncDecides(s: Peer, c: Conditions)
    ensures var (z, raised) := Sync(s, c);
            var active := c.ready && s.transferring == None && exists id :: Unhandled(s.table, s.me, id);
            && (s.state != RequestSent ==>
                  (z.state == RequestSent <==>
                     active && s.state == LinkReady && c.transferKb.Some? && c.syncKb.Some? && s.link))
            && (raised <==> active && s.state == LinkReady && !(c.transferKb.Some? && c.syncKb.Some? && s.link))
            && (active && s.state == Idle ==> z == s.(state := LinkEstablishing, link := true))
            && (!active || (s.state != Idle && s.state != LinkReady) ==> z == s)
            && (s.state == LinkReady && z.state == LinkReady && active && c.transferKb.Some? && c.syncKb.Some? ==>
                  Build(s.table, s.me, c).1 == Some(z.lastOffer))
  {
    if id :| Unhandled(s.table, s.me, id) {
      assert id in s.table;
    }
  }

  /** The offer a sync sends out is outstanding when it is sent. */
  lemma SentOfferOutstanding(s: Peer, c: Conditions)
    requires Lists(s.table) && Enumerates(c.order, s.table.Keys)
    requires Sync(s, c).0.state == RequestSent && s.state == LinkReady
    ensures Outstanding(Sync(s, c).0)
  {
    OfferSound(s.table, s.me, c);
    BuildEffect(s.table, s.me, c);
    var z := Sync(s, c).0;
    forall id | id in z.lastOffer
      ensures Unhandled(z.table, z.me, id)
    {
      assert Eligible(s.table, s.me, c, c.transferKb.value, id);
    }
  }

  /** Removing a mark of p leaves no new ones, adding one removes none. */
  lemma StillMarked(start: Table, now: Table, p: Address, id: Digest)
    requires forall i :: Handled(start, p, i) ==> Handled(now, p, i)
    requires forall i :: Unhandled(now, p, i) ==> Unhandled(start, p, i)
    ensures forall i :: Handled(start, p, i) ==> Handled(Move(now, p, id), p, i)
    ensures forall i :: Unhandled(Move(now, p, id), p, i) ==> Unhandled(start, p, i)
  {
    if id in now {
      WithoutSubset(now[id].unhandledBy, p);
    }
  }

  lemma {:induction false} PoppedOne(queue: seq<Digest>, done: seq<Digest>)
    requires queue != []
    ensures done + Popped(queue) == (done + [queue[|queue| - 1]]) + Popped(queue[..|queue| - 1])
  {
    var last, rest := queue[|queue| - 1], Popped(queue[..|queue| - 1]);
    assert done + ([last] + rest) == (done + [last]) + rest;
  }

  lemma AddOneMore(t: Table, start: Table, p: Address, done: seq<Digest>, id: Digest)
    ensures var u := AddAll(t, p, NewlyUnhandled(start, p, done));
            AddAll(t, p, NewlyUnhandled(start, p, done + [id]))
              == if !Handled(start, p, id) && !Unhandled(start, p, id) then AddUnhandled(u, p, id) else u
  {
    var before := NewlyUnhandled(start, p, done);
    assert (done + [id])[..|done|] == done;
    if !Handled(start, p, id) && !Unhandled(start, p, id) {
      assert (before + [id])[..|before|] == before;
      assert NewlyUnhandled(start, p, done + [id]) == before + [id];
    } else {
      assert NewlyUnhandled(start, p, done + [id]) == before;
    }
  }

  lemma {:induction false} WithoutSubset(s: seq<Address>, p: Address)
    ensures forall q :: q in Without(s, p) ==> q in s
  {
    if s != [] && s[0] != p {
      WithoutSubset(s[1..], p);
    }
  }

  // ---------------------------------------------------------------------------------------------
  // The peer object, which works on its router's table in place

  class Router {
    var entries: Table

    constructor ()
      ensures entries == map[]
    {
      entries := map[];
    }
  }

  class LxmPeer {
    const router: Router
    const destination: Address
    var state: State
    var link: bool
    var lastOffer: seq<Digest>
    var transferring: Option<seq<Digest>>
    var sent: seq<Digest>
    var handledQueue: seq<Digest>
    var unhandledQueue: seq<Digest>
    var offered: nat
    var outgoing: nat

    ghost function View(): Peer reads this, router {
      Peer(destination, router.entries, state, link, lastOffer, transferring, sent, handledQueue, unhandledQueue,
          offered, outgoing)
    }

    constructor (router: Router, destination: Address)
      ensures this.router == router
      ensures View() == Peer(destination, router.entries, Idle, false, [], None, [], [], [], 0, 0)
    {
      this.router, this.destination := router, destination;
      state, link, lastOffer, transferring, sent := Idle, false, [], None, [];
      handledQueue, unhandledQueue, offered, outgoing := [], [], 0, 0;
    }

    method AddHandledMessage(id: Digest)
      modifies router
      ensures router.entries == AddHandled(old(router.entries), destination, id)
    {
      if id in router.entries && destination !in router.entries[id].handledBy {
        var e := router.entries[id];
        router.entries := router.entries[id := e.(handledBy := e.handledBy + [destination])];
      }
    }

    method AddUnhandledMessage(id: Digest)
      modifies router
      ensures router.entries == AddUnhandled(old(router.entries), destination, id)
    {
      if id in router.entries && destination !in router.entries[id].unhandledBy {
        var e := router.entries[id];
        router.entries := router.entries[id := e.(unhandledBy := e.unhandledBy + [destination])];
      }
    }

    method RemoveUnhandledMessage(id: Digest)
      modifies router
      ensures router.entries == RemoveUnhandled(old(router.entries), destination, id)
    {
      if id in router.entries && destination in router.entries[id].unhandledBy {
        var e := router.entries[id];
        router.entries := router.entries[id := e.(unhandledBy := Without(e.unhandledBy, destination))];
      }
    }

    method MoveMessage(id: Digest)
      modifies router
      ensures router.entries == Move(old(router.entries), destination, id)
    {
      AddHandledMessage(id);
      RemoveUnhandledMessage(id);
    }

    method MoveMessages(ids: seq<Digest>)
      modifies router
      ensures router.entries == MoveAll(old(router.entries), destination, ids)
    {
      for i := 0 to |ids|
        invariant router.entries == MoveAll(old(router.entries), destination, ids[..i])
      {
        assert ids[..i + 1][..i] == ids[..i];
        MoveMessage(ids[i]);
      }
      assert ids[..|ids|] == ids;
    }

    /** First loop of the offer: the unhandled entries worth offering and those of too low a value. */
    method Sift(c: Conditions) returns (worth: seq<Digest>, low: seq<Digest>)
      ensures worth == Pick(router.entries, destination, c, false, c.order)
      ensures low == Pick(router.entries, destination, c, true, c.order)
    {
      worth, low := [], [];
      for i := 0 to |c.order|
        invariant worth == Pick(router.entries, destination, c, false, c.order[..i])
        invariant low == Pick(router.entries, destination, c, true, c.order[..i])
      {
        assert c.order[..i + 1][..i] == c.order[..i];
        var id := c.order[i];
        if id in router.entries && destination in router.entries[id].unhandledBy {
          if router.entries[id].stampValue < MinAccepted(c) {
            low := low + [id];
          } else {
            worth := worth + [id];
          }
        }
      }
      assert c.order[..|c.order|] == c.order;
    }

    method DropLowValue(low: seq<Digest>)
      modifies router
      ensures router.entries == UnmarkAll(old(router.entries), destination, low)
    {
      for i := 0 to |low|
        invariant router.entries == UnmarkAll(old(router.entries), destination, low[..i])
      {
        assert low[..i + 1][..i] == low[..i];
        RemoveUnhandledMessage(low[i]);
      }
      assert low[..|low|] == low;
    }

    /** Last loop of the offer; `sizes` are the entries as listed by the first loop. */
    method Select(sizes: Table, ids: seq<Digest>, transferKb: real, syncKb: real) returns (chosen: seq<Digest>)
      modifies router
      ensures chosen == Fill(sizes, transferKb, syncKb, ids).1
      ensures router.entries == MoveAll(old(router.entries), destination, OversizeOf(sizes, transferKb, ids))
    {
      var cumulative := STRUCTURE;
      chosen := [];
      for i := 0 to |ids|
        invariant (cumulative, chosen) == Fill(sizes, transferKb, syncKb, ids[..i])
        invariant router.entries == MoveAll(old(router.entries), destination, OversizeOf(sizes, transferKb, ids[..i]))
      {
        assert ids[..i + 1][..i] == ids[..i];
        var load := Size(sizes, ids[i]) + OVERHEAD;
        if load as real > transferKb * 1000.0 {
          MoveLarge(ids[i], OversizeOf(sizes, transferKb, ids[..i]), old(router.entries));
          assert OversizeOf(sizes, transferKb, ids[..i + 1]) == OversizeOf(sizes, transferKb, ids[..i]) + [ids[i]];
        } else {
          assert OversizeOf(sizes, transferKb, ids[..i + 1]) == OversizeOf(sizes, transferKb, ids[..i]);
          if (cumulative + load) as real < syncKb * 1000.0 {
            cumulative, chosen := cumulative + load, chosen + [ids[i]];
          }
        }
      }
      assert ids[..|ids|] == ids;
    }

    /** An oversize entry; the mark is removed first here, and added second. */
    method MoveLarge(id: Digest, ghost before: seq<Digest>, ghost start: Table)
      requires router.entries == MoveAll(start, destination, before)
      modifies router
      ensures router.entries == MoveAll(start, destination, before + [id])
    {
      RemoveUnhandledMessage(id);
      AddHandledMessage(id);
      assert (before + [id])[..|before|] == before;
    }

    method NoUnhandled() returns (none: bool)
      ensures none <==> !AnyUnhandled(View())
    {
      none := forall id :: id in router.entries ==> destination !in router.entries[id].unhandledBy;
      assert none <==> forall id :: id in router.entries ==> !Unhandled(router.entries, destination, id);
    }

    /** sync; `raised` says that it ended with an exception. */
    method StartSync(c: Conditions) returns (raised: bool)
      modifies this, router
      ensures (View(), raised) == Sync(old(View()), c)
    {
      raised := false;
      var none := NoUnhandled();
      if !c.ready || none || transferring.Some? {
        return;
      }
      if state.Idle? {
        state, link := LinkEstablishing, true;
      } else if state.LinkReady? {
        var sizes := router.entries;
        var worth, low := Sift(c);
        DropLowValue(low);
        if c.transferKb.None? || c.syncKb.None? {
          return true;
        }
        var ids := Sorted(worth, (x: Digest) => WeightIn(sizes, c, x));
        lastOffer := Select(sizes, ids, c.transferKb.value, c.syncKb.value);
        if !link {
          return true;
        }
        state := RequestSent;
      }
    }

    method Answer(answer: Answer, c: Conditions)
      modifies this, router
      ensures View() == OfferResponse(old(View()), answer, c)
    {
      state := ResponseReceived;
      match answer
      case NoIdentity => {
        if link && !c.identifies {
          link, state := false, Idle;
        } else if link {
          state := LinkReady;
          var raised := StartSync(c);
          if raised {
            link, state := false, Idle;
          }
        } else {
          SendWanted([], c);
        }
      }
      case NoAccess => {}
      case Throttled => {}
      case Flag(wantsAll) => {
        if wantsAll {
          SendWanted(lastOffer, c);
        } else {
          SettleOffer();
          SendWanted([], c);
        }
      }
      case Ids(ids) => {
        SettleUnwanted(ids);
        SendWanted(ids, c);
      }
      case Other => {
        link, state := false, Idle;
      }
    }

    /** The peer has everything: each entry of the offer that is still unhandled becomes handled. */
    method SettleOffer()
      modifies router
      ensures router.entries == Settle(old(router.entries), destination, lastOffer)
    {
      for i := 0 to |lastOffer|
        invariant router.entries == Settle(old(router.entries), destination, lastOffer[..i])
      {
        assert lastOffer[..i + 1][..i] == lastOffer[..i];
        var id := lastOffer[i];
        if id in router.entries && destination in router.entries[id].unhandledBy {
          MoveMessage(id);
        }
      }
      assert lastOffer[..|lastOffer|] == lastOffer;
    }

    /** The peer wants some: the rest of the offer becomes handled. */
    method SettleUnwanted(ids: seq<Digest>)
      modifies router
      ensures router.entries == MoveAll(old(router.entries), destination, NotIn(lastOffer, ids))
    {
      for i := 0 to |lastOffer|
        invariant router.entries == MoveAll(old(router.entries), destination, NotIn(lastOffer[..i], ids))
      {
        assert lastOffer[..i + 1][..i] == lastOffer[..i];
        if lastOffer[i] !in ids {
          ghost var before := NotIn(lastOffer[..i], ids);
          assert (before + [lastOffer[i]])[..|before|] == before;
          assert NotIn(lastOffer[..i + 1], ids) == before + [lastOffer[i]];
          MoveMessage(lastOffer[i]);
        } else {
          assert NotIn(lastOffer[..i + 1], ids) == NotIn(lastOffer[..i], ids);
        }
      }
      assert lastOffer[..|lastOffer|] == lastOffer;
    }

    method SendWanted(wanted: seq<Digest>, c: Conditions)
      modifies this
      ensures View() == Transfer(old(View()), wanted, c)
    {
      var found := true;
      for i := 0 to |wanted|
        invariant found <==> forall j :: 0 <= j < i ==> wanted[j] in router.entries
      {
        found := found && wanted[i] in router.entries;
      }
      if !found {
        link, state := false, Idle;
      } else if wanted == [] {
        offered, link, state := offered + |lastOffer|, false, Idle;
      } else {
        var list := ReadFiles(wanted, c.files);
        if !c.startsResource {
          link, state := false, Idle;
        } else {
          transferring, sent, state := Some(wanted), list, ResourceTransferring;
        }
      }
    }

    /** The loop over the wanted entries that reads the files that are there. */
    method ReadFiles(wanted: seq<Digest>, files: set<Digest>) returns (list: seq<Digest>)
      ensures list == WithFiles(files, wanted)
    {
      list := [];
      for i := 0 to |wanted|
        invariant list == WithFiles(files, wanted[..i])
      {
        assert wanted[..i + 1][..i] == wanted[..i];
        if wanted[i] in files {
          list := list + [wanted[i]];
        }
      }
      assert wanted[..|wanted|] == wanted;
    }

    method Conclude(complete: bool, c: Conditions)
      modifies this, router
      ensures View() == Concluded(old(View()), complete, c)
    {
      link, state := false, Idle;
      if complete {
        if transferring.Some? {
          var ids := transferring.value;
          MoveMessages(ids);
          offered, outgoing, transferring := offered + |lastOffer|, outgoing + |ids|, None;
          var _ := StartSync(c);
        }
      } else {
        transferring := None;
      }
    }

    /** First loop of process_queues, which consults the marks found at the start. */
    method PopHandled(start: Table)
      requires router.entries == start
      modifies this`handledQueue, router
      ensures handledQueue == []
      ensures router.entries == MoveAll(start, destination, Popped(old(handledQueue)))
    {
      ghost var done: seq<Digest> := [];
      while handledQueue != []
        invariant done + Popped(handledQueue) == Popped(old(handledQueue))
        invariant router.entries == MoveAll(start, destination, done)
        invariant forall id :: Handled(start, destination, id) ==> Handled(router.entries, destination, id)
        invariant forall id :: Unhandled(router.entries, destination, id) ==> Unhandled(start, destination, id)
        decreases |handledQueue|
      {
        var id := handledQueue[|handledQueue| - 1];
        PoppedOne(handledQueue, done);
        handledQueue := handledQueue[..|handledQueue| - 1];
        SettleQueued(start, id);
        assert (done + [id])[..|done|] == done;
        done := done + [id];
      }
      assert done == done + Popped(handledQueue);
    }

    method SettleQueued(start: Table, id: Digest)
      requires forall i :: Handled(start, destination, i) ==> Handled(router.entries, destination, i)
      requires forall i :: Unhandled(router.entries, destination, i) ==> Unhandled(start, destination, i)
      modifies router
      ensures router.entries == Move(old(router.entries), destination, id)
      ensures forall i :: Handled(start, destination, i) ==> Handled(router.entries, destination, i)
      ensures forall i :: Unhandled(router.entries, destination, i) ==> Unhandled(start, destination, i)
    {
      StillMarked(start, router.entries, destination, id);
      if !Handled(start, destination, id) {
        AddHandledMessage(id);
      }
      if Unhandled(start, destination, id) {
        RemoveUnhandledMessage(id);
      }
    }

    method QueueNew(start: Table, id: Digest)
      modifies router
      ensures router.entries ==
        if !Handled(start, destination, id) && !Unhandled(start, destination, id) then
          AddUnhandled(old(router.entries), destination, id)
        else old(router.entries)
    {
      if !Handled(start, destination, id) && !Unhandled(start, destination, id) {
        AddUnhandledMessage(id);
      }
    }

    /** Second loop of process_queues. */
    method PopUnhandled(start: Table)
      modifies this`unhandledQueue, router
      ensures unhandledQueue == []
      ensures router.entries
          == AddAll(old(router.entries), destination, NewlyUnhandled(start, destination, Popped(old(unhandledQueue))))
    {
      ghost var done: seq<Digest> := [];
      ghost var first, all := router.entries, Popped(unhandledQueue);
      while unhandledQueue != []
        invariant done + Popped(unhandledQueue) == all
        invariant router.entries == AddAll(first, destination, NewlyUnhandled(start, destination, done))
        decreases |unhandledQueue|
      {
        var id := unhandledQueue[|unhandledQueue| - 1];
        PoppedOne(unhandledQueue, done);
        AddOneMore(first, start, destination, done, id);
        unhandledQueue := unhandledQueue[..|unhandledQueue| - 1];
        QueueNew(start, id);
        done := done + [id];
      }
      assert done == done + Popped(unhandledQueue);
    }

    method EmptyQueues()
      modifies this, router
      ensures View() == ProcessQueues(old(View()))
    {
      var start := router.entries;
      PopHandled(start);
      PopUnhandled(start);
    }
  }
}
