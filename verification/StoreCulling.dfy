/** lxmf-rs/src/rns/router.rs: clean_propagation_store, expiry and weighted culling of stored messages. */
module StoreCulling {
  import opened Common
  import opened StableSort

  const MESSAGE_EXPIRY: real := 30.0 * 86400.0

  /** A stored message; the time is None when the recorded float is not finite. */
  datatype Entry = Entry(data: seq<byte>, timestamp: Option<real>)

  type Store = map<Digest, Entry>

  predicate Stale(e: Entry, now: real) {
    e.timestamp.None? || e.timestamp.value <= 0.0 || now > e.timestamp.value + MESSAGE_EXPIRY
  }

  function Max(x: real, y: real): real {
    if x >= y then x else y
  }

  function AgeWeight(e: Entry, now: real): (w: real)
    requires e.timestamp.Some?
    ensures w >= 1.0
  {
    Max(Max(now - e.timestamp.value, 0.0) / 60.0 / 60.0 / 24.0 / 4.0, 1.0)
  }

  function PriorityWeight(e: Entry, prioritised: set<Address>): real {
    if |e.data| >= 16 && e.data[..16] in prioritised then 0.1 else 1.0
  }

  function Weight(e: Entry, now: real, prioritised: set<Address>): real
    requires e.timestamp.Some?
  {
    PriorityWeight(e, prioritised) * AgeWeight(e, now) * |e.data| as real
  }

  function Weights(s: Store, now: real, prioritised: set<Address>): map<Digest, real>
    requires forall id :: id in s ==> s[id].timestamp.Some?
  {
    map id | id in s :: Weight(s[id], now, prioritised)
  }

  function Fresh(s: Store, now: real): Store {
    map id | id in s && !Stale(s[id], now) :: s[id]
  }

  /** An entry is stale iff its time is missing, not positive, or more than thirty days ago. */
  lemma StaleIff(e: Entry, now: real)
    ensures !Stale(e, now) <==> e.timestamp.Some? && e.timestamp.value > 0.0 && now - e.timestamp.value <= 2592000.0
  {
  }

  /** The weight in terms of the fields: a tenth for priority, times the age in units of four days if more than one. */
  lemma WeightOfFields(e: Entry, now: real, prioritised: set<Address>)
    requires e.timestamp.Some?
    ensures var k := if |e.data| >= 16 && e.data[..16] in prioritised then 0.1 else 1.0;
            var age := now - e.timestamp.value;
            && (age <= 345600.0 ==> Weight(e, now, prioritised) == k * |e.data| as real)
            && (age >= 345600.0 ==> Weight(e, now, prioritised) == k * (age / 345600.0) * |e.data| as real)
  {
    var age := Max(now - e.timestamp.value, 0.0);
    assert age / 60.0 / 60.0 / 24.0 / 4.0 == age / 345600.0;
  }

  /** PropagationStore::total_size_bytes. */
  ghost function Total(s: Store): nat {
    if s == map[] then 0 else
    var id :| id in s;
    |s[id].data| + Total(s - {id})
  }

  lemma {:induction false} TotalRemove(s: Store, id: Digest)
    requires id in s
    ensures Total(s) == |s[id].data| + Total(s - {id})
    decreases |s|
  {
    var k :| k in s && Total(s) == |s[k].data| + Total(s - {k});
    if k != id {
      TotalRemove(s - {k}, id);
      TotalRemove(s - {id}, k);
      assert s - {k} - {id} == s - {id} - {k};
    }
  }

  // ---------------------------------------------------------------------------------------------
  // The table of weights and its sort

  datatype Weighted = Weighted(weight: real, id: Digest, size: nat)

  ghost predicate Descending(s: seq<Weighted>) {
    forall i, j :: 0 <= i < j < |s| ==> s[i].weight >= s[j].weight
  }

  ghost predicate DistinctIds(s: seq<Weighted>) {
    forall i, j :: 0 <= i < j < |s| ==> s[i].id != s[j].id
  }

  /** `b.0.partial_cmp(&a.0)`: heaviest first, equal weights in table order. */
  function Heaviest(table: seq<Weighted>): seq<Weighted> {
    Sorted(table, (w: Weighted) => -w.weight)
  }

  /** What survives culling: the heaviest entries go first, and no more of them than needed. */
  ghost predicate Culled(current: Store, kept: Store, limit: nat, weights: map<Digest, real>)
    requires current.Keys <= weights.Keys
  {
    && (forall id :: id in kept ==> id in current && kept[id] == current[id])
    && Total(kept) <= limit
    && (Total(current) <= limit ==> kept == current)
    && (forall gone, id :: gone in current && gone !in kept && id in kept ==> weights[gone] >= weights[id])
    && (kept != current ==> exists last ::
          && last in current && last !in kept
          && Total(kept) + |current[last].data| > limit
          && forall gone :: gone in current && gone !in kept ==> weights[gone] >= weights[last])
  }

  /** The rows of a table of weights are entries, each once, with its weight and size. */
  ghost predicate Rows(s: Store, weights: map<Digest, real>, table: seq<Weighted>) {
    && s.Keys == weights.Keys
    && DistinctIds(table)
    && (forall i :: 0 <= i < |table| ==>
          table[i].id in s && table[i].weight == weights[table[i].id] && table[i].size == |s[table[i].id].data|)
  }

  /** The table lists every entry once. */
  ghost predicate Lists(s: Store, weights: map<Digest, real>, table: seq<Weighted>) {
    && Rows(s, weights, table)
    && (forall id :: id in s ==> exists i :: 0 <= i < |table| && table[i].id == id)
  }

  lemma SameIdSameRow(table: seq<Weighted>, x: Weighted, y: Weighted)
    requires DistinctIds(table) && x in table && y in table
    ensures x.id == y.id ==> x == y
  {
  }

  lemma HeaviestFirst(table: seq<Weighted>)
    requires DistinctIds(table)
    ensures var t := Heaviest(table); Descending(t) && DistinctIds(t) && forall x :: x in t <==> x in table
  {
    var key := (w: Weighted) => -w.weight;
    var t := Heaviest(table);
    assert t == Sorted(table, key);
    SortedPermutes(table, key);
    forall i, j | 0 <= i < j < |t|
      ensures t[i].weight >= t[j].weight && t[i].id != t[j].id
    {
      assert key(t[i]) <= key(t[j]);
      SameIdSameRow(table, t[i], t[j]);
    }
  }

  lemma SortKeepsRows(s: Store, weights: map<Digest, real>, table: seq<Weighted>)
    requires Rows(s, weights, table)
    ensures Rows(s, weights, Heaviest(table)) && Descending(Heaviest(table))
  {
    HeaviestFirst(table);
    var t := Heaviest(table);
    forall i | 0 <= i < |t|
      ensures t[i].id in s && t[i].weight == weights[t[i].id] && t[i].size == |s[t[i].id].data|
    {
      assert t[i] in table;
    }
  }

  lemma SortKeepsListing(s: Store, weights: map<Digest, real>, table: seq<Weighted>)
    requires Lists(s, weights, table)
    ensures Lists(s, weights, Heaviest(table)) && Descending(Heaviest(table))
  {
    SortKeepsRows(s, weights, table);
    HeaviestFirst(table);
    var t := Heaviest(table);
    forall id | id in s
      ensures exists i :: 0 <= i < |t| && t[i].id == id
    {
      var k :| 0 <= k < |table| && table[k].id == id;
      assert table[k] in t;
    }
  }

  /** The store after the first n rows have been removed. */
  ghost function Without(s: Store, table: seq<Weighted>, n: nat): Store
    requires n <= |table|
  {
    if n == 0 then s else Without(s, table, n - 1) - {table[n - 1].id}
  }

  lemma {:induction false} WithoutMembers(s: Store, table: seq<Weighted>, n: nat, id: Digest)
    requires n <= |table|
    ensures id in Without(s, table, n) <==> id in s && forall k :: 0 <= k < n ==> table[k].id != id
    ensures id in Without(s, table, n) ==> Without(s, table, n)[id] == s[id]
  {
    if n > 0 {
      WithoutMembers(s, table, n - 1, id);
    }
  }

  /** Removing a prefix of a sorted table, just long enough, is a culling. */
  lemma CulledPrefix(s: Store, weights: map<Digest, real>, table: seq<Weighted>, n: nat, limit: nat)
    requires Lists(s, weights, table) && Descending(table) && 0 < n <= |table|
    requires Total(Without(s, table, n)) <= limit < Total(s)
    requires Total(Without(s, table, n)) + table[n - 1].size > limit
    ensures Culled(s, Without(s, table, n), limit, weights)
  {
    var kept := Without(s, table, n);
    forall id
      ensures id in kept ==> id in s && kept[id] == s[id]
    {
      WithoutMembers(s, table, n, id);
    }
    forall gone, id | gone in s && gone !in kept && id in kept
      ensures weights[gone] >= weights[id]
    {
      HeavierGoesFirst(s, weights, table, n, gone, id);
    }
    var last := table[n - 1].id;
    WithoutMembers(s, table, n, last);
    forall gone | gone in s && gone !in kept
      ensures weights[gone] >= weights[last]
    {
      WithoutMembers(s, table, n, gone);
      var k :| 0 <= k < n && table[k].id == gone;
    }
  }

  lemma HeavierGoesFirst(s: Store, weights: map<Digest, real>, table: seq<Weighted>, n: nat, gone: Digest, id: Digest)
    requires Lists(s, weights, table) && Descending(table) && n <= |table|
    requires gone in s && id in s && gone !in Without(s, table, n) && id in Without(s, table, n)
    ensures weights[gone] >= weights[id]
  {
    WithoutMembers(s, table, n, gone);
    WithoutMembers(s, table, n, id);
    var k :| 0 <= k < n && table[k].id == gone;
    var j :| 0 <= j < |table| && table[j].id == id;
  }

  /** Removing one more row takes its size off the total. */
  lemma RowRemoved(s: Store, weights: map<Digest, real>, table: seq<Weighted>, n: nat)
    requires Rows(s, weights, table) && n < |table|
    ensures var before, after := Without(s, table, n), Without(s, table, n + 1);
            && after == before - {table[n].id}
            && Total(before) == table[n].size + Total(after)
  {
    var before, id := Without(s, table, n), table[n].id;
    WithoutMembers(s, table, n, id);
    TotalRemove(before, id);
  }

  lemma {:induction false} WithoutSize(s: Store, weights: map<Digest, real>, table: seq<Weighted>, n: nat)
    requires Rows(s, weights, table) && n <= |table|
    ensures |Without(s, table, n)| == |s| - n
  {
    if n > 0 {
      WithoutSize(s, weights, table, n - 1);
      WithoutMembers(s, table, n - 1, table[n - 1].id);
      RemoveSize(Without(s, table, n - 1), table[n - 1].id);
    }
  }

  lemma RemoveSize(s: Store, id: Digest)
    requires id in s
    ensures |s - {id}| == |s| - 1
  {
    assert (s - {id}).Keys == s.Keys - {id};
  }

  lemma WithoutAll(s: Store, weights: map<Digest, real>, table: seq<Weighted>)
    requires Lists(s, weights, table)
    ensures Total(Without(s, table, |table|)) == 0
  {
    forall id
      ensures id !in Without(s, table, |table|)
    {
      WithoutMembers(s, table, |table|, id);
    }
    assert Without(s, table, |table|) == map[];
  }

  /** What is left when the stale ones among the visited entries are gone. */
  function FreshAfter(s: Store, visited: seq<Digest>, now: real): Store {
    map id | id in s && !(id in visited && Stale(s[id], now)) :: s[id]
  }

  lemma StaleStep(s: Store, order: seq<Digest>, i: nat, now: real)
    requires i < |order| && Enumerates(order, s.Keys)
    ensures order[i] in s && order[i] in FreshAfter(s, order[..i], now)
    ensures var left := FreshAfter(s, order[..i], now);
            && FreshAfter(s, order[..i + 1], now) == (if Stale(s[order[i]], now) then left - {order[i]} else left)
            && |left - {order[i]}| == |left| - 1
  {
    var left := FreshAfter(s, order[..i], now);
    assert order[i] in s.Keys;
    assert order[i] !in order[..i] && order[..i + 1] == order[..i] + [order[i]];
    RemoveSize(left, order[i]);
  }

  class PropagationNode {
    var store: Store
    var limitBytes: Option<nat>
    var prioritised: set<Address>

    constructor (store: Store, limitBytes: Option<nat>, prioritised: set<Address>)
      ensures this.store == store && this.limitBytes == limitBytes && this.prioritised == prioritised
    {
      this.store, this.limitBytes, this.prioritised := store, limitBytes, prioritised;
    }

    /** The first pass: messages without a usable time stamp and messages past their expiry. */
    method RemoveStale(now: real) returns (removed: nat)
      modifies this`store
      ensures store == Fresh(old(store), now)
      ensures removed == |old(store)| - |store|
    {
      var order := Iterate(store);
      ghost var start := store;
      removed := 0;
      for i := 0 to |order|
        invariant store == FreshAfter(start, order[..i], now)
        invariant removed == |start| - |store|
      {
        assert order[..i + 1] == order[..i] + [order[i]];
        StaleStep(start, order, i, now);
        if Stale(store[order[i]], now) {
          store := store - {order[i]};
          removed := removed + 1;
        }
      }
      assert order[..|order|] == order;
    }

    method Measure() returns (total: nat)
      ensures total == Total(store)
    {
      total := 0;
      var left := store;
      while left != map[]
        invariant total + Total(left) == Total(store)
        decreases |left|
      {
        var id :| id in left;
        TotalRemove(left, id);
        total := total + |left[id].data|;
        assert (left - {id}).Keys == left.Keys - {id};
        left := left - {id};
      }
    }

    /** The table of weights, in iteration order. */
    method Weigh(now: real) returns (table: seq<Weighted>)
      requires forall id :: id in store ==> store[id].timestamp.Some?
      ensures Lists(store, Weights(store, now, prioritised), table)
    {
      var order := Iterate(store);
      table := [];
      for i := 0 to |order|
        invariant |table| == i
        invariant forall k :: 0 <= k < i ==>
          table[k] == Weighted(Weight(store[order[k]], now, prioritised), order[k], |store[order[k]].data|)
      {
        var id := order[i];
        table := table + [Weighted(Weight(store[id], now, prioritised), id, |store[id].data|)];
      }
      forall id | id in store
        ensures exists k :: 0 <= k < |table| && table[k].id == id
      {
        var k :| 0 <= k < |order| && order[k] == id;
        assert table[k].id == id;
      }
    }

    /** The second pass: rows of the sorted table until enough bytes are freed. */
    method Cull(now: real, limit: nat) returns (removed: nat)
      requires forall id :: id in store ==> store[id].timestamp.Some?
      modifies this`store
      ensures Culled(old(store), store, limit, Weights(old(store), now, prioritised))
      ensures removed == |old(store)| - |store|
    {
      removed := 0;
      var total := Measure();
      if total <= limit {
        return;
      }
      var listing := Weigh(now);
      removed := CullListed(listing, total - limit, limit, Weights(store, now, prioritised));
    }

    method CullListed(listing: seq<Weighted>, needed: nat, ghost limit: nat, ghost weights: map<Digest, real>)
      returns (removed: nat)
      requires Lists(store, weights, listing) && needed > 0 && needed + limit == Total(store)
      modifies this`store
      ensures Culled(old(store), store, limit, weights)
      ensures removed == |old(store)| - |store|
    {
      var table := Heaviest(listing);
      SortKeepsListing(store, weights, listing);
      WithoutAll(store, weights, table);
      removed := RemoveRows(table, needed, weights);
      WithoutSize(old(store), weights, table, removed);
      CulledPrefix(old(store), weights, table, removed, limit);
    }

    /** Rows from the top of the table until enough bytes are freed. */
    method RemoveRows(table: seq<Weighted>, needed: nat, ghost weights: map<Digest, real>) returns (removed: nat)
      requires Rows(store, weights, table) && 0 < needed <= Total(store)
      requires Total(Without(store, table, |table|)) == 0
      modifies this`store
      ensures 0 < removed <= |table| && store == Without(old(store), table, removed)
      ensures Total(store) + needed <= Total(old(store)) < Total(store) + needed + table[removed - 1].size
    {
      ghost var start := store;
      var cleaned := 0;
      removed := 0;
      while removed < |table| && cleaned < needed
        invariant 0 <= removed <= |table|
        invariant store == Without(start, table, removed)
        invariant cleaned + Total(store) == Total(start)
        invariant removed > 0 ==> cleaned < needed + table[removed - 1].size
      {
        RowRemoved(start, weights, table, removed);
        store := store - {table[removed].id};
        cleaned := cleaned + table[removed].size;
        removed := removed + 1;
      }
    }

    /** clean_propagation_store: afterwards nothing stale is left and the limit, if any, is met. */
    method CleanPropagationStore(now: real) returns (removed: nat)
      modifies this`store
      ensures removed == |old(store)| - |store|
      ensures limitBytes.None? ==> store == Fresh(old(store), now)
      ensures limitBytes.Some? ==> 
        Culled(Fresh(old(store), now), store, limitBytes.value, Weights(Fresh(old(store), now), now, prioritised))
    {
      removed := RemoveStale(now);
      if limitBytes.Some? {
        var culled := Cull(now, limitBytes.value);
        removed := removed + culled;
      }
    }
  }

  // ---------------------------------------------------------------------------------------------
  // Who goes first, in terms of the entries

  lemma Scaled(k: real, a: real, b: real)
    requires k > 0.0 && a < b
    ensures a * k < b * k
  {
  }

  /** If the lighter of two entries is culled, so is the heavier. */
  lemma HeavierCulledToo(current: Store, kept: Store, limit: nat, now: real, prioritised: set<Address>, x: Digest,
      y: Digest)
    requires forall id :: id in current ==> current[id].timestamp.Some?
    requires Culled(current, kept, limit, Weights(current, now, prioritised)) && x in current && y in current
    requires Weight(current[x], now, prioritised) < Weight(current[y], now, prioritised) && x !in kept
    ensures y !in kept
  {
  }

  lemma WeightIsProduct(e: Entry, now: real, prioritised: set<Address>, k: real, a: real, size: real) returns (w: real)
    requires e.timestamp.Some?
    requires k == PriorityWeight(e, prioritised) && a == AgeWeight(e, now) && size == |e.data| as real
    ensures w == Weight(e, now, prioritised) == (k * a) * size
  {
    w := Weight(e, now, prioritised);
  }

  lemma ProductLess(k: real, a: real, b: real, size: real, wa: real, wb: real)
    requires k > 0.0 && a < b && size > 0.0 && wa == (k * a) * size && wb == (k * b) * size
    ensures wa < wb
  {
    Scaled(k, a, b);
    Scaled(size, k * a, k * b);
  }

  lemma PrioritisedLighter(e: Entry, f: Entry, now: real, prioritised: set<Address>)
    requires e.timestamp.Some? && e.timestamp == f.timestamp && |e.data| == |f.data| >= 16
    requires e.data[..16] in prioritised && f.data[..16] !in prioritised
    ensures Weight(e, now, prioritised) < Weight(f, now, prioritised)
  {
    var age, size := AgeWeight(e, now), |e.data| as real;
    var we := WeightIsProduct(e, now, prioritised, 0.1, age, size);
    var wf := WeightIsProduct(f, now, prioritised, 1.0, age, size);
    ProductLess(age, 0.1, 1.0, size, we, wf);
  }

  /** Of two entries alike in size and time, the one that is not for a prioritised destination goes first. */
  lemma PrioritisedStaysLonger(current: Store, kept: Store, limit: nat, now: real, prioritised: set<Address>,
      x: Digest, y: Digest)
    requires forall id :: id in current ==> current[id].timestamp.Some?
    requires Culled(current, kept, limit, Weights(current, now, prioritised)) && x in current && y in current
    requires |current[x].data| == |current[y].data| >= 16 && current[x].timestamp == current[y].timestamp
    requires current[x].data[..16] in prioritised && current[y].data[..16] !in prioritised && x !in kept
    ensures y !in kept
  {
    PrioritisedLighter(current[x], current[y], now, prioritised);
    HeavierCulledToo(current, kept, limit, now, prioritised, x, y);
  }

  lemma YoungerLighter(e: Entry, f: Entry, now: real, prioritised: set<Address>)
    requires e.timestamp.Some? && f.timestamp.Some? && |e.data| == |f.data| > 0
    requires PriorityWeight(e, prioritised) == PriorityWeight(f, prioritised)
    requires e.timestamp.value > f.timestamp.value && now - f.timestamp.value > 345600.0
    ensures Weight(e, now, prioritised) < Weight(f, now, prioritised)
  {
    var k, a, b, size := PriorityWeight(e, prioritised), AgeWeight(e, now), AgeWeight(f, now), |e.data| as real;
    var wa := WeightIsProduct(e, now, prioritised, k, a, size);
    var wb := WeightIsProduct(f, now, prioritised, k, b, size);
    ProductLess(k, a, b, size, wa, wb);
  }

  /** Of two entries alike in priority and size, one of them older than four days, the older goes first. */
  lemma YoungerStaysLonger(current: Store, kept: Store, limit: nat, now: real, prioritised: set<Address>, x: Digest,
      y: Digest)
    requires forall id :: id in current ==> current[id].timestamp.Some?
    requires Culled(current, kept, limit, Weights(current, now, prioritised)) && x in current && y in current
    requires |current[x].data| == |current[y].data| > 0
    requires PriorityWeight(current[x], prioritised) == PriorityWeight(current[y], prioritised)
    requires current[x].timestamp.value > current[y].timestamp.value && now - current[y].timestamp.value > 345600.0
    requires x !in kept
    ensures y !in kept
  {
    YoungerLighter(current[x], current[y], now, prioritised);
    HeavierCulledToo(current, kept, limit, now, prioritised, x, y);
  }

  /** Of two entries alike in priority and at most four days old, the larger goes first. */
  lemma SmallerStaysLonger(current: Store, kept: Store, limit: nat, now: real, prioritised: set<Address>, x: Digest,
      y: Digest)
    requires forall id :: id in current ==> current[id].timestamp.Some?
    requires Culled(current, kept, limit, Weights(current, now, prioritised)) && x in current && y in current
    requires |current[x].data| < |current[y].data|
    requires PriorityWeight(current[x], prioritised) == PriorityWeight(current[y], prioritised)
    requires now - current[x].timestamp.value <= 345600.0 && now - current[y].timestamp.value <= 345600.0
    requires x !in kept
    ensures y !in kept
  {
    WeightOfFields(current[x], now, prioritised);
    WeightOfFields(current[y], now, prioritised);
    HeavierCulledToo(current, kept, limit, now, prioritised, x, y);
  }
}
