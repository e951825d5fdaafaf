/** lxmf-rs/src/rns/router.rs: the bounded memory of delivered message ids. */
module DeliveredCaches {
  import opened Common

  /** The last `max` entries of the history. */
  function Recent(history: seq<Digest>, max: nat): (r: seq<Digest>)
    ensures |r| <= max
  {
    if |history| <= max then history else history[|history| - max..]
  }

  /** The plain specification: an id is accepted unless it is among the last `max` accepted ones. */
  function Accept(history: seq<Digest>, max: nat, id: Digest): seq<Digest> {
    if id in Recent(history, max) then history else history + [id]
  }

  function AcceptAll(history: seq<Digest>, max: nat, ids: seq<Digest>): seq<Digest>
    decreases |ids|
  {
    if ids == [] then history else AcceptAll(Accept(history, max, ids[0]), max, ids[1..])
  }

  /** Two acceptances of the same id are more than `max` acceptances apart. */
  ghost predicate FarRepeats(history: seq<Digest>, max: nat) {
    forall i, j :: 0 <= i < j < |history| && history[i] == history[j] ==> j - i > max
  }

  lemma AcceptKeepsFar(history: seq<Digest>, max: nat, id: Digest)
    requires FarRepeats(history, max)
    ensures FarRepeats(Accept(history, max, id), max)
    ensures Distinct(Recent(history, max))
  {
    var n := |history|;
    assert forall i :: n - max <= i < n && i >= 0 ==> history[i] in Recent(history, max);
  }

  /** Over every run of deliveries the remembered ids are distinct and repeats stay far apart. */
  lemma {:induction false} HistoryInvariant(history: seq<Digest>, max: nat, ids: seq<Digest>)
    requires FarRepeats(history, max)
    ensures FarRepeats(AcceptAll(history, max, ids), max) && Distinct(Recent(AcceptAll(history, max, ids), max))
    decreases |ids|
  {
    if ids == [] {
      AcceptKeepsFar(history, max, seq(32, _ => 0));
    } else {
      AcceptKeepsFar(history, max, ids[0]);
      HistoryInvariant(Accept(history, max, ids[0]), max, ids[1..]);
    }
  }

  lemma HeadOnce(order: seq<Digest>)
    requires order != [] && Distinct(order)
    ensures Distinct(order[1..])
    ensures forall x :: x in order[1..] <==> x in order && x != order[0]
  {
    assert order == [order[0]] + order[1..];
    assert order[0] !in order[1..];
  }

  lemma RecentExtended(history: seq<Digest>, max: nat, id: Digest)
    requires FarRepeats(history, max) && id !in Recent(history, max)
    ensures Recent(Recent(history, max) + [id], max) == Recent(history + [id], max)
    ensures Distinct(Recent(history, max) + [id]) && FarRepeats(history + [id], max)
  {
    AcceptKeepsFar(history, max, id);
    AppendDistinct(Recent(history, max), id);
  }

  class DeliveredCache {
    const maxEntries: nat
    var order: seq<Digest>
    var seen: set<Digest>
    ghost var history: seq<Digest>

    ghost predicate Valid()
      reads this
    {
      && FarRepeats(history, maxEntries)
      && order == Recent(history, maxEntries)
      && Distinct(order)
      && (forall id :: id in seen <==> id in order)
    }

    constructor (maxEntries: nat)
      ensures Valid() && this.maxEntries == maxEntries && history == []
    {
      this.maxEntries := maxEntries;
      order, seen, history := [], {}, [];
    }

    method SeenBefore(id: Digest) returns (r: bool)
      requires Valid()
      ensures r <==> id in Recent(history, maxEntries)
    {
      r := id in seen;
    }

    method MarkDelivered(id: Digest) returns (r: bool)
      requires Valid()
      modifies this
      ensures Valid()
      ensures history == Accept(old(history), maxEntries, id)
      ensures r <==> history != old(history)
    {
      AcceptKeepsFar(history, maxEntries, id);
      if id in seen {
        return false;
      }
      RecentExtended(history, maxEntries, id);
      seen := seen + {id};
      order := order + [id];
      history := history + [id];
      Evict();
      return true;
    }

    /** The oldest ids go until no more than the maximum are left. */
    method Evict()
      requires Distinct(order) && forall x :: x in seen <==> x in order
      modifies this`order, this`seen
      ensures order == Recent(old(order), maxEntries)
      ensures Distinct(order) && forall x :: x in seen <==> x in order
    {
      while |order| > maxEntries
        invariant |order| <= |old(order)| && order == old(order)[|old(order)| - |order|..]
        invariant |order| < maxEntries ==> order == old(order)
        invariant Distinct(order) && forall x :: x in seen <==> x in order
        decreases |order|
      {
        var oldest := order[0];
        HeadOnce(order);
        order := order[1..];
        seen := seen - {oldest};
      }
    }

    method Len() returns (n: nat)
      requires Valid()
      ensures n == |Recent(history, maxEntries)| <= maxEntries
    {
      SizeOfDistinct(order, seen);
      n := |seen|;
    }
  }

  lemma {:induction false} SizeOfDistinct<T>(s: seq<T>, members: set<T>)
    requires Distinct(s) && forall x :: x in members <==> x in s
    ensures |members| == |s|
  {
    if s == [] {
      assert members == {};
    } else {
      assert s == [s[0]] + s[1..];
      SizeOfDistinct(s[1..], members - {s[0]});
    }
  }
}
