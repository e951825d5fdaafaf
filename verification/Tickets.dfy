/** lxmf-rs/src/rns/router.rs: tickets that let a correspondent skip proof of work. */
module Tickets {
  import opened Common

  type Ticket = seq<byte>

  const DAY: real := 86400.0
  const TICKET_EXPIRY: real := 21.0 * DAY
  const TICKET_GRACE: real := 5.0 * DAY
  const TICKET_RENEW: real := 14.0 * DAY
  const TICKET_INTERVAL: real := 1.0 * DAY

  datatype Entry = Entry(expiresAt: real, ticket: Ticket)

  datatype Store = Store(
    outbound: map<Address, Entry>,
    inbound: map<Address, map<Ticket, real>>,
    lastDeliveries: map<Address, real>)

  function Seconds(nowMs: nat): real {
    nowMs as real / 1000.0
  }

  function InboundOf(s: Store, dest: Address): map<Ticket, real> {
    if dest in s.inbound then s.inbound[dest] else map[]
  }

  /** The first ticket, in table order, with more than the renewal period left. */
  function Reusable(order: seq<Ticket>, tickets: map<Ticket, real>, now: real): (r: Option<Ticket>)
    requires forall t :: t in order ==> t in tickets
    ensures r.Some? ==> r.value in tickets && tickets[r.value] - now > TICKET_RENEW
  {
    if order == [] then None
    else if tickets[order[0]] - now > TICKET_RENEW then Some(order[0])
    else Reusable(order[1..], tickets, now)
  }

  /** `order` is the iteration order of the table, `random` the bytes drawn for a new ticket, `expiry` its lifetime. */
  function Generate(s: Store, dest: Address, nowMs: nat, order: seq<Ticket>, random: Ticket, expiry: real)
    : (Store, Option<Entry>)
    requires forall t :: t in order <==> t in InboundOf(s, dest)
  {
    var now := Seconds(nowMs);
    if dest in s.lastDeliveries && now - s.lastDeliveries[dest] < TICKET_INTERVAL then (s, None) else
    var tickets := InboundOf(s, dest);
    var reuse := Reusable(order, tickets, now);
    if reuse.Some? then (s, Some(Entry(tickets[reuse.value], reuse.value))) else
    var expires := now + expiry;
    (s.(inbound := s.inbound[dest := tickets[random := expires]]), Some(Entry(expires, random)))
  }

  /** A ticket is refused iff one was delivered to the destination less than a day ago. */
  lemma RefusedIff(s: Store, dest: Address, nowMs: nat, order: seq<Ticket>, random: Ticket, expiry: real,
      deliveredMs: nat)
    requires forall t :: t in order <==> t in InboundOf(s, dest)
    requires dest in s.lastDeliveries ==> s.lastDeliveries[dest] == Seconds(deliveredMs)
    ensures Generate(s, dest, nowMs, order, random, expiry).1.None?
            <==> dest in s.lastDeliveries && nowMs - deliveredMs < 86_400_000
    ensures Generate(s, dest, nowMs, order, random, expiry).1.None? ==>
              Generate(s, dest, nowMs, order, random, expiry).0 == s
  {
  }

  /** A new ticket is made iff none has more than fourteen days left; else one of those is given again. */
  lemma RenewedIff(s: Store, dest: Address, nowMs: nat, order: seq<Ticket>, random: Ticket, expiry: real)
    requires forall t :: t in order <==> t in InboundOf(s, dest)
    requires Generate(s, dest, nowMs, order, random, expiry).1.Some?
    ensures var (z, e) := Generate(s, dest, nowMs, order, random, expiry);
            var known := InboundOf(s, dest);
            var now := nowMs as real / 1000.0;
            && (if exists t :: t in known && known[t] - now > 1209600.0
                then z == s && e.value.ticket in known && known[e.value.ticket] == e.value.expiresAt
                     && e.value.expiresAt - now > 1209600.0
                else e.value == Entry(now + expiry, random) && InboundOf(z, dest) == known[random := now + expiry])
            && (forall d :: d != dest ==> InboundOf(z, d) == InboundOf(s, d))
  {
    ReusableSound(order, InboundOf(s, dest), Seconds(nowMs));
  }

  /** A cleanup keeps exactly the unexpired outbound tickets, and the inbound ones up to five days past their expiry. */
  lemma CleanedIff(s: Store, nowMs: nat, dest: Address, ticket: Ticket)
    ensures var now := nowMs as real / 1000.0;
            && (dest in Clean(s, nowMs).outbound <==> dest in s.outbound && s.outbound[dest].expiresAt > now)
            && (ticket in InboundOf(Clean(s, nowMs), dest) <==>
                  ticket in InboundOf(s, dest) && now - InboundOf(s, dest)[ticket] <= 432000.0)
            && Clean(s, nowMs).lastDeliveries == s.lastDeliveries
  {
  }

  function Clean(s: Store, nowMs: nat): Store {
    var now := Seconds(nowMs);
    s.(outbound := map d | d in s.outbound && s.outbound[d].expiresAt > now :: s.outbound[d],
       inbound := map d | d in s.inbound ::
         map t | t in s.inbound[d] && now <= s.inbound[d][t] + TICKET_GRACE :: s.inbound[d][t])
  }

  datatype Event =
    | Issue(dest: Address, nowMs: nat, order: seq<Ticket>, random: Ticket)
    | Remember(dest: Address, entry: Entry, nowMs: nat)
    | Delivered(dest: Address, nowMs: nat)
    | Cleanup(nowMs: nat)

  ghost predicate Enabled(s: Store, e: Event) {
    e.Issue? ==> forall t :: t in e.order <==> t in InboundOf(s, e.dest)
  }

  ghost function Step(s: Store, e: Event): (Store, Option<Entry>)
    requires Enabled(s, e)
  {
    match e
    case Issue(dest, nowMs, order, random) => Generate(s, dest, nowMs, order, random, TICKET_EXPIRY)
    case Remember(dest, entry, _) => (s.(outbound := s.outbound[dest := entry]), None)
    case Delivered(dest, nowMs) => (s.(lastDeliveries := s.lastDeliveries[dest := Seconds(nowMs)]), None)
    case Cleanup(nowMs) => (Clean(s, nowMs), None)
  }

  // ---------------------------------------------------------------------------------------------
  // Spacing

  ghost predicate Apart(x: real, y: real) {
    x - y >= TICKET_EXPIRY - TICKET_RENEW || y - x >= TICKET_EXPIRY - TICKET_RENEW
  }

  /** No ticket outlives a full period from now, and any two expire at least seven days apart. */
  ghost predicate Spaced(tickets: map<Ticket, real>, now: real) {
    && (forall t :: t in tickets ==> tickets[t] <= now + TICKET_EXPIRY)
    && (forall t, u :: t in tickets && u in tickets && t != u ==> Apart(tickets[t], tickets[u]))
  }

  ghost predicate Invariant(s: Store, nowMs: nat) {
    forall d :: d in s.inbound ==> Spaced(s.inbound[d], Seconds(nowMs))
  }

  lemma {:induction false} ReusableSound(order: seq<Ticket>, tickets: map<Ticket, real>, now: real)
    requires forall t :: t in order ==> t in tickets
    ensures var r := Reusable(order, tickets, now);
            r.None? ==> forall t :: t in order ==> tickets[t] - now <= TICKET_RENEW
  {
    if order != [] {
      ReusableSound(order[1..], tickets, now);
    }
  }

  /** Every ticket that is handed out, new ones being given more, is still good for more than the renewal period. */
  lemma IssuedHasTimeLeft(s: Store, dest: Address, nowMs: nat, order: seq<Ticket>, random: Ticket, expiry: real)
    requires forall t :: t in order <==> t in InboundOf(s, dest)
    ensures var (s1, e) := Generate(s, dest, nowMs, order, random, expiry);
            e.Some? ==>
              && (expiry > TICKET_RENEW ==> e.value.expiresAt - Seconds(nowMs) > TICKET_RENEW)
              && e.value.ticket in InboundOf(s1, dest) && InboundOf(s1, dest)[e.value.ticket] == e.value.expiresAt
  {
    ReusableSound(order, InboundOf(s, dest), Seconds(nowMs));
  }

  lemma StepKeepsInvariant(s: Store, e: Event, beforeMs: nat)
    requires Enabled(s, e) && beforeMs <= e.nowMs && Invariant(s, beforeMs)
    ensures Invariant(Step(s, e).0, e.nowMs)
  {
    assert Invariant(s, e.nowMs);
    if e.Issue? {
      ReusableSound(e.order, InboundOf(s, e.dest), Seconds(e.nowMs));
    }
  }

  /** The clock never goes back, and each Issue sees the table in some order. */
  ghost predicate LegalRun(s: Store, beforeMs: nat, events: seq<Event>)
    decreases |events|
  {
    events == [] || (Enabled(s, events[0]) && beforeMs <= events[0].nowMs
                     && LegalRun(Step(s, events[0]).0, events[0].nowMs, events[1..]))
  }

  ghost function RunEnd(s: Store, beforeMs: nat, events: seq<Event>): (Store, nat)
    requires LegalRun(s, beforeMs, events)
    decreases |events|
  {
    if events == [] then (s, beforeMs) else RunEnd(Step(s, events[0]).0, events[0].nowMs, events[1..])
  }

  lemma {:induction false} RunKeepsInvariant(s: Store, beforeMs: nat, events: seq<Event>)
    requires LegalRun(s, beforeMs, events) && Invariant(s, beforeMs)
    ensures var (s1, nowMs) := RunEnd(s, beforeMs, events); Invariant(s1, nowMs)
    decreases |events|
  {
    if events != [] {
      StepKeepsInvariant(s, events[0], beforeMs);
      RunKeepsInvariant(Step(s, events[0]).0, events[0].nowMs, events[1..]);
    }
  }

  // ---------------------------------------------------------------------------------------------
  // Counting

  function Span(k: nat, gap: real): real {
    if k == 0 then 0.0 else Span(k - 1, gap) + gap
  }

  /** At most k points at least `gap` apart fit in a half-open interval of k times that length. */
  lemma {:induction false} Packing(ts: set<Ticket>, tickets: map<Ticket, real>, lo: real, k: nat, gap: real)
    requires gap > 0.0
    requires forall t :: t in ts ==> t in tickets && lo < tickets[t] <= lo + Span(k, gap)
    requires forall t, u :: t in ts && u in ts && t != u ==>
        tickets[t] - tickets[u] >= gap || tickets[u] - tickets[t] >= gap
    ensures |ts| <= k
  {
    if k == 0 {
      assert ts == {};
    } else {
      var limit := lo + Span(k - 1, gap);
      var top := set t | t in ts && tickets[t] > limit;
      AtMostOneOnTop(ts, top, tickets, limit, gap);
      Packing(ts - top, tickets, lo, k - 1, gap);
      SplitSize(ts, top);
    }
  }

  lemma SplitSize(ts: set<Ticket>, top: set<Ticket>)
    requires top <= ts
    ensures |ts| == |ts - top| + |top|
  {
    assert ts == (ts - top) + top;
  }

  lemma AtMostOneOnTop(ts: set<Ticket>, top: set<Ticket>, tickets: map<Ticket, real>, limit: real, gap: real)
    requires top <= ts
    requires forall t :: t in ts ==> t in tickets && tickets[t] <= limit + gap
    requires forall t :: t in top ==> tickets[t] > limit
    requires forall t, u :: t in ts && u in ts && t != u ==>
        tickets[t] - tickets[u] >= gap || tickets[u] - tickets[t] >= gap
    ensures |top| <= 1
  {
    if top != {} {
      var t :| t in top;
      assert forall u :: u in top ==> u == t;
      assert top == {t};
    }
  }

  ghost function ValidTickets(tickets: map<Ticket, real>, now: real): set<Ticket> {
    set t | t in tickets && tickets[t] > now
  }

  lemma AtMostThreeValid(tickets: map<Ticket, real>, now: real)
    requires Spaced(tickets, now)
    ensures |ValidTickets(tickets, now)| <= 3
  {
    var gap := TICKET_EXPIRY - TICKET_RENEW;
    assert Span(1, gap) == gap;
    assert Span(2, gap) == Span(1, gap) + gap;
    assert Span(3, gap) == Span(2, gap) + gap;
    Packing(ValidTickets(tickets, now), tickets, now, 3, gap);
  }

  lemma AtMostFourKept(tickets: map<Ticket, real>, now: real)
    requires Spaced(tickets, now) && forall t :: t in tickets ==> now <= tickets[t] + TICKET_GRACE
    ensures |tickets| <= 4
  {
    var gap := TICKET_EXPIRY - TICKET_RENEW;
    assert Span(1, gap) == gap;
    assert Span(2, gap) == Span(1, gap) + gap;
    assert Span(3, gap) == Span(2, gap) + gap;
    assert Span(4, gap) == Span(3, gap) + gap;
    Packing(tickets.Keys, tickets, now - 7.0 * DAY, 4, gap);
    assert |tickets.Keys| == |tickets|;
  }

  /**
   * Over every run from an empty store, for every destination: at most three tickets are valid, and
   * after a cleanup at most four are kept.
   */
  lemma TicketBounds(startMs: nat, events: seq<Event>, dest: Address, cleanMs: nat)
    requires LegalRun(Store(map[], map[], map[]), startMs, events)
    requires RunEnd(Store(map[], map[], map[]), startMs, events).1 <= cleanMs
    ensures var (s, nowMs) := RunEnd(Store(map[], map[], map[]), startMs, events);
            && |ValidTickets(InboundOf(s, dest), Seconds(nowMs))| <= 3
            && |InboundOf(Clean(s, cleanMs), dest)| <= 4
  {
    RunKeepsInvariant(Store(map[], map[], map[]), startMs, events);
    var (s, nowMs) := RunEnd(Store(map[], map[], map[]), startMs, events);
    AtMostThreeValid(InboundOf(s, dest), Seconds(nowMs));
    StepKeepsInvariant(s, Cleanup(cleanMs), nowMs);
    AtMostFourKept(InboundOf(Clean(s, cleanMs), dest), Seconds(cleanMs));
  }

  // ---------------------------------------------------------------------------------------------
  // The store itself

  class TicketStore {
    var state: Store

    constructor ()
      ensures state == Store(map[], map[], map[])
    {
      state := Store(map[], map[], map[]);
    }

    method GenerateTicket(dest: Address, nowMs: nat, order: seq<Ticket>, random: Ticket, expiry: real)
      returns (e: Option<Entry>)
      requires Enumerates(order, InboundOf(state, dest).Keys)
      modifies this
      ensures (state, e) == Generate(old(state), dest, nowMs, order, random, expiry)
    {
      var now := Seconds(nowMs);
      if dest in state.lastDeliveries {
        if now - state.lastDeliveries[dest] < TICKET_INTERVAL {
          return None;
        }
      }
      var tickets := InboundOf(state, dest);
      for i := 0 to |order|
        invariant Reusable(order, tickets, now) == Reusable(order[i..], tickets, now)
      {
        assert order[i..][0] == order[i] && order[i..][1..] == order[i + 1..];
        if tickets[order[i]] - now > TICKET_RENEW {
          return Some(Entry(tickets[order[i]], order[i]));
        }
      }
      assert order[|order|..] == [];
      var expires := now + expiry;
      state := state.(inbound := state.inbound[dest := tickets[random := expires]]);
      return Some(Entry(expires, random));
    }

    method GetInboundTickets(dest: Address, nowMs: nat, order: seq<Ticket>) returns (r: Option<seq<Ticket>>)
      requires Enumerates(order, InboundOf(state, dest).Keys)
      ensures r.None? <==> ValidTickets(InboundOf(state, dest), Seconds(nowMs)) == {}
      ensures r.Some? ==> Enumerates(r.value, ValidTickets(InboundOf(state, dest), Seconds(nowMs)))
    {
      var now := Seconds(nowMs);
      var known := InboundOf(state, dest);
      var tickets: seq<Ticket> := [];
      for i := 0 to |order|
        invariant forall t :: t in tickets <==> t in order[..i] && known[t] > now
        invariant Distinct(tickets)
      {
        if known[order[i]] > now {
          tickets := tickets + [order[i]];
        }
      }
      assert order[..|order|] == order;
      if tickets == [] {
        return None;
      }
      assert tickets[0] in ValidTickets(known, now);
      return Some(tickets);
    }
  }
}
