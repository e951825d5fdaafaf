/**
 * lxmf-rs/src/rns/router.rs: the outbound queue of RnsRouter with its retries, its persisted copy, the
 * deliveries in flight, and the loop of LxmfRuntime::tick that drains the queue.
 */
module Outbound {
  import opened Common
  import opened BigEndian

  const U64_MAX: nat := 0xFFFF_FFFF_FFFF_FFFF

  datatype MessageState = Generating | OutboundState | Sending | SentState | DeliveredState | FailedState
  datatype Message = Message(state: MessageState, content: seq<byte>)

  datatype Queued = Queued(id: nat, message: Message, attempts: nat, nextAttemptMs: nat)
  datatype Inflight = Inflight(message: Message, sentAtMs: nat, timeoutMs: nat)
  datatype Failure = Failure(id: nat, message: Message, attempts: nat)

  /** Any result of RnsOutbound::deliver, which may also rewrite the message it is given. */
  datatype Verdict = Success | PolicyViolation | OtherError
  datatype Outcome = Outcome(verdict: Verdict, content: seq<byte>)

  datatype Policy = Policy(maxAttempts: nat, baseDelayMs: nat, maxDelayMs: nat)

  /**
   * The router, plus what the caller was told: ids it was handed and has not yet reported on, ids it
   * reported delivered, and ids that ever failed. `store` is the persisted outbound directory.
   */
  datatype Router = Router(
    nextId: nat,
    outbound: seq<Queued>,
    inflight: map<nat, Inflight>,
    failed: seq<Failure>,
    store: map<nat, Queued>,
    handed: set<nat>,
    delivered: set<nat>,
    failedIds: set<nat>)

  function Saturated(x: nat): nat {
    if x > U64_MAX then U64_MAX else x
  }

  function RetryDelay(p: Policy, attempt: nat): (d: nat)
    ensures d <= p.maxDelayMs
  {
    var k := if attempt == 0 then 0 else attempt - 1;
    var delay := Saturated(p.baseDelayMs * Pow2(if k < 20 then k else 20));
    if delay < p.maxDelayMs then delay else p.maxDelayMs
  }

  predicate HeadDue(r: Router, nowMs: nat) {
    r.outbound != [] && nowMs >= r.outbound[0].nextAttemptMs
  }

  function Enqueue(r: Router, content: seq<byte>): Router {
    var item := Queued(r.nextId, Message(OutboundState, content), 0, 0);
    r.(nextId := r.nextId + 1, store := r.store[item.id := item], outbound := r.outbound + [item])
  }

  datatype Report = Handed(id: nat, message: Message) | Errored(verdict: Verdict) | Nothing

  /** next_delivery_with_retry, given what the transport answers. */
  function Next(p: Policy, r: Router, nowMs: nat, o: Outcome): (Router, Report) {
    if !HeadDue(r, nowMs) then (r, Nothing) else
    var item := r.outbound[0].(attempts := r.outbound[0].attempts + 1, message := Message(Sending, o.content));
    var rest := r.(outbound := r.outbound[1..]);
    if o.verdict.Success? then
      (rest.(store := r.store - {item.id}, handed := r.handed + {item.id}),
       Handed(item.id, item.message.(state := SentState)))
    else if o.verdict.OtherError? && item.attempts < p.maxAttempts then
      var again := item.(nextAttemptMs := Saturated(nowMs + RetryDelay(p, item.attempts)));
      (rest.(store := r.store[item.id := again], outbound := rest.outbound + [again]), Errored(o.verdict))
    else
      var failure := Failure(item.id, item.message.(state := FailedState), item.attempts);
      (rest.(store := r.store - {item.id}, failed := r.failed + [failure], failedIds := r.failedIds + {item.id}),
       Errored(o.verdict))
  }

  function MarkInflight(r: Router, id: nat, message: Message, sentAtMs: nat, timeoutMs: nat): Router {
    r.(inflight := r.inflight[id := Inflight(message.(state := SentState), sentAtMs, timeoutMs)],
        handed := r.handed - {id})
  }

  function MarkDelivered(r: Router, id: nat): Router {
    if id !in r.inflight then r else r.(inflight := r.inflight - {id}, delivered := r.delivered + {id})
  }

  function MarkFailed(r: Router, id: nat, attempts: nat): Router {
    if id !in r.inflight then r else
    r.(inflight := r.inflight - {id},
       failed := r.failed + [Failure(id, r.inflight[id].message.(state := FailedState), attempts)],
       failedIds := r.failedIds + {id})
  }

  predicate Expired(i: Inflight, nowMs: nat) {
    (if nowMs >= i.sentAtMs then nowMs - i.sentAtMs else 0) >= i.timeoutMs
  }

  /** The ids of a listing that have expired, in its order. */
  function ExpiredOf(inflight: map<nat, Inflight>, nowMs: nat, order: seq<nat>): seq<nat> {
    if order == [] then [] else
    var id := order[|order| - 1];
    ExpiredOf(inflight, nowMs, order[..|order| - 1])
    + (if id in inflight && Expired(inflight[id], nowMs) then [id] else [])
  }

  lemma {:induction false} ExpiredMembers(inflight: map<nat, Inflight>, nowMs: nat, order: seq<nat>)
    requires Distinct(order)
    ensures Distinct(ExpiredOf(inflight, nowMs, order))
    ensures forall id :: id in ExpiredOf(inflight, nowMs, order) <==>
                           id in order && id in inflight && Expired(inflight[id], nowMs)
  {
    if order != [] {
      var m := |order| - 1;
      ExpiredMembers(inflight, nowMs, order[..m]);
      assert order == order[..m] + [order[m]] && order[m] !in order[..m];
    }
  }

  /** The expired ids, in table order, fail one after the other. */
  function FailAll(r: Router, expired: seq<nat>): Router {
    if expired == [] then r else MarkFailed(FailAll(r, expired[..|expired| - 1]), expired[|expired| - 1], 0)
  }

  datatype Event =
    | EnqueueEvent(content: seq<byte>)
    | NextEvent(nowMs: nat, outcome: Outcome)
    | InflightEvent(id: nat, message: Message, sentAtMs: nat, timeoutMs: nat)
    | DeliveredEvent(id: nat)
    | FailedEvent(id: nat, attempts: nat)
    | PollEvent(expired: seq<nat>)
    | PopFailedEvent

  /** The caller marks a delivery in flight at most once after it was handed over. */
  predicate Enabled(r: Router, e: Event) {
    e.InflightEvent? ==> e.id in r.handed
  }

  function Step(p: Policy, r: Router, e: Event): Router {
    match e
    case EnqueueEvent(content) => Enqueue(r, content)
    case NextEvent(nowMs, o) => Next(p, r, nowMs, o).0
    case InflightEvent(id, m, sentAt, timeout) => MarkInflight(r, id, m, sentAt, timeout)
    case DeliveredEvent(id) => MarkDelivered(r, id)
    case FailedEvent(id, attempts) => MarkFailed(r, id, attempts)
    case PollEvent(expired) => FailAll(r, expired)
    case PopFailedEvent => if r.failed == [] then r else r.(failed := r.failed[1..])
  }

  // ---------------------------------------------------------------------------------------------
  // Conservation

  function Occurrences(q: seq<Queued>, id: nat): nat {
    if q == [] then 0 else Occurrences(q[1..], id) + (if q[0].id == id then 1 else 0)
  }

  lemma {:induction false} OccurrencesAppend(q: seq<Queued>, x: Queued, id: nat)
    ensures Occurrences(q + [x], id) == Occurrences(q, id) + (if x.id == id then 1 else 0)
  {
    if q == [] {
      assert [x][1..] == [];
      assert q + [x] == [x];
    } else {
      assert (q + [x])[1..] == q[1..] + [x];
      OccurrencesAppend(q[1..], x, id);
    }
  }

  lemma {:induction false} OccursIffQueued(q: seq<Queued>, id: nat)
    ensures Occurrences(q, id) > 0 <==> exists i :: 0 <= i < |q| && q[i].id == id
  {
    if q != [] {
      if i :| 0 <= i < |q[1..]| && q[1..][i].id == id {
        assert q[i + 1].id == id;
      }
      if i :| 0 <= i < |q| && q[i].id == id {
        assert i > 0 ==> q[1..][i - 1].id == id;
      }
      OccursIffQueued(q[1..], id);
    }
  }

  function One(b: bool): nat {
    if b then 1 else 0
  }

  /** In how many places an id is to be found. */
  function Places(r: Router, id: nat): nat {
    Occurrences(r.outbound, id) + One(id in r.handed) + One(id in r.inflight) + One(id in r.delivered)
        + One(id in r.failedIds)
  }

  /** Every issued id is in exactly one place, and no other id is anywhere. */
  ghost predicate Conserved(r: Router) {
    forall id: nat :: Places(r, id) == One(1 <= id < r.nextId)
  }

  /** The persisted outbound records are the queued items, field by field. */
  ghost predicate Persisted(r: Router) {
    && (forall i :: 0 <= i < |r.outbound| ==> r.outbound[i].id in r.store && r.store[r.outbound[i].id] == r.outbound[i])
    && (forall id :: id in r.store ==> Occurrences(r.outbound, id) > 0)
  }

  function Limit(p: Policy): nat {
    if p.maxAttempts > 1 then p.maxAttempts else 1
  }

  /** Whatever still waits has attempts left. */
  ghost predicate WithinAttempts(p: Policy, r: Router) {
    forall i :: 0 <= i < |r.outbound| ==> r.outbound[i].attempts < Limit(p)
  }

  ghost predicate Invariant(p: Policy, r: Router) {
    r.nextId >= 1 && Conserved(r) && Persisted(r) && WithinAttempts(p, r)
  }

  lemma EnqueueKeeps(p: Policy, r: Router, content: seq<byte>)
    requires Invariant(p, r)
    ensures Invariant(p, Enqueue(r, content))
  {
    var r1 := Enqueue(r, content);
    forall id: nat
      ensures Places(r1, id) == One(1 <= id < r1.nextId)
      ensures Occurrences(r1.outbound, id) == Occurrences(r.outbound, id) + One(id == r.nextId)
    {
      OccurrencesAppend(r.outbound, r1.outbound[|r.outbound|], id);
      assert Places(r, id) == One(1 <= id < r.nextId);
    }
    NewIdNotQueued(r);
  }

  lemma NewIdNotQueued(r: Router)
    requires Conserved(r)
    ensures forall i :: 0 <= i < |r.outbound| ==> r.outbound[i].id != r.nextId
  {
    assert Places(r, r.nextId) == One(1 <= r.nextId < r.nextId);
    OccursIffQueued(r.outbound, r.nextId);
  }

  /** The head of the queue is nowhere else in it. */
  lemma HeadIsUnique(r: Router)
    requires Conserved(r) && r.outbound != []
    ensures var id := r.outbound[0].id;
            && Occurrences(r.outbound[1..], id) == 0 && 1 <= id < r.nextId
            && (forall i :: 1 <= i < |r.outbound| ==> r.outbound[i].id != id)
  {
    var id := r.outbound[0].id;
    assert Places(r, id) == One(1 <= id < r.nextId);
    OccursIffQueued(r.outbound[1..], id);
    forall i | 1 <= i < |r.outbound|
      ensures r.outbound[i].id != id
    {
      assert r.outbound[1..][i - 1] == r.outbound[i];
    }
  }

  lemma NextKeepsPlaces(p: Policy, r: Router, nowMs: nat, o: Outcome)
    requires Conserved(r)
    ensures Conserved(Next(p, r, nowMs, o).0)
    ensures HeadDue(r, nowMs) ==> forall id :: id != r.outbound[0].id ==>
              Occurrences(Next(p, r, nowMs, o).0.outbound, id) == Occurrences(r.outbound, id)
  {
    if HeadDue(r, nowMs) {
      var r1 := Next(p, r, nowMs, o).0;
      var rest := r.outbound[1..];
      HeadIsUnique(r);
      forall id: nat
        ensures Places(r1, id) == One(1 <= id < r1.nextId)
        ensures id != r.outbound[0].id ==> Occurrences(r1.outbound, id) == Occurrences(r.outbound, id)
      {
        assert Places(r, id) == One(1 <= id < r.nextId);
        if r1.outbound != rest {
          OccurrencesAppend(rest, r1.outbound[|rest|], id);
        }
      }
    }
  }

  lemma NextKeeps(p: Policy, r: Router, nowMs: nat, o: Outcome)
    requires Invariant(p, r)
    ensures Invariant(p, Next(p, r, nowMs, o).0)
  {
    NextKeepsPlaces(p, r, nowMs, o);
    if HeadDue(r, nowMs) {
      var r1 := Next(p, r, nowMs, o).0;
      HeadIsUnique(r);
      var head := r.outbound[0].id;
      forall id | id in r1.store
        ensures Occurrences(r1.outbound, id) > 0
      {
        if id == head {
          OccurrencesAppend(r.outbound[1..], r1.outbound[|r.outbound| - 1], id);
        }
      }
      forall i | 0 <= i < |r1.outbound|
        ensures r1.outbound[i].id in r1.store && r1.store[r1.outbound[i].id] == r1.outbound[i]
        ensures r1.outbound[i].attempts < Limit(p)
      {
        if i < |r.outbound| - 1 {
          assert r1.outbound[i] == r.outbound[i + 1];
        }
      }
    }
  }

  lemma MovesKeep(p: Policy, r: Router, e: Event)
    requires Invariant(p, r) && Enabled(r, e)
    requires e.InflightEvent? || e.DeliveredEvent? || e.FailedEvent? || e.PopFailedEvent?
    ensures Invariant(p, Step(p, r, e))
  {
    var r1 := Step(p, r, e);
    forall id: nat
      ensures Places(r1, id) == One(1 <= id < r1.nextId)
    {
      assert Places(r, id) == One(1 <= id < r.nextId);
    }
  }

  lemma {:induction false} FailAllKeeps(p: Policy, r: Router, expired: seq<nat>)
    requires Invariant(p, r)
    ensures Invariant(p, FailAll(r, expired))
    decreases |expired|
  {
    if expired != [] {
      var m := |expired| - 1;
      FailAllKeeps(p, r, expired[..m]);
      MovesKeep(p, FailAll(r, expired[..m]), FailedEvent(expired[m], 0));
    }
  }

  lemma StepKeeps(p: Policy, r: Router, e: Event)
    requires Invariant(p, r) && Enabled(r, e)
    ensures Invariant(p, Step(p, r, e))
  {
    match e
    case EnqueueEvent(content) => EnqueueKeeps(p, r, content);
    case NextEvent(nowMs, o) => NextKeeps(p, r, nowMs, o);
    case PollEvent(expired) => FailAllKeeps(p, r, expired);
    case _ => MovesKeep(p, r, e);
  }

  ghost predicate LegalRun(p: Policy, r: Router, events: seq<Event>)
    decreases |events|
  {
    events == [] || (Enabled(r, events[0]) && LegalRun(p, Step(p, r, events[0]), events[1..]))
  }

  function Run(p: Policy, r: Router, events: seq<Event>): Router
    decreases |events|
  {
    if events == [] then r else Run(p, Step(p, r, events[0]), events[1..])
  }

  const Initial: Router := Router(1, [], map[], [], map[], {}, {}, {})

  /**
   * Over every run of the router: each issued id is in exactly one of queue, caller's hands, in flight,
   * delivered or failed; the persisted records are exactly the queue; and no item waits without
   * attempts left.
   */
  lemma {:induction false} RunKeeps(p: Policy, r: Router, events: seq<Event>)
    requires Invariant(p, r) && LegalRun(p, r, events)
    ensures Invariant(p, Run(p, r, events))
    decreases |events|
  {
    if events != [] {
      StepKeeps(p, r, events[0]);
      RunKeeps(p, Step(p, r, events[0]), events[1..]);
    }
  }

  lemma InitialInvariant(p: Policy)
    ensures Invariant(p, Initial)
  {
  }

  /** A delivery that an attempt gives up on was tried at least once, and never more often than the policy allows. */
  lemma AttemptsBounded(p: Policy, r: Router, nowMs: nat, o: Outcome)
    requires Invariant(p, r) && HeadDue(r, nowMs)
    ensures var r1 := Next(p, r, nowMs, o).0;
            |r1.failed| > |r.failed| ==> 1 <= r1.failed[|r.failed|].attempts <= Limit(p)
  {
    assert r.outbound[0].attempts < Limit(p);
  }

  // ---------------------------------------------------------------------------------------------
  // What an attempt decides

  predicate IsQueued(r: Router, id: nat) {
    exists i :: 0 <= i < |r.outbound| && r.outbound[i].id == id
  }

  /** An error that is not a violation of policy, with attempts left after this one. */
  predicate WorthRetrying(p: Policy, item: Queued, o: Outcome) {
    o.verdict == OtherError && item.attempts + 1 < p.maxAttempts
  }

  /** After an attempt the item is in the queue iff it is worth retrying; elsewhere, it was handed out or has failed. */
  lemma AttemptDecides(p: Policy, r: Router, nowMs: nat, o: Outcome)
    requires Invariant(p, r) && HeadDue(r, nowMs)
    ensures var item, z := r.outbound[0], Next(p, r, nowMs, o).0;
            && (IsQueued(z, item.id) <==> WorthRetrying(p, item, o))
            && (item.id in z.store <==> WorthRetrying(p, item, o))
            && (item.id in z.handed <==> o.verdict == Success)
            && (item.id in z.failedIds <==> o.verdict != Success && !WorthRetrying(p, item, o))
            && (|z.failed| > |r.failed| <==> o.verdict != Success && !WorthRetrying(p, item, o))
  {
    var item, z := r.outbound[0], Next(p, r, nowMs, o).0;
    HeadIsUnique(r);
    assert Places(r, item.id) == 1 && Occurrences(r.outbound, item.id) == 1;
    if WorthRetrying(p, item, o) {
      assert z.outbound[|z.outbound| - 1].id == item.id;
    } else {
      assert z.outbound == r.outbound[1..];
      OccursIffQueued(z.outbound, item.id);
    }
  }

  /** In particular a violation of policy is never tried again. */
  lemma ViolationNotRetried(p: Policy, r: Router, nowMs: nat, content: seq<byte>)
    requires Invariant(p, r) && HeadDue(r, nowMs)
    ensures var z := Next(p, r, nowMs, Outcome(PolicyViolation, content)).0;
            !IsQueued(z, r.outbound[0].id) && r.outbound[0].id !in z.store && r.outbound[0].id in z.failedIds
  {
    AttemptDecides(p, r, nowMs, Outcome(PolicyViolation, content));
  }

  function Least(x: nat, y: nat): nat {
    if x < y then x else y
  }

  /**
   * What is tried again goes to the back of the queue, one attempt older, with what the transport made of its
   * content; its time is now plus base * 2^(attempts - 1), the exponent at most 20, within the maximum delay.
   */
  lemma RetryScheduled(p: Policy, r: Router, nowMs: nat, o: Outcome)
    requires HeadDue(r, nowMs) && WorthRetrying(p, r.outbound[0], o)
    ensures var item, z := r.outbound[0], Next(p, r, nowMs, o).0;
            && |z.outbound| == |r.outbound| && z.outbound[..|r.outbound| - 1] == r.outbound[1..]
            && var again := z.outbound[|r.outbound| - 1];
               && again.id == item.id && again.attempts == item.attempts + 1
               && again.message == Message(Sending, o.content)
               && again.nextAttemptMs == Least(0xFFFF_FFFF_FFFF_FFFF, nowMs + Least(p.maxDelayMs,
                    Least(0xFFFF_FFFF_FFFF_FFFF, p.baseDelayMs * Pow2(Least(item.attempts, 20)))))
               && z.store == r.store[item.id := again]
  {
  }

  /** A sequence of calls at given times with given answers. */
  function Attempts(p: Policy, r: Router, calls: seq<(nat, Outcome)>): Router
    decreases |calls|
  {
    if calls == [] then r else Attempts(p, Next(p, r, calls[0].0, calls[0].1).0, calls[1..])
  }

  /** No call before an item's time touches it: it is still queued, unchanged, and so is its record. */
  lemma {:induction false} UntouchedBefore(p: Policy, r: Router, calls: seq<(nat, Outcome)>, item: Queued)
    requires Invariant(p, r) && item in r.outbound
    requires forall k :: 0 <= k < |calls| ==> calls[k].0 < item.nextAttemptMs
    ensures item in Attempts(p, r, calls).outbound
    decreases |calls|
  {
    if calls != [] {
      NextKeeps(p, r, calls[0].0, calls[0].1);
      OneCallUntouched(p, r, calls[0].0, calls[0].1, item);
      UntouchedBefore(p, Next(p, r, calls[0].0, calls[0].1).0, calls[1..], item);
    }
  }

  lemma OneCallUntouched(p: Policy, r: Router, nowMs: nat, o: Outcome, item: Queued)
    requires item in r.outbound && nowMs < item.nextAttemptMs
    ensures item in Next(p, r, nowMs, o).0.outbound
  {
    if HeadDue(r, nowMs) {
      var i :| 0 <= i < |r.outbound| && r.outbound[i] == item;
      var z := Next(p, r, nowMs, o).0;
      assert r.outbound[1..][i - 1] == item;
      assert z.outbound[i - 1] == item;
    }
  }

  /**
   * A call is answered by nothing, and changes nothing, iff the queue is empty or the time of its head has not
   * come.
   */
  lemma NothingIffNotDue(p: Policy, r: Router, nowMs: nat, o: Outcome)
    ensures Next(p, r, nowMs, o).1 == Nothing <==> r.outbound == [] || nowMs < r.outbound[0].nextAttemptMs
    ensures Next(p, r, nowMs, o).1 == Nothing ==> Next(p, r, nowMs, o).0 == r
  {
  }

  /** A new message is queued last, due at once, and persisted under a new id. */
  lemma EnqueuedLast(r: Router, content: seq<byte>)
    ensures var z := Enqueue(r, content);
            && z.outbound == r.outbound + [Queued(r.nextId, Message(OutboundState, content), 0, 0)]
            && z.store == r.store[r.nextId := Queued(r.nextId, Message(OutboundState, content), 0, 0)]
            && z.nextId == r.nextId + 1
            && z.(outbound := r.outbound, store := r.store, nextId := r.nextId) == r
  {
  }

  /** A delivery times out as soon as it has been in flight for its timeout, and not before. */
  lemma ExpiredIff(i: Inflight, nowMs: nat)
    ensures Expired(i, nowMs) <==> nowMs >= i.sentAtMs + i.timeoutMs || i.timeoutMs == 0
  {
  }

  // ---------------------------------------------------------------------------------------------
  // The drain loop of tick

  function Remaining(p: Policy, item: Queued): nat {
    1 + (if p.maxAttempts > item.attempts then p.maxAttempts - item.attempts else 0)
  }

  function Measure(p: Policy, q: seq<Queued>): nat {
    if q == [] then 0 else Remaining(p, q[0]) + Measure(p, q[1..])
  }

  lemma {:induction false} MeasureAppend(p: Policy, q: seq<Queued>, x: Queued)
    ensures Measure(p, q + [x]) == Measure(p, q) + Remaining(p, x)
  {
    if q == [] {
      assert q + [x] == [x];
    } else {
      assert (q + [x])[1..] == q[1..] + [x];
      MeasureAppend(p, q[1..], x);
    }
  }

  lemma NextShrinks(p: Policy, r: Router, nowMs: nat, o: Outcome)
    requires HeadDue(r, nowMs)
    ensures Measure(p, Next(p, r, nowMs, o).0.outbound) < Measure(p, r.outbound)
  {
    var r1 := Next(p, r, nowMs, o).0;
    var rest := r.outbound[1..];
    if r1.outbound != rest {
      MeasureAppend(p, rest, r1.outbound[|rest|]);
    }
  }

  /** k calls at the same time, the i-th answered by oracle(i). */
  function Calls(p: Policy, r: Router, nowMs: nat, oracle: nat -> Outcome, k: nat): Router {
    if k == 0 then r else Next(p, Calls(p, r, nowMs, oracle, k - 1), nowMs, oracle(k - 1)).0
  }

  /** The routers a drain has passed through, each the result of a call on the one before. */
  ghost predicate Trace(p: Policy, trace: seq<Router>, nowMs: nat, oracle: nat -> Outcome) {
    forall i :: 0 <= i < |trace| - 1 ==> trace[i + 1] == Next(p, trace[i], nowMs, oracle(i)).0
  }

  lemma {:induction false} TraceIsCalls(p: Policy, trace: seq<Router>, nowMs: nat, oracle: nat -> Outcome, k: nat)
    requires Trace(p, trace, nowMs, oracle) && k < |trace|
    ensures trace[k] == Calls(p, trace[0], nowMs, oracle, k)
  {
    if k > 0 {
      TraceIsCalls(p, trace, nowMs, oracle, k - 1);
    }
  }

  lemma TraceExtends(p: Policy, trace: seq<Router>, nowMs: nat, oracle: nat -> Outcome, r: Router)
    requires trace != [] && Trace(p, trace, nowMs, oracle)
    requires r == Next(p, trace[|trace| - 1], nowMs, oracle(|trace| - 1)).0
    ensures Trace(p, trace + [r], nowMs, oracle)
  {
    forall i | 0 <= i < |trace|
      ensures (trace + [r])[i + 1] == Next(p, (trace + [r])[i], nowMs, oracle(i)).0
    {
      assert i < |trace| - 1 ==> (trace + [r])[i] == trace[i] && (trace + [r])[i + 1] == trace[i + 1];
    }
  }

  /** A drain is a run of the router, so it keeps the invariant. */
  lemma {:induction false} CallsKeep(p: Policy, r: Router, nowMs: nat, oracle: nat -> Outcome, k: nat)
    requires Invariant(p, r)
    ensures Invariant(p, Calls(p, r, nowMs, oracle, k))
  {
    if k > 0 {
      CallsKeep(p, r, nowMs, oracle, k - 1);
      NextKeeps(p, Calls(p, r, nowMs, oracle, k - 1), nowMs, oracle(k - 1));
    }
  }

  /** The router as an object; handed, delivered and failedIds record what the caller was told. */
  class RnsRouter {
    const policy: Policy
    var nextId: nat
    var outbound: seq<Queued>
    var inflight: map<nat, Inflight>
    var failed: seq<Failure>
    var store: map<nat, Queued>
    ghost var handed: set<nat>
    ghost var delivered: set<nat>
    ghost var failedIds: set<nat>

    ghost function State(): Router
      reads this
    {
      Router(nextId, outbound, inflight, failed, store, handed, delivered, failedIds)
    }

    constructor (policy: Policy)
      ensures this.policy == policy && State() == Initial
    {
      this.policy := policy;
      nextId := 1;
      outbound, inflight, failed, store := [], map[], [], map[];
      handed, delivered, failedIds := {}, {}, {};
    }

    method EnqueueMessage(content: seq<byte>) returns (id: nat)
      modifies this
      ensures State() == Enqueue(old(State()), content) && id == old(nextId)
    {
      id := nextId;
      nextId := nextId + 1;
      var item := Queued(id, Message(OutboundState, content), 0, 0);
      store := store[id := item];
      outbound := outbound + [item];
    }

    method NextDeliveryWithRetry(nowMs: nat, answer: Outcome) returns (report: Report)
      modifies this
      ensures (State(), report) == Next(policy, old(State()), nowMs, answer)
    {
      if outbound == [] {
        return Nothing;
      }
      var item := outbound[0];
      if nowMs < item.nextAttemptMs {
        return Nothing;
      }
      outbound := outbound[1..];
      item := item.(attempts := item.attempts + 1, message := Message(Sending, answer.content));
      if answer.verdict.Success? {
        store := store - {item.id};
        handed := handed + {item.id};
        return Handed(item.id, item.message.(state := SentState));
      }
      if answer.verdict.OtherError? && item.attempts < policy.maxAttempts {
        var delay := RetryDelay(policy, item.attempts);
        item := item.(nextAttemptMs := Saturated(nowMs + delay));
        store := store[item.id := item];
        outbound := outbound + [item];
      } else {
        var failure := Failure(item.id, item.message.(state := FailedState), item.attempts);
        store := store - {item.id};
        failed := failed + [failure];
        failedIds := failedIds + {item.id};
      }
      return Errored(answer.verdict);
    }

    method MarkInflightDelivery(id: nat, message: Message, sentAtMs: nat, timeoutMs: nat)
      modifies this
      ensures State() == MarkInflight(old(State()), id, message, sentAtMs, timeoutMs)
    {
      inflight := inflight[id := Inflight(message.(state := SentState), sentAtMs, timeoutMs)];
      handed := handed - {id};
    }

    method MarkDeliveredDelivery(id: nat) returns (r: Option<Message>)
      modifies this
      ensures State() == MarkDelivered(old(State()), id)
      ensures r == if id in old(inflight) then Some(old(inflight)[id].message.(state := DeliveredState)) else None
    {
      if id !in inflight {
        return None;
      }
      r := Some(inflight[id].message.(state := DeliveredState));
      inflight := inflight - {id};
      delivered := delivered + {id};
    }

    method MarkFailedDelivery(id: nat, attempts: nat) returns (r: Option<Failure>)
      modifies this
      ensures State() == MarkFailed(old(State()), id, attempts)
      ensures r.Some? <==> id in old(inflight)
      ensures r.Some? ==> failed == old(failed) + [r.value] && r.value.id == id && r.value.attempts == attempts
    {
      if id !in inflight {
        return None;
      }
      var failure := Failure(id, inflight[id].message.(state := FailedState), attempts);
      inflight := inflight - {id};
      failed := failed + [failure];
      failedIds := failedIds + {id};
      return Some(failure);
    }

    /** poll_timeouts; `order` is the iteration order of the in-flight table. */
    method PollTimeouts(nowMs: nat, order: seq<nat>) returns (timedOut: seq<Failure>, ghost expired: seq<nat>)
      requires Enumerates(order, inflight.Keys)
      modifies this
      ensures expired == ExpiredOf(old(inflight), nowMs, order)
      ensures Distinct(expired) && forall id :: id in expired <==>
          id in old(inflight) && Expired(old(inflight)[id], nowMs)
      ensures State() == FailAll(old(State()), expired)
      ensures failed == old(failed) + timedOut && |timedOut| == |expired|
      ensures forall i :: 0 <= i < |expired| ==> timedOut[i].id == expired[i] && timedOut[i].attempts == 0
      ensures forall id :: id in inflight <==> id in old(inflight) && !Expired(old(inflight)[id], nowMs)
    {
      var hit := ExpiredIn(nowMs, order);
      ExpiredMembers(inflight, nowMs, order);
      timedOut := FailEach(hit);
      expired := hit;
    }

    /** Each of the listed deliveries fails, in turn. */
    method FailEach(hit: seq<nat>) returns (timedOut: seq<Failure>)
      requires Distinct(hit) && forall id :: id in hit ==> id in inflight
      modifies this
      ensures State() == FailAll(old(State()), hit)
      ensures failed == old(failed) + timedOut && |timedOut| == |hit|
      ensures forall i :: 0 <= i < |hit| ==> timedOut[i].id == hit[i] && timedOut[i].attempts == 0
      ensures forall id :: id in inflight <==> id in old(inflight) && id !in hit
    {
      timedOut := [];
      for i := 0 to |hit|
        invariant State() == FailAll(old(State()), hit[..i])
        invariant forall id :: id in inflight <==> id in old(inflight) && id !in hit[..i]
        invariant failed == old(failed) + timedOut && |timedOut| == i
        invariant forall k :: 0 <= k < i ==> timedOut[k].id == hit[k] && timedOut[k].attempts == 0
      {
        assert hit[..i + 1][..i] == hit[..i];
        assert hit[i] in hit && hit[i] !in hit[..i];
        var failure := MarkFailedDelivery(hit[i], 0);
        timedOut := timedOut + [failure.value];
      }
      assert hit[..|hit|] == hit;
    }

    method ExpiredIn(nowMs: nat, order: seq<nat>) returns (hit: seq<nat>)
      requires Enumerates(order, inflight.Keys)
      ensures hit == ExpiredOf(inflight, nowMs, order)
    {
      hit := [];
      for i := 0 to |order|
        invariant hit == ExpiredOf(inflight, nowMs, order[..i])
      {
        assert order[..i + 1][..i] == order[..i];
        if Expired(inflight[order[i]], nowMs) {
          hit := hit + [order[i]];
        }
      }
      assert order[..|order|] == order;
    }

    method DrainOne(nowMs: nat, oracle: nat -> Outcome, k: nat, ghost trace: seq<Router>) returns (report: Report)
      requires |trace| == k + 1 && trace[k] == State() && Trace(policy, trace, nowMs, oracle)
      modifies this
      ensures report.Nothing? ==> !HeadDue(State(), nowMs) && State() == old(State())
      ensures !report.Nothing? ==> Trace(policy, trace + [State()], nowMs, oracle)
      ensures !report.Nothing? ==> Measure(policy, outbound) < Measure(policy, old(outbound))
    {
      if HeadDue(State(), nowMs) {
        NextShrinks(policy, State(), nowMs, oracle(k));
      }
      report := NextDeliveryWithRetry(nowMs, oracle(k));
      TraceExtends(policy, trace, nowMs, oracle, State());
    }

    /**
     * The loop of tick terminates for every queue, policy and sequence of transport results, after at most
     * Measure calls, and leaves the queue empty or its head not yet due.
     */
    method Drain(nowMs: nat, oracle: nat -> Outcome) returns (deliveries: seq<Report>, errors: nat)
      modifies this
      ensures !HeadDue(State(), nowMs)
      ensures |deliveries| + errors <= Measure(policy, old(outbound))
      ensures State() == Calls(policy, old(State()), nowMs, oracle, |deliveries| + errors)
    {
      ghost var trace;
      deliveries, errors, trace := DrainTraced(nowMs, oracle);
      TraceIsCalls(policy, trace, nowMs, oracle, |trace| - 1);
    }

    /** The loop itself, with the routers it passes through. */
    method DrainTraced(nowMs: nat, oracle: nat -> Outcome)
      returns (deliveries: seq<Report>, errors: nat, ghost trace: seq<Router>)
      modifies this
      ensures !HeadDue(State(), nowMs)
      ensures |trace| == |deliveries| + errors + 1 && trace[0] == old(State()) && trace[|trace| - 1] == State()
      ensures Trace(policy, trace, nowMs, oracle)
      ensures |deliveries| + errors <= Measure(policy, old(outbound))
    {
      deliveries, errors := [], 0;
      trace := [State()];
      var idle := false;
      while !idle
        invariant |trace| == |deliveries| + errors + 1 && trace[0] == old(State()) && trace[|trace| - 1] == State()
        invariant Trace(policy, trace, nowMs, oracle)
        invariant |deliveries| + errors + Measure(policy, outbound) <= Measure(policy, old(outbound))
        invariant idle ==> !HeadDue(State(), nowMs)
        decreases !idle, Measure(policy, outbound)
      {
        var report := DrainOne(nowMs, oracle, |deliveries| + errors, trace);
        if report.Nothing? {
          idle := true;
        } else {
          trace := trace + [State()];
          if report.Handed? {
            deliveries := deliveries + [report];
          } else {
            errors := errors + 1;
          }
        }
      }
    }
  }
}
