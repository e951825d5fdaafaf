/** reticulum-patched/src/resource.rs: the mutable tracker and send state, refining the functions on values. */
module ResourceState {
  import opened Common
  import opened ResourceWire
  import T = ResourceTransfer

  class ResourceTracker {
    const cfg: T.Config
    var incoming: map<Address, T.Assembly>
    var completed: seq<Address>

    ghost function State(): T.Tracker
      reads this
    {
      T.Tracker(incoming, completed)
    }

    ghost predicate Valid()
      reads this
    {
      T.Sound(State())
    }

    constructor (cfg: T.Config)
      ensures Valid() && this.cfg == cfg && State() == T.Tracker(map[], [])
    {
      this.cfg := cfg;
      incoming, completed := map[], [];
    }

    method HandleAdvertisement(advert: Advertisement, link: Address, now: int) returns (n: T.Notice)
      requires Valid()
      modifies this
      ensures Valid()
      ensures (State(), n) == T.HandleAdvertisement(old(State()), advert, link, now)
    {
      if advert.resourceId in completed {
        return T.AlreadyCompleted(advert.resourceId);
      }
      if advert.totalParts == 0 {
        return T.Refused(InvalidArgument);
      }
      T.FreshSound(advert, link, now);
      incoming := incoming[advert.resourceId := T.Fresh(advert, link, now)];
      return T.Accepted(advert.resourceId);
    }

    method Insert(id: Address)
      modifies this`completed
      ensures completed == T.CacheInsert(old(completed), id)
    {
      if id in completed {
        return;
      }
      if |completed| == T.COMPLETED_CACHE_SIZE {
        completed := completed[1..];
      }
      completed := completed + [id];
    }

    /** The chunks of a full assembly, one after the other. */
    method Join(received: seq<Option<seq<byte>>>) returns (data: seq<byte>)
      ensures data == T.Joined(received)
    {
      data := [];
      ghost var slots := T.Slots(received);
      for i := 0 to |received|
        invariant data == Flatten(slots[..i])
      {
        assert slots[..i + 1] == slots[..i] + [slots[i]];
        FlattenAppend(slots[..i], [slots[i]]);
        assert Flatten([slots[i]]) == slots[i] + Flatten<byte>([]);
        if received[i].Some? {
          data := data + received[i].value;
        }
      }
      assert slots[..|received|] == slots;
    }

    method HandlePart(part: Part, now: int) returns (n: T.Notice)
      requires Valid()
      modifies this
      ensures Valid()
      ensures (State(), n) == T.HandlePart(cfg, old(State()), part, now)
    {
      T.StoredSound(cfg, State(), part, now);
      var id := part.resourceId;
      if id !in incoming {
        return T.Ignored;
      }
      var a := incoming[id];
      if |part.data| > a.partSize {
        return T.Refused(OutOfMemory);
      }
      var i := part.index;
      if i >= |a.received| {
        return T.Refused(InvalidArgument);
      }
      if a.received[i].None? {
        a := a.(received := a.received[i := Some(part.data)], receivedCount := a.receivedCount + 1);
      }
      if a.hashmap[i].None? {
        a := a.(hashmap := a.hashmap[i := Some(ComputeMapHash(cfg.sha, a.received[i].value))]);
      }
      a := a.(lastActivity := now);
      assert a == T.Stored(cfg, old(incoming)[id], part, now);
      if a.receivedCount == a.totalParts {
        var data := Join(a.received);
        incoming := incoming - {id};
        Insert(id);
        return T.Complete(id, T.Truncate(data, a.totalLen), a.requestId, a.isResponse);
      }
      incoming := incoming[id := a];
      return T.Progress(id, a.receivedCount, a.totalParts);
    }

    /** The entries of an update, up to the end of the map. */
    method WriteEntries(known: seq<Option<MapHash>>, start: nat, bytes: seq<byte>)
      returns (hashmap: seq<Option<MapHash>>)
      ensures hashmap == T.Overlay(known, start, bytes)
    {
      hashmap := known;
      var entries := |bytes| / 4;
      var i := 0;
      while i < entries && start + i < |hashmap|
        invariant 0 <= i <= entries && |hashmap| == |known|
        invariant forall j :: 0 <= j < |known| ==>
          hashmap[j] == if start <= j < start + i then T.Overlay(known, start, bytes)[j] else known[j]
      {
        hashmap := hashmap[start + i := Some(bytes[i * 4..i * 4 + 4])];
        i := i + 1;
      }
    }

    method HandleHashUpdate(id: Address, segment: u32, bytes: seq<byte>, now: int) returns (n: T.Notice)
      requires Valid()
      modifies this`incoming
      ensures Valid()
      ensures (State(), n) == T.HandleHashUpdate(old(State()), id, segment, bytes, now)
    {
      if id !in incoming || |bytes| % 4 != 0 {
        return T.Updated(false);
      }
      var a := incoming[id];
      var entries := |bytes| / 4;
      var hashmap := WriteEntries(a.hashmap, segment * entries, bytes);
      incoming := incoming[id := a.(hashmap := hashmap, lastActivity := now)];
      return T.Updated(true);
    }

    method HandleCancel(id: Address) returns (n: T.Notice)
      requires Valid()
      modifies this
      ensures Valid()
      ensures (State(), n) == T.HandleCancel(old(State()), id)
    {
      if id !in incoming {
        return T.Ignored;
      }
      incoming := incoming - {id};
      Insert(id);
      return T.Cancelled(id);
    }

    /** What a timed-out assembly asks for: one pass over the slots, one backwards over the hash map. */
    method Describe(id: Address, a: T.Assembly, failed: bool) returns (t: T.Timeout)
      requires |a.received| == |a.hashmap|
      ensures t == T.TimeoutOf(id, a, failed)
    {
      var requested: seq<MapHash> := [];
      var exhausted := false;
      for i := 0 to |a.received|
        invariant requested == T.RequestedHashes(a, i)
        invariant exhausted == T.HashmapExhausted(a, i)
      {
        if a.received[i].None? {
          if a.hashmap[i].Some? {
            requested := requested + [a.hashmap[i].value];
          } else {
            exhausted := true;
          }
        }
      }
      var last: Option<MapHash> := None;
      var k := |a.hashmap|;
      assert a.hashmap[..k] == a.hashmap;
      while k > 0
        invariant 0 <= k <= |a.hashmap| && last == None
        invariant T.LastKnown(a.hashmap) == T.LastKnown(a.hashmap[..k])
      {
        k := k - 1;
        if a.hashmap[k].Some? {
          last := a.hashmap[k];
          break;
        }
        assert a.hashmap[..k + 1][..k] == a.hashmap[..k];
      }
      return T.Timeout(id, a.linkId, a.requestId, a.isResponse, requested, exhausted, last, failed);
    }

    /** The body of the polling loop. */
    method PollOne(key: Address, now: int) returns (ns: seq<T.Notice>)
      requires Valid()
      modifies this`incoming
      ensures Valid()
      ensures (State(), ns) == T.PollKey(cfg, old(State()), key, now)
    {
      if key !in incoming || !T.Hit(cfg, incoming[key], now) {
        return [];
      }
      var a := incoming[key];
      var failed := a.retries >= T.MAX_RETRIES;
      if !failed {
        a := a.(retries := a.retries + 1, lastActivity := now);
      }
      var t := Describe(key, a, failed);
      incoming := if failed then incoming - {key} else incoming[key := a];
      return [T.TimedOut(t)];
    }

    /** poll_timeouts; `order` is the order in which the table yields its keys. */
    method PollTimeouts(order: seq<Address>, now: int) returns (expired: seq<T.Notice>)
      requires Valid() && Enumerates(order, incoming.Keys)
      modifies this`incoming
      ensures Valid()
      ensures (State(), expired) == T.PollAll(cfg, old(State()), order, now)
    {
      expired := [];
      ghost var start := State();
      for i := 0 to |order|
        invariant Valid()
        invariant (State(), expired) == T.PollAll(cfg, start, order[..i], now)
      {
        T.PollOneMore(cfg, start, order, i, now);
        var ns := PollOne(order[i], now);
        expired := expired + ns;
      }
      assert order[..|order|] == order;
    }
  }

  datatype ReceiptStatus = Sent | Completed | Failed

  /** What the sender of a resource can be asked. */
  datatype SendEvent = PollRetry(now: int) | MarkSent(now: int) | Proof(id: Address, ok: bool) | MarkFailed

  datatype Sender = Sender(id: Address, timeout: nat, maxRetries: nat, lastSent: int, retries: nat,
      status: ReceiptStatus)

  /** One event; the flag says whether poll_retry released the parts. */
  function SendStep(s: Sender, e: SendEvent): (Sender, bool) {
    match e
    case PollRetry(now) =>
      if (if now >= s.lastSent then now - s.lastSent else 0) < s.timeout then (s, false)
      else if s.retries >= s.maxRetries then (s.(status := Failed), false)
      else (s.(retries := s.retries + 1, lastSent := now), true)
    case MarkSent(now) => (s.(lastSent := now), false)
    case Proof(id, ok) =>
      (if id == s.id then s.(status := if ok then Completed else Failed) else s, false)
    case MarkFailed => (s.(status := Failed), false)
  }

  function Releases(s: Sender, events: seq<SendEvent>): nat
    decreases |events|
  {
    if events == [] then 0 else
    var (s1, released) := SendStep(s, events[0]);
    (if released then 1 else 0) + Releases(s1, events[1..])
  }

  /** Over every run the parts are released by poll_retry at most max_retries times. */
  lemma {:induction false} ReleaseBudget(s: Sender, events: seq<SendEvent>)
    requires s.retries <= s.maxRetries
    ensures Releases(s, events) <= s.maxRetries - s.retries
    decreases |events|
  {
    if events != [] {
      ReleaseBudget(SendStep(s, events[0]).0, events[1..]);
    }
  }

  /**
   * A poll releases the parts iff the timeout has passed since they were last sent and a retry is left; it gives
   * the transfer up iff the timeout has passed and none is; else it changes nothing.
   */
  lemma RetryIff(s: Sender, now: int)
    requires now >= s.lastSent
    ensures var (z, released) := SendStep(s, PollRetry(now));
            var due := now >= s.lastSent + s.timeout;
            && (released <==> due && s.retries < s.maxRetries)
            && (released ==> z == s.(retries := s.retries + 1, lastSent := now))
            && (due && s.retries >= s.maxRetries ==> z == s.(status := Failed))
            && (!due ==> z == s)
  {
  }

  /** Polls at given times. */
  function PollRun(s: Sender, times: seq<int>): Sender {
    if times == [] then s else SendStep(PollRun(s, times[..|times| - 1]), PollRetry(times[|times| - 1])).0
  }

  /** Left alone and polled the timeout after every release, it is released max_retries times and then given up. */
  lemma {:induction false} ReleasedThenFailed(s: Sender, times: seq<int>)
    requires s.retries == 0 && s.status != Failed && |times| <= s.maxRetries + 1
    requires times != [] ==> times[0] >= s.lastSent + s.timeout
    requires forall k :: 0 < k < |times| ==> times[k] >= times[k - 1] + s.timeout
    ensures var z := PollRun(s, times);
            && z.retries == (if |times| <= s.maxRetries then |times| else s.maxRetries)
            && (z.status == Failed <==> |times| == s.maxRetries + 1)
            && z.timeout == s.timeout && z.maxRetries == s.maxRetries
            && (|times| <= s.maxRetries ==> z.lastSent == if times == [] then s.lastSent else times[|times| - 1])
  {
    if times != [] {
      var m := |times| - 1;
      ReleasedThenFailed(s, times[..m]);
    }
  }

  /** Only a proof of this resource changes its status, and by what it says. */
  lemma ProofDecides(s: Sender, id: Address, ok: bool)
    ensures var z := SendStep(s, Proof(id, ok)).0;
            && (id == s.id ==> (z.status == Completed <==> ok) && (z.status == Failed <==> !ok))
            && (id != s.id ==> z == s)
            && z.(status := s.status) == s
  {
  }

  class ResourceSendState {
    const cfg: T.Config
    const parts: seq<Part>
    var sender: Sender

    constructor (cfg: T.Config, id: Address, parts: seq<Part>, timeout: nat, maxRetries: nat, now: int)
      ensures this.cfg == cfg && this.parts == parts && sender == Sender(id, timeout, maxRetries, now, 0, Sent)
    {
      this.cfg := cfg;
      this.parts := parts;
      sender := Sender(id, timeout, maxRetries, now, 0, Sent);
    }

    method HandleRequest(request: Request) returns (out: seq<Part>)
      ensures out == T.HandleRequest(cfg, sender.id, parts, request)
    {
      if request.resourceId != sender.id {
        return [];
      }
      if request.requestedHashes == [] {
        return [];
      }
      out := [];
      for i := 0 to |parts|
        invariant out == T.Matching(cfg, parts[..i], request.requestedHashes)
      {
        assert parts[..i + 1][..i] == parts[..i];
        var hash := ComputeMapHash(cfg.sha, parts[i].data);
        if hash in request.requestedHashes {
          out := out + [parts[i]];
        }
      }
      assert parts[..|parts|] == parts;
    }

    method PollRetry(now: int) returns (out: Option<seq<Part>>)
      modifies this
      ensures (sender, out.Some?) == SendStep(old(sender), SendEvent.PollRetry(now))
      ensures out.Some? ==> out.value == parts
    {
      var elapsed := if now >= sender.lastSent then now - sender.lastSent else 0;
      if elapsed < sender.timeout {
        return None;
      }
      if sender.retries >= sender.maxRetries {
        sender := sender.(status := Failed);
        return None;
      }
      sender := sender.(retries := sender.retries + 1, lastSent := now);
      return Some(parts);
    }
  }
}
