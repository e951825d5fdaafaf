/**
 * reticulum-patched/src/resource.rs: the receiving side of a segmented transfer (ResourceTracker) as a
 * state machine driven by a hostile channel, and the sending side (ResourceSendState) that answers it.
 */
module ResourceTransfer {
  import opened Common
  import opened ResourceWire

  const MAX_RETRIES: nat := 3
  const COMPLETED_CACHE_SIZE: nat := 256

  datatype Config = Config(sha: seq<byte> -> Digest, timeout: nat)

  datatype Assembly = Assembly(
    linkId: Address,
    requestId: Option<Address>,
    isResponse: bool,
    totalLen: u32,
    totalParts: u32,
    partSize: u32,
    received: seq<Option<seq<byte>>>,
    receivedCount: nat,
    hashmap: seq<Option<MapHash>>,
    lastActivity: int,
    retries: nat)

  /** `completed` is the queue of the CacheSet; its set has the same members. */
  datatype Tracker = Tracker(incoming: map<Address, Assembly>, completed: seq<Address>)

  datatype Timeout = Timeout(
    resourceId: Address,
    linkId: Address,
    requestId: Option<Address>,
    isResponse: bool,
    requestedHashes: seq<MapHash>,
    hashmapExhausted: bool,
    lastMapHash: Option<MapHash>,
    failed: bool)

  datatype Notice =
    | Accepted(id: Address)
    | AlreadyCompleted(id: Address)
    | Refused(error: RnsError)
    | Ignored
    | Progress(id: Address, count: nat, total: nat)
    | Complete(id: Address, data: seq<byte>, requestId: Option<Address>, isResponse: bool)
    | Updated(applied: bool)
    | Cancelled(id: Address)
    | TimedOut(timeout: Timeout)

  datatype Event =
    | Advertise(advert: Advertisement, link: Address, now: int)
    | Arrive(part: Part, now: int)
    | Update(id: Address, segment: u32, bytes: seq<byte>, now: int)
    | Cancel(id: Address)
    | Poll(order: seq<Address>, now: int)

  // ---------------------------------------------------------------------------------------------
  // The operations as functions of the state

  function CacheInsert(queue: seq<Address>, id: Address): seq<Address> {
    if id in queue then queue
    else if |queue| == COMPLETED_CACHE_SIZE then queue[1..] + [id]
    else queue + [id]
  }

  /** The cache of finished resources holds 256; a new one pushes out the oldest of a full cache and no other. */
  lemma CacheRemembers(queue: seq<Address>, id: Address)
    requires Distinct(queue) && |queue| <= 256
    ensures var q := CacheInsert(queue, id);
            && Distinct(q) && |q| <= 256 && id in q
            && (forall x :: x in q ==> x in queue || x == id)
            && (forall i :: 0 <= i < |queue| && !(i == 0 && |queue| == 256 && id !in queue) ==> queue[i] in q)
            && (|queue| == 256 && id !in queue ==> queue[0] !in q)
  {
    var q := CacheInsert(queue, id);
    if id !in queue && |queue| == 256 {
      assert forall i :: 1 <= i < 256 ==> queue[i] == q[i - 1];
      assert queue[0] !in queue[1..];
    } else if id !in queue {
      assert forall i :: 0 <= i < |queue| ==> queue[i] == q[i];
    }
  }

  function Fresh(a: Advertisement, link: Address, now: int): Assembly {
    Assembly(link, a.requestId, a.isResponse, a.totalLen, a.totalParts, a.partSize,
             seq(a.totalParts, _ => None), 0, seq(a.totalParts, _ => None), now, 0)
  }

  function HandleAdvertisement(s: Tracker, a: Advertisement, link: Address, now: int): (Tracker, Notice) {
    if a.resourceId in s.completed then (s, AlreadyCompleted(a.resourceId))
    else if a.totalParts == 0 then (s, Refused(InvalidArgument))
    else (s.(incoming := s.incoming[a.resourceId := Fresh(a, link, now)]), Accepted(a.resourceId))
  }

  function Chunk(slot: Option<seq<byte>>): seq<byte> {
    if slot.Some? then slot.value else []
  }

  function Slots(received: seq<Option<seq<byte>>>): (c: seq<seq<byte>>)
    ensures |c| == |received| && forall i :: 0 <= i < |c| ==> c[i] == Chunk(received[i])
  {
    seq(|received|, i requires 0 <= i < |received| => Chunk(received[i]))
  }

  function Joined(received: seq<Option<seq<byte>>>): seq<byte> {
    Flatten(Slots(received))
  }

  function Truncate(data: seq<byte>, len: nat): seq<byte> {
    if len < |data| then data[..len] else data
  }

  /** The assembly after a part has been put in its slot (the first copy wins). */
  function Stored(cfg: Config, a: Assembly, p: Part, now: int): Assembly
    requires p.index < |a.received| && |a.hashmap| == |a.received|
  {
    var i := p.index;
    var isNew := a.received[i].None?;
    var received := if isNew then a.received[i := Some(p.data)] else a.received;
    a.(received := received,
       receivedCount := if isNew then a.receivedCount + 1 else a.receivedCount,
       hashmap :=
         if a.hashmap[i].None? then a.hashmap[i := Some(ComputeMapHash(cfg.sha, received[i].value))]
         else a.hashmap,
       lastActivity := now)
  }

  function HandlePart(cfg: Config, s: Tracker, p: Part, now: int): (Tracker, Notice)
    requires Sound(s)
  {
    var id := p.resourceId;
    if id !in s.incoming then (s, Ignored) else
    var a := s.incoming[id];
    if |p.data| > a.partSize then (s, Refused(OutOfMemory))
    else if p.index >= |a.received| then (s, Refused(InvalidArgument))
    else
      var b := Stored(cfg, a, p, now);
      if b.receivedCount == b.totalParts then
        (Tracker(s.incoming - {id}, CacheInsert(s.completed, id)),
         Complete(id, Truncate(Joined(b.received), b.totalLen), b.requestId, b.isResponse))
      else
        (s.(incoming := s.incoming[id := b]), Progress(id, b.receivedCount, b.totalParts))
  }

  function HandleHashUpdate(s: Tracker, id: Address, segment: u32, bytes: seq<byte>, now: int): (Tracker, Notice) {
    if id !in s.incoming || |bytes| % 4 != 0 then (s, Updated(false)) else
    var a := s.incoming[id];
    var start := segment * (|bytes| / 4);
    (s.(incoming := s.incoming[id := a.(hashmap := Overlay(a.hashmap, start, bytes), lastActivity := now)]),
        Updated(true))
  }

  /** The hash map with the entries of an update written over it from `start`. */
  function Overlay(hashmap: seq<Option<MapHash>>, start: nat, bytes: seq<byte>): seq<Option<MapHash>> {
    seq(|hashmap|, j requires 0 <= j < |hashmap| =>
      if start <= j < start + |bytes| / 4 then Some(bytes[(j - start) * 4..(j - start) * 4 + 4]) else hashmap[j])
  }

  function HandleCancel(s: Tracker, id: Address): (Tracker, Notice) {
    if id !in s.incoming then (s, Ignored)
    else (Tracker(s.incoming - {id}, CacheInsert(s.completed, id)), Cancelled(id))
  }

  /** Hashes of the missing parts among the first n, in order. */
  function RequestedHashes(a: Assembly, n: nat): seq<MapHash>
    requires n <= |a.received| == |a.hashmap|
  {
    if n == 0 then []
    else RequestedHashes(a, n - 1)
         + (if a.received[n - 1].None? && a.hashmap[n - 1].Some? then [a.hashmap[n - 1].value] else [])
  }

  predicate HashmapExhausted(a: Assembly, n: nat)
    requires n <= |a.received| == |a.hashmap|
  {
    exists i :: 0 <= i < n && a.received[i].None? && a.hashmap[i].None?
  }

  function LastKnown(hashmap: seq<Option<MapHash>>): Option<MapHash> {
    if hashmap == [] then None
    else if hashmap[|hashmap| - 1].Some? then hashmap[|hashmap| - 1]
    else LastKnown(hashmap[..|hashmap| - 1])
  }

  function TimeoutOf(id: Address, a: Assembly, failed: bool): Timeout
    requires |a.received| == |a.hashmap|
  {
    Timeout(id, a.linkId, a.requestId, a.isResponse, RequestedHashes(a, |a.received|),
            HashmapExhausted(a, |a.received|), LastKnown(a.hashmap), failed)
  }

  /** Instant::duration_since saturates at zero. */
  predicate Hit(cfg: Config, a: Assembly, now: int) {
    (if now >= a.lastActivity then now - a.lastActivity else 0) >= cfg.timeout
  }

  function PollKey(cfg: Config, s: Tracker, id: Address, now: int): (Tracker, seq<Notice>)
    requires Sound(s)
  {
    if id !in s.incoming || !Hit(cfg, s.incoming[id], now) then (s, []) else
    var a := s.incoming[id];
    if a.retries >= MAX_RETRIES then
      (s.(incoming := s.incoming - {id}), [TimedOut(TimeoutOf(id, a, true))])
    else
      var b := a.(retries := a.retries + 1, lastActivity := now);
      (s.(incoming := s.incoming[id := b]), [TimedOut(TimeoutOf(id, b, false))])
  }

  function PollAll(cfg: Config, s: Tracker, order: seq<Address>, now: int): (r: (Tracker, seq<Notice>))
    requires Sound(s)
    ensures Sound(r.0)
    decreases |order|
  {
    if order == [] then (s, []) else
    var (s1, ns1) := PollKey(cfg, s, order[0], now);
    var (s2, ns2) := PollAll(cfg, s1, order[1..], now);
    (s2, ns1 + ns2)
  }

  function Step(cfg: Config, s: Tracker, e: Event): (r: (Tracker, seq<Notice>))
    requires Sound(s)
    ensures Sound(r.0)
  {
    match e
    case Advertise(a, link, now) =>
      var (s1, n) := HandleAdvertisement(s, a, link, now); (s1, [n])
    case Arrive(p, now) =>
      StoredSound(cfg, s, p, now);
      var (s1, n) := HandlePart(cfg, s, p, now); (s1, [n])
    case Update(id, segment, bytes, now) =>
      var (s1, n) := HandleHashUpdate(s, id, segment, bytes, now); (s1, [n])
    case Cancel(id) =>
      var (s1, n) := HandleCancel(s, id); (s1, [n])
    case Poll(order, now) =>
      PollAll(cfg, s, order, now)
  }

  function Run(cfg: Config, s: Tracker, events: seq<Event>): (r: (Tracker, seq<Notice>))
    requires Sound(s)
    ensures Sound(r.0)
    decreases |events|
  {
    if events == [] then (s, []) else
    var (s1, ns1) := Step(cfg, s, events[0]);
    var (s2, ns2) := Run(cfg, s1, events[1..]);
    (s2, ns1 + ns2)
  }

  // ---------------------------------------------------------------------------------------------
  // What every event keeps, whoever sends it

  ghost function Filled(received: seq<Option<seq<byte>>>): set<int> {
    set i | 0 <= i < |received| && received[i].Some?
  }

  ghost predicate SoundAssembly(a: Assembly) {
    && |a.received| == a.totalParts == |a.hashmap|
    && a.receivedCount == |Filled(a.received)| < a.totalParts
    && a.retries <= MAX_RETRIES
  }

  /** The counter of every assembly is the number of its filled slots, and no full assembly lingers. */
  ghost predicate Sound(s: Tracker) {
    forall id :: id in s.incoming ==> SoundAssembly(s.incoming[id])
  }

  ghost function Range(n: nat): (r: set<int>)
    ensures |r| == n
    ensures forall i :: i in r <==> 0 <= i < n
  {
    if n == 0 then {} else Range(n - 1) + {n - 1}
  }

  /** A full counter means that every slot is filled. */
  lemma CountDecides(received: seq<Option<seq<byte>>>)
    ensures |Filled(received)| <= |received|
    ensures |Filled(received)| == |received| <==> Filled(received) == Range(|received|)
  {
    SubsetSize(Filled(received), Range(|received|));
  }

  lemma StoredFills(cfg: Config, a: Assembly, p: Part, now: int)
    requires SoundAssembly(a) && p.index < a.totalParts
    ensures var b := Stored(cfg, a, p, now);
            && |b.received| == b.totalParts == |b.hashmap|
            && Filled(b.received) == Filled(a.received) + {p.index}
            && b.receivedCount == |Filled(b.received)| <= b.totalParts
            && (b.receivedCount == b.totalParts <==> Filled(a.received) + {p.index} == Range(a.totalParts))
  {
    var b := Stored(cfg, a, p, now);
    assert Filled(b.received) == Filled(a.received) + {p.index};
    CountDecides(b.received);
  }

  /** A part also tells the receiver its map hash, if that was not known; all other entries and fields stay. */
  lemma StoredTeaches(cfg: Config, a: Assembly, p: Part, now: int)
    requires SoundAssembly(a) && p.index < a.totalParts
    ensures var b := Stored(cfg, a, p, now);
            && b.received[p.index] == (if a.received[p.index].Some? then a.received[p.index] else Some(p.data))
            && (a.hashmap[p.index].None? ==>
                b.hashmap[p.index] == Some(ComputeMapHash(cfg.sha, b.received[p.index].value)))
            && (a.hashmap[p.index].Some? ==> b.hashmap[p.index] == a.hashmap[p.index])
            && (forall j :: 0 <= j < a.totalParts && j != p.index ==>
                  b.received[j] == a.received[j] && b.hashmap[j] == a.hashmap[j])
            && b.lastActivity == now && b.retries == a.retries && b.linkId == a.linkId && b.requestId == a.requestId
  {
  }

  lemma StoredSound(cfg: Config, s: Tracker, p: Part, now: int)
    requires Sound(s)
    ensures Sound(HandlePart(cfg, s, p, now).0)
  {
    if p.resourceId in s.incoming && p.index < |s.incoming[p.resourceId].received| {
      StoredFills(cfg, s.incoming[p.resourceId], p, now);
    }
  }

  lemma FreshSound(a: Advertisement, link: Address, now: int)
    requires a.totalParts > 0
    ensures SoundAssembly(Fresh(a, link, now)) && Filled(Fresh(a, link, now).received) == {}
  {
  }

  /** Complete is reported exactly when the arriving part is the last missing one. */
  lemma CompleteIffLastMissing(cfg: Config, s: Tracker, p: Part, now: int)
    requires Sound(s) && p.resourceId in s.incoming
    requires p.index < s.incoming[p.resourceId].totalParts && |p.data| <= s.incoming[p.resourceId].partSize
    ensures var a := s.incoming[p.resourceId];
            var (s1, n) := HandlePart(cfg, s, p, now);
            && (n.Complete? <==> Range(a.totalParts) - Filled(a.received) == {p.index})
            && (n.Complete? <==> p.resourceId !in s1.incoming)
            && (n.Complete? ==> p.resourceId in s1.completed)
  {
    var a := s.incoming[p.resourceId];
    StoredFills(cfg, a, p, now);
    CountDecides(a.received);
    if p.index in Filled(a.received) {
      assert Filled(a.received) + {p.index} == Filled(a.received);
    }
  }

  // ---------------------------------------------------------------------------------------------
  // Integrity: what is completed is what was sent

  /** The transfer under study. Part numbers fit in 32 bits. */
  datatype Transfer = Transfer(data: seq<byte>, size: nat, advert: Advertisement)

  ghost predicate Sent(cfg: Config, t: Transfer) {
    && t.size > 0
    && |Chunks(t.data, t.size)| < U32_SIZE
    && t.advert == AdvertOf(cfg.sha, t.data, t.size, t.advert.requestId, t.advert.isResponse, t.advert.isRequest)
  }

  /** The channel drops, repeats, reorders and mixes in foreign traffic, but does not forge this resource. */
  ghost predicate Honest(cfg: Config, t: Transfer, e: Event)
    requires Sent(cfg, t)
  {
    match e
    case Advertise(a, _, _) => a.resourceId == t.advert.resourceId ==> a == t.advert
    case Arrive(p, _) => p.resourceId == t.advert.resourceId ==> p in PartsOf(cfg.sha, t.data, t.size)
    case _ => true
  }

  ghost predicate GenuineAssembly(t: Transfer, a: Assembly)
    requires t.size > 0
  {
    var chunks := Chunks(t.data, t.size);
    && a.totalParts == |chunks| == |a.received|
    && a.totalLen == AsU32(|t.data|) && a.partSize == AsU32(t.size)
    && forall i :: 0 <= i < |chunks| && a.received[i].Some? ==>
        a.received[i].value == chunks[i] && |chunks[i]| <= a.partSize
  }

  ghost predicate Genuine(cfg: Config, t: Transfer, s: Tracker)
    requires Sent(cfg, t)
  {
    t.advert.resourceId in s.incoming ==> GenuineAssembly(t, s.incoming[t.advert.resourceId])
  }

  /** The advertised part size holds the longest part; false only when the size wraps at 32 bits. */
  predicate Fits(t: Transfer) {
    (if |t.data| <= t.size then |t.data| else t.size) <= AsU32(t.size)
  }

  lemma JoinedIsData(t: Transfer, a: Assembly)
    requires t.size > 0 && GenuineAssembly(t, a)
    requires Filled(a.received) == Range(|a.received|)
    ensures Joined(a.received) == t.data && (t.data != [] ==> Fits(t))
  {
    var chunks := Chunks(t.data, t.size);
    ChunksFacts(t.data, t.size);
    var joined := Slots(a.received);
    forall i | 0 <= i < |chunks|
      ensures joined[i] == chunks[i] && |chunks[i]| <= a.partSize
    {
      assert i in Filled(a.received);
    }
    assert joined == chunks;
  }

  lemma StoredGenuine(cfg: Config, t: Transfer, a: Assembly, p: Part, now: int)
    requires Sent(cfg, t) && GenuineAssembly(t, a) && |a.hashmap| == |a.received|
    requires p in PartsOf(cfg.sha, t.data, t.size) && p.index < |a.received| && |p.data| <= a.partSize
    ensures GenuineAssembly(t, Stored(cfg, a, p, now))
  {
    var parts := PartsOf(cfg.sha, t.data, t.size);
    var i :| 0 <= i < |parts| && parts[i] == p;
    assert p.index == i && p.data == Chunks(t.data, t.size)[i];
  }

  /** An honest part keeps the assembly genuine, and a completion carries the data (cut at 2^32 bytes). */
  lemma PartKeepsGenuine(cfg: Config, t: Transfer, s: Tracker, p: Part, now: int)
    requires Sent(cfg, t) && Sound(s) && Genuine(cfg, t, s) && Honest(cfg, t, Arrive(p, now))
    ensures var (s1, n) := HandlePart(cfg, s, p, now);
            && Genuine(cfg, t, s1)
            && (n.Complete? && n.id == t.advert.resourceId ==>
                  n.data == t.data[..AsU32(|t.data|)] && t.data != [] && Fits(t))
  {
    var rid := t.advert.resourceId;
    if p.resourceId == rid && rid in s.incoming && |p.data| <= s.incoming[rid].partSize {
      if p.index < |s.incoming[rid].received| {
        StoredGenuine(cfg, t, s.incoming[rid], p, now);
        if Stored(cfg, s.incoming[rid], p, now).receivedCount == s.incoming[rid].totalParts {
          CompletionCarriesData(t, cfg, s.incoming[rid], p, now);
        }
      }
    }
  }

  lemma CompletionCarriesData(t: Transfer, cfg: Config, a: Assembly, p: Part, now: int)
    requires t.size > 0 && SoundAssembly(a) && p.index < a.totalParts
    requires var b := Stored(cfg, a, p, now); GenuineAssembly(t, b) && b.receivedCount == b.totalParts
    ensures var b := Stored(cfg, a, p, now);
            Truncate(Joined(b.received), b.totalLen) == t.data[..AsU32(|t.data|)] && t.data != [] && Fits(t)
  {
    StoredFills(cfg, a, p, now);
    JoinedIsData(t, Stored(cfg, a, p, now));
    ChunksFacts(t.data, t.size);
    assert t.data == t.data[..|t.data|];
  }

  ghost predicate Faithful(t: Transfer, ns: seq<Notice>) {
    forall k :: 0 <= k < |ns| && ns[k].Complete? && ns[k].id == t.advert.resourceId ==>
      ns[k].data == t.data[..AsU32(|t.data|)] && t.data != [] && Fits(t)
  }

  lemma {:induction false} PollKeepsGenuine(cfg: Config, t: Transfer, s: Tracker, order: seq<Address>, now: int)
    requires Sent(cfg, t) && Sound(s) && Genuine(cfg, t, s)
    ensures var (s1, ns) := PollAll(cfg, s, order, now);
            Genuine(cfg, t, s1) && forall k :: 0 <= k < |ns| ==> ns[k].TimedOut?
    decreases |order|
  {
    if order != [] {
      PollKeepsGenuine(cfg, t, PollKey(cfg, s, order[0], now).0, order[1..], now);
    }
  }

  lemma StepKeepsGenuine(cfg: Config, t: Transfer, s: Tracker, e: Event)
    requires Sent(cfg, t) && Sound(s) && Genuine(cfg, t, s) && Honest(cfg, t, e)
    ensures Genuine(cfg, t, Step(cfg, s, e).0) && Faithful(t, Step(cfg, s, e).1)
  {
    match e
    case Arrive(p, now) => PartKeepsGenuine(cfg, t, s, p, now);
    case Poll(order, now) => PollKeepsGenuine(cfg, t, s, order, now);
    case _ =>
  }

  /**
   * Safety over whole runs: whatever the channel drops, repeats, reorders or adds, every completion of
   * this resource carries the data that was split, whole if it is shorter than 2^32 bytes.
   */
  lemma {:induction false} RunIntegrity(cfg: Config, t: Transfer, s: Tracker, events: seq<Event>)
    requires Sent(cfg, t) && Sound(s) && Genuine(cfg, t, s)
    requires forall k :: 0 <= k < |events| ==> Honest(cfg, t, events[k])
    ensures Genuine(cfg, t, Run(cfg, s, events).0) && Faithful(t, Run(cfg, s, events).1)
    decreases |events|
  {
    if events != [] {
      StepKeepsGenuine(cfg, t, s, events[0]);
      RunIntegrity(cfg, t, Step(cfg, s, events[0]).0, events[1..]);
    }
  }

  // ---------------------------------------------------------------------------------------------
  // Completion: delivering parts in any order, with repeats

  /** Parts handed to the tracker one after the other; one notice each. */
  function Feed(cfg: Config, s: Tracker, parts: seq<Part>, now: int): (r: (Tracker, seq<Notice>))
    requires Sound(s)
    ensures Sound(r.0) && |r.1| == |parts|
  {
    if parts == [] then (s, []) else
    var (s1, ns) := Feed(cfg, s, parts[..|parts| - 1], now);
    StoredSound(cfg, s1, parts[|parts| - 1], now);
    var (s2, n) := HandlePart(cfg, s1, parts[|parts| - 1], now);
    (s2, ns + [n])
  }

  ghost function Indices(parts: seq<Part>): set<int> {
    set k | 0 <= k < |parts| :: parts[k].index as int
  }

  /** Slots filled once the given parts have arrived. */
  ghost function Reached(a: Assembly, parts: seq<Part>): set<int> {
    Filled(a.received) + Indices(parts)
  }

  lemma GenuinePart(cfg: Config, t: Transfer, p: Part)
    requires Sent(cfg, t) && Fits(t) && p in PartsOf(cfg.sha, t.data, t.size)
    ensures p.resourceId == t.advert.resourceId && p.index < |Chunks(t.data, t.size)| && |p.data| <= AsU32(t.size)
  {
    ChunksFacts(t.data, t.size);
    var parts := PartsOf(cfg.sha, t.data, t.size);
    var i :| 0 <= i < |parts| && parts[i] == p;
  }

  ghost predicate Full(a: Assembly, parts: seq<Part>) {
    Reached(a, parts) == Range(a.totalParts)
  }

  /** For every prefix of the arriving parts, whether it fills the assembly. */
  ghost function FullAfter(a: Assembly, parts: seq<Part>): (f: seq<bool>)
    ensures |f| == |parts| + 1 && forall k :: 0 <= k <= |parts| ==> f[k] == Full(a, parts[..k])
  {
    seq(|parts| + 1, k requires 0 <= k <= |parts| => Full(a, parts[..k]))
  }

  ghost predicate TurnsTrue(full: seq<bool>, k: nat)
    requires k + 1 < |full|
  {
    !full[k] && full[k + 1]
  }

  /** Completion is reported at exactly the arrivals where `full` turns true, with the right data. */
  ghost predicate ReportsCrossing(t: Transfer, full: seq<bool>, ns: seq<Notice>) {
    && |full| == |ns| + 1
    && (forall k :: 0 <= k < |ns| ==> (ns[k].Complete? <==> TurnsTrue(full, k)))
    && (forall k :: 0 <= k < |ns| && ns[k].Complete? ==>
          ns[k].id == t.advert.resourceId && ns[k].data == t.data[..AsU32(|t.data|)])
  }

  /** Where the tracker stands after feeding parts to a live assembly. */
  ghost predicate Settled(t: Transfer, a: Assembly, parts: seq<Part>, s: Tracker) {
    var rid := t.advert.resourceId;
    && Reached(a, parts) <= Range(a.totalParts)
    && (rid in s.incoming <==> !Full(a, parts))
    && (rid in s.incoming ==> Filled(s.incoming[rid].received) == Reached(a, parts))
  }

  lemma ReachedGrows(a: Assembly, parts: seq<Part>)
    requires parts != []
    ensures Reached(a, parts) == Reached(a, parts[..|parts| - 1]) + {parts[|parts| - 1].index as int}
  {
    var m := |parts| - 1;
    assert Indices(parts) == Indices(parts[..m]) + {parts[m].index as int};
  }

  lemma {:induction false} FullAfterAt(a: Assembly, parts: seq<Part>, m: nat, k: nat)
    requires k <= m <= |parts|
    ensures FullAfter(a, parts)[k] == FullAfter(a, parts[..m])[k]
  {
    assert parts[..m][..k] == parts[..k];
  }

  lemma LastFull(a: Assembly, parts: seq<Part>)
    requires parts != []
    ensures FullAfter(a, parts[..|parts| - 1])[|parts| - 1] == Full(a, parts[..|parts| - 1])
  {
    assert parts[..|parts| - 1][..|parts| - 1] == parts[..|parts| - 1];
  }

  lemma FullAtEnd(a: Assembly, parts: seq<Part>)
    ensures FullAfter(a, parts)[|parts|] == Full(a, parts)
  {
    assert parts[..|parts|] == parts;
  }

  lemma Appended(before: seq<bool>, after: seq<bool>)
    requires |after| == |before| + 1 && forall k :: 0 <= k < |before| ==> after[k] == before[k]
    ensures after == before + [after[|before|]]
  {
  }

  lemma {:induction false} FullAfterGrows(a: Assembly, parts: seq<Part>)
    requires parts != []
    ensures FullAfter(a, parts) == FullAfter(a, parts[..|parts| - 1]) + [Full(a, parts)]
    ensures FullAfter(a, parts)[|parts| - 1] == Full(a, parts[..|parts| - 1])
  {
    var m := |parts| - 1;
    var before, after := FullAfter(a, parts[..m]), FullAfter(a, parts);
    forall k | 0 <= k < |before|
      ensures after[k] == before[k]
    {
      FullAfterAt(a, parts, m, k);
    }
    LastFull(a, parts);
    FullAtEnd(a, parts);
    Appended(before, after);
  }

  /** One more part, when R is the set of slots reached so far. */
  lemma FeedStep(cfg: Config, t: Transfer, s: Tracker, p: Part, now: int, reached: set<int>)
    requires Sent(cfg, t) && Fits(t) && Sound(s) && Genuine(cfg, t, s) && p in PartsOf(cfg.sha, t.data, t.size)
    requires var rid, all := t.advert.resourceId, Range(|Chunks(t.data, t.size)|);
             && reached <= all
             && (rid in s.incoming <==> reached != all)
             && (rid in s.incoming ==> Filled(s.incoming[rid].received) == reached)
    ensures var rid, all := t.advert.resourceId, Range(|Chunks(t.data, t.size)|);
            var (s1, n) := HandlePart(cfg, s, p, now);
            && Genuine(cfg, t, s1)
            && reached + {p.index} <= all
            && (rid in s1.incoming <==> reached + {p.index} != all)
            && (rid in s1.incoming ==> Filled(s1.incoming[rid].received) == reached + {p.index})
            && (n.Complete? <==> reached != all && reached + {p.index} == all)
            && (n.Complete? ==> n.id == rid && n.data == t.data[..AsU32(|t.data|)])
  {
    var rid := t.advert.resourceId;
    GenuinePart(cfg, t, p);
    PartKeepsGenuine(cfg, t, s, p, now);
    if rid in s.incoming {
      StoredFills(cfg, s.incoming[rid], p, now);
    } else {
      assert reached + {p.index} == reached;
    }
  }

  /**
   * Liveness: however the parts of a resource are ordered and repeated, the assembly is gone exactly when
   * every slot has been reached, and exactly the arrival that reached the last one reports completion.
   */
  lemma {:induction false} FeedCompletes(cfg: Config, t: Transfer, s: Tracker, parts: seq<Part>, now: int)
    requires Sent(cfg, t) && Fits(t) && Sound(s) && Genuine(cfg, t, s) && t.advert.resourceId in s.incoming
    requires forall k :: 0 <= k < |parts| ==> parts[k] in PartsOf(cfg.sha, t.data, t.size)
    ensures Settled(t, s.incoming[t.advert.resourceId], parts, Feed(cfg, s, parts, now).0)
    ensures ReportsCrossing(t, FullAfter(s.incoming[t.advert.resourceId], parts), Feed(cfg, s, parts, now).1)
    ensures Genuine(cfg, t, Feed(cfg, s, parts, now).0)
    decreases |parts|
  {
    var a := s.incoming[t.advert.resourceId];
    if parts == [] {
      CountDecides(a.received);
      assert Reached(a, parts) == Filled(a.received);
    } else {
      var m := |parts| - 1;
      FeedCompletes(cfg, t, s, parts[..m], now);
      var (s1, ns) := Feed(cfg, s, parts[..m], now);
      FeedExtends(cfg, t, s1, ns, a, parts, now);
    }
  }

  lemma FeedExtends(cfg: Config, t: Transfer, s: Tracker, ns: seq<Notice>, a: Assembly, parts: seq<Part>, now: int)
    requires Sent(cfg, t) && Fits(t) && Sound(s) && Genuine(cfg, t, s) && a.totalParts == |Chunks(t.data, t.size)|
    requires parts != [] && parts[|parts| - 1] in PartsOf(cfg.sha, t.data, t.size)
    requires Settled(t, a, parts[..|parts| - 1], s) && ReportsCrossing(t, FullAfter(a, parts[..|parts| - 1]), ns)
    ensures var (s1, n) := HandlePart(cfg, s, parts[|parts| - 1], now);
            && Settled(t, a, parts, s1) && Genuine(cfg, t, s1)
            && ReportsCrossing(t, FullAfter(a, parts), ns + [n])
  {
    FullAfterGrows(a, parts);
    LastFull(a, parts);
    OneMorePart(cfg, t, s, a, parts, now);
    ExtendReports(t, FullAfter(a, parts[..|parts| - 1]), ns, Full(a, parts),
        HandlePart(cfg, s, parts[|parts| - 1], now).1);
  }

  lemma OneMorePart(cfg: Config, t: Transfer, s: Tracker, a: Assembly, parts: seq<Part>, now: int)
    requires Sent(cfg, t) && Fits(t) && Sound(s) && Genuine(cfg, t, s) && a.totalParts == |Chunks(t.data, t.size)|
    requires parts != [] && parts[|parts| - 1] in PartsOf(cfg.sha, t.data, t.size)
    requires Settled(t, a, parts[..|parts| - 1], s)
    ensures var (s1, n) := HandlePart(cfg, s, parts[|parts| - 1], now);
            && Settled(t, a, parts, s1) && Genuine(cfg, t, s1)
            && (n.Complete? <==> !Full(a, parts[..|parts| - 1]) && Full(a, parts))
            && (n.Complete? ==> n.id == t.advert.resourceId && n.data == t.data[..AsU32(|t.data|)])
  {
    ReachedGrows(a, parts);
    FeedStep(cfg, t, s, parts[|parts| - 1], now, Reached(a, parts[..|parts| - 1]));
  }

  lemma ExtendReports(t: Transfer, full: seq<bool>, ns: seq<Notice>, now: bool, n: Notice)
    requires ReportsCrossing(t, full, ns)
    requires n.Complete? <==> !full[|ns|] && now
    requires n.Complete? ==> n.id == t.advert.resourceId && n.data == t.data[..AsU32(|t.data|)]
    ensures ReportsCrossing(t, full + [now], ns + [n])
  {
    var full', ns' := full + [now], ns + [n];
    forall k | 0 <= k < |ns'|
      ensures ns'[k].Complete? <==> TurnsTrue(full', k)
    {
      if k < |ns| {
        assert ns'[k] == ns[k] && TurnsTrue(full', k) == TurnsTrue(full, k);
      }
    }
  }

  // ---------------------------------------------------------------------------------------------
  // Completion in the midst of other traffic

  /** Not an end or a new beginning of this resource that someone else decides. */
  predicate Undisturbing(t: Transfer, e: Event) {
    && (e.Advertise? ==> e.advert.resourceId != t.advert.resourceId)
    && (e.Cancel? ==> e.id != t.advert.resourceId)
  }

  /** No notice gives the resource up. */
  ghost predicate NotGivenUp(id: Address, ns: seq<Notice>) {
    forall k :: 0 <= k < |ns| && ns[k].TimedOut? && ns[k].timeout.resourceId == id ==> !ns[k].timeout.failed
  }

  /** How often the resource is reported complete. */
  function Completions(ns: seq<Notice>, id: Address): nat {
    if ns == [] then 0 else Completions(ns[1..], id) + (if ns[0].Complete? && ns[0].id == id then 1 else 0)
  }

  lemma {:induction false} CompletionsAppend(a: seq<Notice>, b: seq<Notice>, id: Address)
    ensures Completions(a + b, id) == Completions(a, id) + Completions(b, id)
  {
    if a == [] {
      assert a + b == b;
    } else {
      assert (a + b)[1..] == a[1..] + b;
      CompletionsAppend(a[1..], b, id);
    }
  }

  /** `reached` are the slots filled so far; the assembly is live until they are all. */
  ghost predicate Reaching(cfg: Config, t: Transfer, s: Tracker, reached: set<int>) {
    && Sent(cfg, t) && Sound(s) && Genuine(cfg, t, s)
    && var rid, all := t.advert.resourceId, Range(|Chunks(t.data, t.size)|);
       && reached <= all
       && (rid in s.incoming <==> reached != all)
       && (rid in s.incoming ==> Filled(s.incoming[rid].received) == reached)
  }

  /** The slots of the resource that an event's part belongs to. */
  function ArrivedIn(t: Transfer, e: Event): set<int> {
    if e.Arrive? && e.part.resourceId == t.advert.resourceId then {e.part.index} else {}
  }

  function ArrivedAll(t: Transfer, events: seq<Event>): set<int> {
    if events == [] then {} else ArrivedIn(t, events[0]) + ArrivedAll(t, events[1..])
  }

  lemma PollKeyReaching(cfg: Config, t: Transfer, s: Tracker, key: Address, now: int, reached: set<int>)
    requires Reaching(cfg, t, s, reached) && NotGivenUp(t.advert.resourceId, PollKey(cfg, s, key, now).1)
    ensures Reaching(cfg, t, PollKey(cfg, s, key, now).0, reached)
    ensures Completions(PollKey(cfg, s, key, now).1, t.advert.resourceId) == 0
  {
    var (s1, ns) := PollKey(cfg, s, key, now);
    assert |ns| > 0 ==> ns[0].TimedOut? && ns[1..] == [];
    assert key == t.advert.resourceId && |ns| > 0 ==> !ns[0].timeout.failed;
  }

  lemma {:induction false} PollReaching(cfg: Config, t: Transfer, s: Tracker, order: seq<Address>, now: int,
      reached: set<int>)
    requires Reaching(cfg, t, s, reached) && NotGivenUp(t.advert.resourceId, PollAll(cfg, s, order, now).1)
    ensures Reaching(cfg, t, PollAll(cfg, s, order, now).0, reached)
    ensures Completions(PollAll(cfg, s, order, now).1, t.advert.resourceId) == 0
    decreases |order|
  {
    if order != [] {
      var (s1, ns1) := PollKey(cfg, s, order[0], now);
      var ns2 := PollAll(cfg, s1, order[1..], now).1;
      GivenUpSplits(t.advert.resourceId, ns1, ns2);
      PollKeyReaching(cfg, t, s, order[0], now, reached);
      PollReaching(cfg, t, s1, order[1..], now, reached);
      CompletionsAppend(ns1, ns2, t.advert.resourceId);
    }
  }

  /** 1 if this is the moment at which the last slot is reached. */
  function Turn(before: set<int>, after: set<int>, all: set<int>): nat {
    if before != all && after == all then 1 else 0
  }

  lemma TurnsAdd(a: set<int>, b: set<int>, c: set<int>, all: set<int>)
    requires a <= b <= c <= all
    ensures Turn(a, b, all) + Turn(b, c, all) == Turn(a, c, all)
  {
  }

  lemma OneNotice(n: Notice, id: Address)
    ensures Completions([n], id) == if n.Complete? && n.id == id then 1 else 0
  {
    assert [n][1..] == [];
  }

  lemma OwnPartReaching(cfg: Config, t: Transfer, s: Tracker, p: Part, now: int, reached: set<int>)
    requires Reaching(cfg, t, s, reached) && Fits(t) && p in PartsOf(cfg.sha, t.data, t.size)
    ensures var all, more := Range(|Chunks(t.data, t.size)|), reached + {p.index};
            && Reaching(cfg, t, HandlePart(cfg, s, p, now).0, more)
            && Completions([HandlePart(cfg, s, p, now).1], t.advert.resourceId) == Turn(reached, more, all)
  {
    StoredSound(cfg, s, p, now);
    FeedStep(cfg, t, s, p, now, reached);
    OneNotice(HandlePart(cfg, s, p, now).1, t.advert.resourceId);
  }

  lemma ForeignPartReaching(cfg: Config, t: Transfer, s: Tracker, p: Part, now: int, reached: set<int>)
    requires Reaching(cfg, t, s, reached) && p.resourceId != t.advert.resourceId
    ensures Reaching(cfg, t, HandlePart(cfg, s, p, now).0, reached)
    ensures Completions([HandlePart(cfg, s, p, now).1], t.advert.resourceId) == 0
  {
    StoredSound(cfg, s, p, now);
    OneNotice(HandlePart(cfg, s, p, now).1, t.advert.resourceId);
  }

  lemma ArriveReaching(cfg: Config, t: Transfer, s: Tracker, e: Event, reached: set<int>)
    requires Reaching(cfg, t, s, reached) && Fits(t) && e.Arrive? && Honest(cfg, t, e)
    ensures var all, more := Range(|Chunks(t.data, t.size)|), reached + ArrivedIn(t, e);
            && Reaching(cfg, t, Step(cfg, s, e).0, more)
            && Completions(Step(cfg, s, e).1, t.advert.resourceId) == Turn(reached, more, all)
  {
    if e.part.resourceId == t.advert.resourceId {
      GenuinePart(cfg, t, e.part);
      OwnPartReaching(cfg, t, s, e.part, e.now, reached);
    } else {
      assert reached + ArrivedIn(t, e) == reached;
      ForeignPartReaching(cfg, t, s, e.part, e.now, reached);
    }
  }

  /** Another tracker in which this resource is received alike. */
  lemma SameReaching(cfg: Config, t: Transfer, s: Tracker, s1: Tracker, reached: set<int>)
    requires Reaching(cfg, t, s, reached) && Sound(s1)
    requires var rid := t.advert.resourceId;
             && (rid in s1.incoming <==> rid in s.incoming)
             && (rid in s.incoming ==>
                   var a, b := s.incoming[rid], s1.incoming[rid];
                   b == a.(hashmap := b.hashmap, lastActivity := b.lastActivity, retries := b.retries))
    ensures Reaching(cfg, t, s1, reached)
  {
  }

  lemma OtherReaching(cfg: Config, t: Transfer, s: Tracker, e: Event, reached: set<int>)
    requires Reaching(cfg, t, s, reached) && Undisturbing(t, e) && (e.Advertise? || e.Update? || e.Cancel?)
    ensures Reaching(cfg, t, Step(cfg, s, e).0, reached) && Completions(Step(cfg, s, e).1, t.advert.resourceId) == 0
  {
    var (s1, ns) := Step(cfg, s, e);
    SameReaching(cfg, t, s, s1, reached);
    assert |ns| == 1 && !ns[0].Complete?;
    assert ns == [ns[0]];
    OneNotice(ns[0], t.advert.resourceId);
  }

  lemma StepReaching(cfg: Config, t: Transfer, s: Tracker, e: Event, reached: set<int>)
    requires Reaching(cfg, t, s, reached) && Fits(t) && Honest(cfg, t, e) && Undisturbing(t, e)
    requires NotGivenUp(t.advert.resourceId, Step(cfg, s, e).1)
    ensures var all, more := Range(|Chunks(t.data, t.size)|), reached + ArrivedIn(t, e);
            && Reaching(cfg, t, Step(cfg, s, e).0, more)
            && Completions(Step(cfg, s, e).1, t.advert.resourceId) == Turn(reached, more, all)
  {
    assert !e.Arrive? ==> reached + ArrivedIn(t, e) == reached;
    match e
    case Arrive(_, _) => { ArriveReaching(cfg, t, s, e, reached); }
    case Poll(order, now) => { PollReaching(cfg, t, s, order, now, reached); }
    case _ => { OtherReaching(cfg, t, s, e, reached); }
  }

  /** Events of a channel that does not forge the resource and of callers that leave it alone. */
  ghost predicate Calm(cfg: Config, t: Transfer, events: seq<Event>)
    requires Sent(cfg, t)
  {
    forall k :: 0 <= k < |events| ==> Honest(cfg, t, events[k]) && Undisturbing(t, events[k])
  }

  /** Reports that take the resource from one set of reached slots to another. */
  ghost predicate Tallied(t: Transfer, ns: seq<Notice>, before: set<int>, after: set<int>)
    requires t.size > 0
  {
    Completions(ns, t.advert.resourceId) == Turn(before, after, Range(|Chunks(t.data, t.size)|))
  }

  lemma TalliedTwice(cfg: Config, t: Transfer, z: Tracker, ns1: seq<Notice>, ns2: seq<Notice>, a: set<int>,
      b: set<int>, c: set<int>)
    requires t.size > 0 && a <= b <= c && Reaching(cfg, t, z, c) && Tallied(t, ns1, a, b) && Tallied(t, ns2, b, c)
    ensures Tallied(t, ns1 + ns2, a, c)
  {
    CompletionsAppend(ns1, ns2, t.advert.resourceId);
    TurnsAdd(a, b, c, Range(|Chunks(t.data, t.size)|));
  }

  lemma FirstReaching(cfg: Config, t: Transfer, s: Tracker, events: seq<Event>, reached: set<int>)
    requires Reaching(cfg, t, s, reached) && Fits(t) && events != [] && Calm(cfg, t, events)
    requires NotGivenUp(t.advert.resourceId, Run(cfg, s, events).1)
    ensures var (s1, ns1) := Step(cfg, s, events[0]);
            var (z, ns2) := Run(cfg, s1, events[1..]);
            && Run(cfg, s, events) == (z, ns1 + ns2)
            && Calm(cfg, t, events[1..]) && NotGivenUp(t.advert.resourceId, ns2)
            && Reaching(cfg, t, s1, reached + ArrivedIn(t, events[0]))
            && Tallied(t, ns1, reached, reached + ArrivedIn(t, events[0]))
  {
    var (s1, ns1) := Step(cfg, s, events[0]);
    GivenUpSplits(t.advert.resourceId, ns1, Run(cfg, s1, events[1..]).1);
    StepReaching(cfg, t, s, events[0], reached);
  }

  /** The rest of a run after one step, which led to s with the notices `before`. */
  lemma {:induction false} RestReaching(cfg: Config, t: Transfer, s: Tracker, before: seq<Notice>, rest: seq<Event>,
                                        start: set<int>, reached: set<int>, more: set<int>)
    requires Reaching(cfg, t, s, reached) && Fits(t) && Calm(cfg, t, rest) && start <= reached
    requires NotGivenUp(t.advert.resourceId, Run(cfg, s, rest).1) && Tallied(t, before, start, reached)
    requires more == reached + ArrivedAll(t, rest)
    ensures Reaching(cfg, t, Run(cfg, s, rest).0, more) && Tallied(t, before + Run(cfg, s, rest).1, start, more)
    decreases |rest|, 1
  {
    RunReaching(cfg, t, s, rest, reached, more);
    var (z, ns) := Run(cfg, s, rest);
    TalliedTwice(cfg, t, z, before, ns, start, reached, more);
  }

  lemma {:induction false} RunReaching(cfg: Config, t: Transfer, s: Tracker, events: seq<Event>, reached: set<int>,
                                       more: set<int>)
    requires Reaching(cfg, t, s, reached) && Fits(t) && Calm(cfg, t, events)
    requires NotGivenUp(t.advert.resourceId, Run(cfg, s, events).1) && more == reached + ArrivedAll(t, events)
    ensures Reaching(cfg, t, Run(cfg, s, events).0, more) && Tallied(t, Run(cfg, s, events).1, reached, more)
    decreases |events|, 0
  {
    if events == [] {
      assert more == reached;
    } else {
      var (s1, ns1) := Step(cfg, s, events[0]);
      var r1 := reached + ArrivedIn(t, events[0]);
      assert more == r1 + ArrivedAll(t, events[1..]);
      FirstReaching(cfg, t, s, events, reached);
      RestReaching(cfg, t, s1, ns1, events[1..], reached, r1, more);
    }
  }

  lemma GivenUpSplits(id: Address, a: seq<Notice>, b: seq<Notice>)
    requires NotGivenUp(id, a + b)
    ensures NotGivenUp(id, a) && NotGivenUp(id, b)
  {
    assert forall k :: 0 <= k < |a| ==> (a + b)[k] == a[k];
    assert forall k :: 0 <= k < |b| ==> (a + b)[|a| + k] == b[k];
  }

  /**
   * In every run with any other traffic, hash updates and polls that do not give the resource up: the resource is
   * reported complete once if the parts that have arrived fill every slot, and not at all before. As this holds
   * of every prefix of a run, the report comes exactly with the arrival that fills the last slot.
   */
  lemma RunCompletesWithLast(cfg: Config, t: Transfer, s: Tracker, events: seq<Event>)
    requires Sent(cfg, t) && Fits(t) && Sound(s) && Genuine(cfg, t, s) && t.advert.resourceId in s.incoming
    requires Calm(cfg, t, events)
    requires NotGivenUp(t.advert.resourceId, Run(cfg, s, events).1)
    ensures var rid := t.advert.resourceId;
            var full := Filled(s.incoming[rid].received) + ArrivedAll(t, events) == Range(|Chunks(t.data, t.size)|);
            && Completions(Run(cfg, s, events).1, rid) == (if full then 1 else 0)
            && (rid in Run(cfg, s, events).0.incoming <==> !full)
  {
    var a := s.incoming[t.advert.resourceId];
    CountDecides(a.received);
    RunReaching(cfg, t, s, events, Filled(a.received), Filled(a.received) + ArrivedAll(t, events));
  }

  // ---------------------------------------------------------------------------------------------
  // When an assembly times out

  /** A poll reports a live assembly iff nothing was heard of it for the timeout; else it leaves everything alone. */
  lemma PollReportsIff(cfg: Config, s: Tracker, id: Address, now: int)
    requires Sound(s) && id in s.incoming
    ensures PollKey(cfg, s, id, now).1 != [] <==> now - s.incoming[id].lastActivity >= cfg.timeout || cfg.timeout == 0
    ensures PollKey(cfg, s, id, now).1 == [] ==> PollKey(cfg, s, id, now).0 == s
  {
  }

  /**
   * What a timeout tells: the map hashes of exactly the missing parts whose hash is known; whether the hash of some
   * missing part is not known; and the known hash with the highest index.
   */
  lemma TimeoutTells(id: Address, a: Assembly, failed: bool, h: MapHash)
    requires |a.received| == |a.hashmap|
    ensures var t := TimeoutOf(id, a, failed);
            && (h in t.requestedHashes <==>
                  exists i :: 0 <= i < |a.received| && a.received[i].None? && a.hashmap[i] == Some(h))
            && (!t.hashmapExhausted <==>
                  forall i :: 0 <= i < |a.received| && a.received[i].None? ==> a.hashmap[i].Some?)
            && (t.lastMapHash == None <==> forall i :: 0 <= i < |a.hashmap| ==> a.hashmap[i].None?)
            && (t.lastMapHash == Some(h) ==> exists i :: 0 <= i < |a.hashmap| && LastKnownAt(a.hashmap, i, h))
            && t.resourceId == id && t.linkId == a.linkId && t.requestId == a.requestId
            && t.isResponse == a.isResponse && t.failed == failed
  {
    RequestedIff(a, |a.received|, h);
    LastKnownIs(a.hashmap);
  }

  lemma {:induction false} RequestedIff(a: Assembly, n: nat, h: MapHash)
    requires n <= |a.received| == |a.hashmap|
    ensures h in RequestedHashes(a, n) <==> exists i :: 0 <= i < n && a.received[i].None? && a.hashmap[i] == Some(h)
  {
    if n > 0 {
      RequestedIff(a, n - 1, h);
    }
  }

  predicate LastKnownAt(hashmap: seq<Option<MapHash>>, i: nat, h: MapHash) {
    && i < |hashmap| && hashmap[i] == Some(h)
    && forall j :: i < j < |hashmap| ==> hashmap[j].None?
  }

  lemma {:induction false} LastKnownIs(hashmap: seq<Option<MapHash>>)
    ensures LastKnown(hashmap) == None <==> forall i :: 0 <= i < |hashmap| ==> hashmap[i].None?
    ensures LastKnown(hashmap).Some? ==>
        exists i :: 0 <= i < |hashmap| && LastKnownAt(hashmap, i, LastKnown(hashmap).value)
  {
    if hashmap != [] {
      var m := |hashmap| - 1;
      if hashmap[m].None? {
        LastKnownIs(hashmap[..m]);
        assert forall j :: 0 <= j < m ==> hashmap[..m][j] == hashmap[j];
        if LastKnown(hashmap).Some? {
          var i :| 0 <= i < m && LastKnownAt(hashmap[..m], i, LastKnown(hashmap).value);
          assert LastKnownAt(hashmap, i, LastKnown(hashmap).value);
        }
      } else {
        assert LastKnownAt(hashmap, m, LastKnown(hashmap).value);
      }
    }
  }

  /** What it reports: one more request while retries are left, then the failure that ends the assembly. */
  lemma PollReport(cfg: Config, s: Tracker, id: Address, now: int)
    requires Sound(s) && id in s.incoming
    requires now - s.incoming[id].lastActivity >= cfg.timeout || cfg.timeout == 0
    ensures var a := s.incoming[id];
            var (z, ns) := PollKey(cfg, s, id, now);
            && |ns| == 1 && ns[0].TimedOut? && ns[0].timeout.resourceId == id && ns[0].timeout.linkId == a.linkId
            && (ns[0].timeout.failed <==> a.retries >= 3)
            && (a.retries < 3 ==>
                z == s.(incoming := s.incoming[id := a.(retries := a.retries + 1, lastActivity := now)]))
            && (a.retries >= 3 ==> z == s.(incoming := s.incoming - {id}))
  {
  }

  /** Something is heard of the resource: an accepted advertisement, part or hash update. */
  predicate Heard(s: Tracker, id: Address, e: Event) {
    match e
    case Advertise(a, _, _) => a.resourceId == id && id !in s.completed && a.totalParts > 0
    case Arrive(p, _) =>
      && p.resourceId == id && id in s.incoming
      && |p.data| <= s.incoming[id].partSize && p.index < |s.incoming[id].received|
    case Update(i, _, bytes, _) => i == id && id in s.incoming && |bytes| % 4 == 0
    case _ => false
  }

  function TimeOf(e: Event): int
    requires !e.Cancel?
  {
    e.now
  }

  /** A poll comes less than the timeout after the resource was last heard of, at time `last`. */
  ghost predicate Attended(cfg: Config, s: Tracker, events: seq<Event>, id: Address, last: int)
    requires Sound(s)
    decreases |events|
  {
    events == []
    || (var e := events[0];
        && (e.Poll? && id in s.incoming ==> last <= e.now < last + cfg.timeout)
        && Attended(cfg, Step(cfg, s, e).0, events[1..], id, if Heard(s, id, e) then TimeOf(e) else last))
  }

  ghost predicate NoTimeout(ns: seq<Notice>, id: Address) {
    forall k :: 0 <= k < |ns| && ns[k].TimedOut? ==> ns[k].timeout.resourceId != id
  }

  ghost predicate LastHeard(s: Tracker, id: Address, last: int) {
    id in s.incoming ==> s.incoming[id].lastActivity == last
  }

  lemma PollKeyAttended(cfg: Config, s: Tracker, key: Address, now: int, id: Address, last: int)
    requires Sound(s) && LastHeard(s, id, last) && (id in s.incoming ==> last <= now < last + cfg.timeout)
    ensures var (z, ns) := PollKey(cfg, s, key, now);
            LastHeard(z, id, last) && NoTimeout(ns, id) && (id in z.incoming <==> id in s.incoming)
  {
  }

  lemma NoTimeoutJoins(a: seq<Notice>, b: seq<Notice>, id: Address)
    requires NoTimeout(a, id) && NoTimeout(b, id)
    ensures NoTimeout(a + b, id)
  {
  }

  lemma {:induction false} PollAttended(cfg: Config, s: Tracker, order: seq<Address>, now: int, id: Address, last: int)
    requires Sound(s) && LastHeard(s, id, last) && (id in s.incoming ==> last <= now < last + cfg.timeout)
    ensures var (z, ns) := PollAll(cfg, s, order, now);
            LastHeard(z, id, last) && NoTimeout(ns, id) && (id in z.incoming <==> id in s.incoming)
    decreases |order|
  {
    if order != [] {
      var (s1, ns1) := PollKey(cfg, s, order[0], now);
      PollKeyAttended(cfg, s, order[0], now, id, last);
      PollAttended(cfg, s1, order[1..], now, id, last);
      NoTimeoutJoins(ns1, PollAll(cfg, s1, order[1..], now).1, id);
    }
  }

  /** Every event records the time at which the resource was last heard of. */
  lemma HeardRecorded(cfg: Config, s: Tracker, e: Event, id: Address, last: int)
    requires Sound(s) && LastHeard(s, id, last) && !e.Poll?
    ensures LastHeard(Step(cfg, s, e).0, id, if Heard(s, id, e) then TimeOf(e) else last)
    ensures NoTimeout(Step(cfg, s, e).1, id)
  {
  }

  /** Over every run, a resource that is heard of less than the timeout before each poll never times out. */
  lemma {:induction false} AttendedNeverTimesOut(cfg: Config, s: Tracker, events: seq<Event>, id: Address, last: int)
    requires Sound(s) && LastHeard(s, id, last) && Attended(cfg, s, events, id, last)
    ensures NoTimeout(Run(cfg, s, events).1, id)
    decreases |events|
  {
    if events != [] {
      var e := events[0];
      var (s1, ns1) := Step(cfg, s, e);
      if e.Poll? {
        PollAttended(cfg, s, e.order, e.now, id, last);
      } else {
        HeardRecorded(cfg, s, e, id, last);
      }
      AttendedNeverTimesOut(cfg, s1, events[1..], id, if Heard(s, id, e) then TimeOf(e) else last);
      NoTimeoutJoins(ns1, Run(cfg, s1, events[1..]).1, id);
    }
  }

  /** The reports about a resource: whether each is the final one. */
  function Reports(ns: seq<Notice>, id: Address): seq<bool> {
    if ns == [] then [] else
    (if ns[0].TimedOut? && ns[0].timeout.resourceId == id then [ns[0].timeout.failed] else []) + Reports(ns[1..], id)
  }

  lemma {:induction false} ReportsAppend(a: seq<Notice>, b: seq<Notice>, id: Address)
    ensures Reports(a + b, id) == Reports(a, id) + Reports(b, id)
  {
    if a == [] {
      assert a + b == b;
    } else {
      assert (a + b)[1..] == a[1..] + b;
      ReportsAppend(a[1..], b, id);
    }
  }

  /** The event is the traffic of another resource, or a poll of the whole table. */
  predicate Foreign(e: Event, id: Address) {
    match e
    case Poll(order, _) => Once(order, id)
    case Advertise(a, _, _) => a.resourceId != id
    case Arrive(p, _) => p.resourceId != id
    case Update(i, _, _, _) => i != id
    case Cancel(i) => i != id
  }

  ghost predicate Starving(events: seq<Event>, id: Address) {
    forall i :: 0 <= i < |events| ==> Foreign(events[i], id)
  }

  /** The table lists the resource once. */
  predicate Once(order: seq<Address>, id: Address) {
    exists k :: 0 <= k < |order| && order[k] == id && id !in order[..k] && id !in order[k + 1..]
  }

  /** A poll that comes at least the timeout after the start of the wait. */
  predicate IsDue(timeout: nat, e: Event, last: int) {
    e.Poll? && (e.now - last >= timeout || timeout == 0)
  }

  /** The polls that come the timeout after the start of the wait, each of which starts the wait anew. */
  function DuePolls(timeout: nat, events: seq<Event>, last: int): nat
    decreases |events|
  {
    if events == [] then 0
    else if IsDue(timeout, events[0], last) then
      1 + DuePolls(timeout, events[1..], events[0].now)
    else DuePolls(timeout, events[1..], last)
  }

  /** As many requests as retries are left, up to three in all, and then the failure. */
  function ExpectedReports(polls: nat, retries: nat): seq<bool> {
    if polls == 0 then []
    else if retries >= 3 then [true]
    else [false] + ExpectedReports(polls - 1, retries + 1)
  }

  /** Polls of other keys. */
  lemma {:induction false} PollOthers(cfg: Config, s: Tracker, order: seq<Address>, now: int, id: Address)
    requires Sound(s) && id !in order
    ensures var (z, ns) := PollAll(cfg, s, order, now);
            && (id in z.incoming <==> id in s.incoming)
            && (id in s.incoming ==> z.incoming[id] == s.incoming[id])
            && Reports(ns, id) == []
    decreases |order|
  {
    if order != [] {
      var (s1, ns1) := PollKey(cfg, s, order[0], now);
      assert Reports(ns1, id) == [];
      PollOthers(cfg, s1, order[1..], now, id);
      ReportsAppend(ns1, PollAll(cfg, s1, order[1..], now).1, id);
    }
  }

  lemma {:induction false} PollSplits(cfg: Config, s: Tracker, a: seq<Address>, b: seq<Address>, now: int)
    requires Sound(s)
    ensures var (s1, ns1) := PollAll(cfg, s, a, now);
            var (s2, ns2) := PollAll(cfg, s1, b, now);
            PollAll(cfg, s, a + b, now) == (s2, ns1 + ns2)
    decreases |a|
  {
    if a == [] {
      assert a + b == b && [] + PollAll(cfg, s, b, now).1 == PollAll(cfg, s, b, now).1;
    } else {
      var (s1, ns1) := PollKey(cfg, s, a[0], now);
      assert (a + b)[1..] == a[1..] + b;
      PollSplits(cfg, s1, a[1..], b, now);
      var (s2, ns2) := PollAll(cfg, s1, a[1..], now);
      var ns3 := PollAll(cfg, s2, b, now).1;
      assert ns1 + (ns2 + ns3) == (ns1 + ns2) + ns3;
    }
  }

  lemma PollOneMore(cfg: Config, s: Tracker, order: seq<Address>, i: nat, now: int)
    requires Sound(s) && i < |order|
    ensures var (s1, ns1) := PollAll(cfg, s, order[..i], now);
            var (s2, ns2) := PollKey(cfg, s1, order[i], now);
            PollAll(cfg, s, order[..i + 1], now) == (s2, ns1 + ns2)
  {
    var s1 := PollAll(cfg, s, order[..i], now).0;
    var (s2, ns2) := PollKey(cfg, s1, order[i], now);
    assert order[..i + 1] == order[..i] + [order[i]];
    PollSplits(cfg, s, order[..i], [order[i]], now);
    assert PollAll(cfg, s2, [], now) == (s2, []);
    assert [order[i]][1..] == [] && ns2 + [] == ns2;
  }

  /** Where a resource stands: its retries, and since when nothing was heard of it. */
  ghost predicate Stands(s: Tracker, id: Address, retries: nat, last: int) {
    id in s.incoming && s.incoming[id].retries == retries && s.incoming[id].lastActivity == last
  }

  /** One poll: nothing before the time has come; then one more request, or the failure. */
  ghost predicate Polled(z: Tracker, ns: seq<Notice>, id: Address, retries: nat, last: int, now: int, due: bool) {
    if !due then Reports(ns, id) == [] && Stands(z, id, retries, last)
    else
      && Reports(ns, id) == [retries >= 3]
      && (if retries < 3 then Stands(z, id, retries + 1, now) else id !in z.incoming)
  }

  lemma OnePoll(cfg: Config, s: Tracker, id: Address, now: int, retries: nat, last: int)
    requires Sound(s) && Stands(s, id, retries, last)
    ensures var (z, ns) := PollKey(cfg, s, id, now);
            Polled(z, ns, id, retries, last, now, now - last >= cfg.timeout || cfg.timeout == 0)
  {
    PollReportsIff(cfg, s, id, now);
    var ns := PollKey(cfg, s, id, now).1;
    if ns != [] {
      PollReport(cfg, s, id, now);
      assert ns[1..] == [];
    }
  }

  lemma PollAround(cfg: Config, s: Tracker, order: seq<Address>, k: nat, now: int, id: Address)
    requires Sound(s) && k < |order|
    ensures var (s1, ns1) := PollAll(cfg, s, order[..k], now);
            var (s2, ns2) := PollKey(cfg, s1, order[k], now);
            var (s3, ns3) := PollAll(cfg, s2, order[k + 1..], now);
            var (z, ns) := PollAll(cfg, s, order, now);
            z == s3 && Reports(ns, id) == Reports(ns1, id) + Reports(ns2, id) + Reports(ns3, id)
  {
    var (s1, ns1) := PollAll(cfg, s, order[..k], now);
    var (s2, ns2) := PollKey(cfg, s1, order[k], now);
    PollOneMore(cfg, s, order, k, now);
    assert order == order[..k + 1] + order[k + 1..];
    PollSplits(cfg, s, order[..k + 1], order[k + 1..], now);
    ReportsAppend(ns1, ns2, id);
    ReportsAppend(ns1 + ns2, PollAll(cfg, s2, order[k + 1..], now).1, id);
  }

  lemma WholePoll(cfg: Config, s: Tracker, order: seq<Address>, now: int, id: Address, retries: nat, last: int)
    requires Sound(s) && Stands(s, id, retries, last) && Once(order, id)
    ensures var (z, ns) := PollAll(cfg, s, order, now);
            Polled(z, ns, id, retries, last, now, now - last >= cfg.timeout || cfg.timeout == 0)
  {
    var k :| 0 <= k < |order| && order[k] == id && id !in order[..k] && id !in order[k + 1..];
    var s1 := PollAll(cfg, s, order[..k], now).0;
    var s2 := PollKey(cfg, s1, id, now).0;
    PollAround(cfg, s, order, k, now, id);
    PollOthers(cfg, s, order[..k], now, id);
    OnePoll(cfg, s1, id, now, retries, last);
    PollOthers(cfg, s2, order[k + 1..], now, id);
  }

  lemma {:induction false} GoneStaysGone(cfg: Config, s: Tracker, events: seq<Event>, id: Address)
    requires Sound(s) && id !in s.incoming && Starving(events, id)
    ensures Reports(Run(cfg, s, events).1, id) == [] && id !in Run(cfg, s, events).0.incoming
    decreases |events|
  {
    if events != [] {
      var (s1, ns1) := Step(cfg, s, events[0]);
      GoneStep(cfg, s, events[0], id);
      GoneStaysGone(cfg, s1, events[1..], id);
      ReportsAppend(ns1, Run(cfg, s1, events[1..]).1, id);
    }
  }

  lemma GoneStep(cfg: Config, s: Tracker, e: Event, id: Address)
    requires Sound(s) && id !in s.incoming && Foreign(e, id)
    ensures Reports(Step(cfg, s, e).1, id) == [] && id !in Step(cfg, s, e).0.incoming
  {
    if e.Poll? {
      GonePolls(cfg, s, e.order, e.now, id);
    } else {
      var ns := Step(cfg, s, e).1;
      assert |ns| == 1 && ns[1..] == [];
    }
  }

  lemma {:induction false} GonePolls(cfg: Config, s: Tracker, order: seq<Address>, now: int, id: Address)
    requires Sound(s) && id !in s.incoming
    ensures Reports(PollAll(cfg, s, order, now).1, id) == [] && id !in PollAll(cfg, s, order, now).0.incoming
    decreases |order|
  {
    if order != [] {
      var (s1, ns1) := PollKey(cfg, s, order[0], now);
      GonePolls(cfg, s1, order[1..], now, id);
      assert Reports(ns1, id) == [];
      ReportsAppend(ns1, PollAll(cfg, s1, order[1..], now).1, id);
    }
  }

  lemma ForeignStep(cfg: Config, s: Tracker, e: Event, id: Address, retries: nat, last: int)
    requires Sound(s) && Stands(s, id, retries, last) && Foreign(e, id)
    ensures var (z, ns) := Step(cfg, s, e);
            Polled(z, ns, id, retries, last, if e.Poll? then e.now else 0, IsDue(cfg.timeout, e, last))
  {
    if e.Poll? {
      WholePoll(cfg, s, e.order, e.now, id, retries, last);
    } else {
      var ns := Step(cfg, s, e).1;
      assert |ns| == 1 && ns[1..] == [];
    }
  }

  lemma FirstReports(cfg: Config, s: Tracker, events: seq<Event>, id: Address)
    requires Sound(s) && events != []
    ensures var (s1, ns1) := Step(cfg, s, events[0]);
            && Run(cfg, s, events).0 == Run(cfg, s1, events[1..]).0
            && Reports(Run(cfg, s, events).1, id) == Reports(ns1, id) + Reports(Run(cfg, s1, events[1..]).1, id)
  {
    var (s1, ns1) := Step(cfg, s, events[0]);
    ReportsAppend(ns1, Run(cfg, s1, events[1..]).1, id);
  }

  /** The reports of the given number of due polls, and whether the assembly is still there. */
  ghost predicate StarvedBy(polls: nat, retries: nat, reports: seq<bool>, alive: bool) {
    reports == ExpectedReports(polls, retries) && (alive <==> polls <= 3 - retries)
  }

  lemma StarvedOnce(due: bool, polls: nat, retries: nat, first: seq<bool>, later: seq<bool>, alive: bool)
    requires retries <= 3 && first == if due then [retries >= 3] else []
    requires if !due then StarvedBy(polls, retries, later, alive)
             else if retries < 3 then StarvedBy(polls, retries + 1, later, alive)
             else later == [] && !alive
    ensures StarvedBy(if due then polls + 1 else polls, retries, first + later, alive)
  {
    assert [] + later == later;
  }

  /**
   * A resource of which nothing more is heard: the polls that find the timeout over ask for it, three times in all,
   * and the next one gives it up, whatever earlier polls and traffic of other resources there are in between.
   */
  lemma {:induction false} StarvedFails(
    cfg: Config, s: Tracker, events: seq<Event>, id: Address, retries: nat, last: int)
    requires Sound(s) && Stands(s, id, retries, last) && retries <= 3 && Starving(events, id)
    ensures StarvedBy(DuePolls(cfg.timeout, events, last), retries, Reports(Run(cfg, s, events).1, id),
                      id in Run(cfg, s, events).0.incoming)
    decreases |events|
  {
    if events != [] {
      var e, rest, due := events[0], events[1..], IsDue(cfg.timeout, events[0], last);
      var s1, first := Step(cfg, s, e).0, Reports(Step(cfg, s, e).1, id);
      var later, alive := Reports(Run(cfg, s1, rest).1, id), id in Run(cfg, s1, rest).0.incoming;
      ForeignStep(cfg, s, e, id, retries, last);
      if !due {
        StarvedFails(cfg, s1, rest, id, retries, last);
      } else if retries < 3 {
        StarvedFails(cfg, s1, rest, id, retries + 1, e.now);
      } else {
        GoneStaysGone(cfg, s1, rest, id);
      }
      StarvedOnce(due, DuePolls(cfg.timeout, rest, if due then e.now else last), retries, first, later, alive);
      FirstReports(cfg, s, events, id);
    }
  }

  // ---------------------------------------------------------------------------------------------
  // Recovery: one timeout, one request, one answer

  /** ResourceSendState::handle_request: every part whose map hash was asked for. */
  function Matching(cfg: Config, parts: seq<Part>, hashes: seq<MapHash>): seq<Part> {
    if parts == [] then []
    else Matching(cfg, parts[..|parts| - 1], hashes)
         + (if ComputeMapHash(cfg.sha, parts[|parts| - 1].data) in hashes then [parts[|parts| - 1]] else [])
  }

  function HandleRequest(cfg: Config, resourceId: Address, parts: seq<Part>, request: Request): seq<Part> {
    if request.resourceId != resourceId || request.requestedHashes == [] then []
    else Matching(cfg, parts, request.requestedHashes)
  }

  /** The answer holds exactly the parts whose hash was asked for, and nothing for another resource. */
  lemma AnsweredIff(cfg: Config, resourceId: Address, parts: seq<Part>, request: Request, p: Part)
    ensures p in HandleRequest(cfg, resourceId, parts, request) <==>
              && request.resourceId == resourceId && p in parts
              && ComputeMapHash(cfg.sha, p.data) in request.requestedHashes
  {
    MatchingMembers(cfg, parts, request.requestedHashes, p);
  }

  /** The request a node sends for a timeout that has not failed (lxmf-rs/src/rns/transport.rs). */
  function RequestFor(t: Timeout): Request {
    Request(t.resourceId, t.hashmapExhausted, t.lastMapHash, t.requestedHashes)
  }

  lemma {:induction false} MatchingMembers(cfg: Config, parts: seq<Part>, hashes: seq<MapHash>, p: Part)
    ensures p in Matching(cfg, parts, hashes) <==> p in parts && ComputeMapHash(cfg.sha, p.data) in hashes
  {
    if parts != [] {
      var m := |parts| - 1;
      MatchingMembers(cfg, parts[..m], hashes, p);
      assert parts == parts[..m] + [parts[m]];
    }
  }

  lemma {:induction false} RequestedMembers(a: Assembly, n: nat, i: nat)
    requires i < n <= |a.received| == |a.hashmap|
    requires a.received[i].None? && a.hashmap[i].Some?
    ensures a.hashmap[i].value in RequestedHashes(a, n)
  {
    if i < n - 1 {
      RequestedMembers(a, n - 1, i);
    }
  }

  /** Every slot's hash is known and right. */
  ghost predicate FullMap(cfg: Config, t: Transfer, a: Assembly)
    requires t.size > 0
  {
    var chunks := Chunks(t.data, t.size);
    |a.hashmap| == |chunks| && forall i :: 0 <= i < |chunks| ==>
        a.hashmap[i] == Some(ComputeMapHash(cfg.sha, chunks[i]))
  }

  ghost function Answer(cfg: Config, t: Transfer, request: Request): seq<Part>
    requires t.size > 0
  {
    var wire := DecodeRequest(EncodeRequest(request));
    if wire.Err? then [] else HandleRequest(cfg, t.advert.resourceId, PartsOf(cfg.sha, t.data, t.size), wire.value)
  }

  /** The answer to a request with a full map contains every missing part, even if map hashes collide. */
  lemma AnswerCoversMissing(cfg: Config, t: Transfer, a: Assembly)
    requires Sent(cfg, t) && SoundAssembly(a) && GenuineAssembly(t, a) && FullMap(cfg, t, a)
    ensures var parts := PartsOf(cfg.sha, t.data, t.size);
            var answer := Answer(cfg, t, RequestFor(TimeoutOf(t.advert.resourceId, a, false)));
            && (forall p :: p in answer ==> p in parts)
            && (forall i :: 0 <= i < |parts| && a.received[i].None? ==> parts[i] in answer)
  {
    var parts := PartsOf(cfg.sha, t.data, t.size);
    var timeout := TimeoutOf(t.advert.resourceId, a, false);
    var hashes := timeout.requestedHashes;
    RequestRoundTrip(RequestFor(timeout));
    var answer := Answer(cfg, t, RequestFor(timeout));
    forall p | p in answer
      ensures p in parts
    {
      MatchingMembers(cfg, parts, hashes, p);
    }
    forall i | 0 <= i < |parts| && a.received[i].None?
      ensures parts[i] in answer
    {
      RequestedMembers(a, |a.received|, i);
      MatchingMembers(cfg, parts, hashes, parts[i]);
    }
  }

  lemma AnswerFillsAll(t: Transfer, a: Assembly, parts: seq<Part>, answer: seq<Part>)
    requires |parts| == a.totalParts == |a.received|
    requires forall i :: 0 <= i < |parts| ==> parts[i].index == i
    requires forall i :: 0 <= i < |parts| && a.received[i].None? ==> parts[i] in answer
    requires forall p :: p in answer ==> p in parts
    ensures Full(a, answer)
  {
    forall i | 0 <= i < a.totalParts
      ensures i in Reached(a, answer)
    {
      if a.received[i].None? {
        var k :| 0 <= k < |answer| && answer[k] == parts[i];
        assert answer[k].index as int in Indices(answer);
      }
    }
    forall x | x in Indices(answer)
      ensures x in Range(a.totalParts)
    {
      var k :| 0 <= k < |answer| && answer[k].index as int == x;
      assert answer[k] in parts;
    }
  }

  /** A timeout of a live assembly with retries left keeps the assembly and asks for what it lacks. */
  lemma TimeoutAsks(cfg: Config, t: Transfer, s: Tracker, now: int)
    requires Sent(cfg, t) && Sound(s) && Genuine(cfg, t, s) && t.advert.resourceId in s.incoming
    requires var a := s.incoming[t.advert.resourceId];
             FullMap(cfg, t, a) && Hit(cfg, a, now) && a.retries < MAX_RETRIES
    ensures var rid := t.advert.resourceId;
            var (s1, ns) := PollKey(cfg, s, rid, now);
            && Sound(s1) && Genuine(cfg, t, s1) && rid in s1.incoming && FullMap(cfg, t, s1.incoming[rid])
            && ns == [TimedOut(TimeoutOf(rid, s1.incoming[rid], false))]
            && !ns[0].timeout.hashmapExhausted
  {
  }

  ghost predicate CompletesOnce(t: Transfer, ns: seq<Notice>) {
    exists k :: 0 <= k < |ns| && ns[k].Complete? && ns[k].data == t.data[..AsU32(|t.data|)]
      && forall j :: 0 <= j < |ns| && j != k ==> !ns[j].Complete?
  }

  /** The answer to a request made with a full map completes the assembly. */
  lemma AnswerCompletes(cfg: Config, t: Transfer, s: Tracker, now: int)
    requires Sent(cfg, t) && Fits(t) && Sound(s) && Genuine(cfg, t, s) && t.advert.resourceId in s.incoming
    requires FullMap(cfg, t, s.incoming[t.advert.resourceId])
    ensures var rid := t.advert.resourceId;
            var answer := Answer(cfg, t, RequestFor(TimeoutOf(rid, s.incoming[rid], false)));
            rid !in Feed(cfg, s, answer, now).0.incoming && CompletesOnce(t, Feed(cfg, s, answer, now).1)
  {
    var rid := t.advert.resourceId;
    var a := s.incoming[rid];
    AnswerCoversMissing(cfg, t, a);
    var answer := Answer(cfg, t, RequestFor(TimeoutOf(rid, a, false)));
    AnswerFillsAll(t, a, PartsOf(cfg.sha, t.data, t.size), answer);
    FeedCompletes(cfg, t, s, answer, now);
    CountDecides(a.received);
    FullIsStable(a, answer);
    CrossedOnce(t, FullAfter(a, answer), Feed(cfg, s, answer, now).1);
  }

  /**
   * One loss-free round completes any resource: a timeout with retries left yields one request; encoded,
   * decoded and answered by the sender, it brings back parts whose delivery completes the assembly.
   */
  lemma RecoveryRound(cfg: Config, t: Transfer, s: Tracker, now: int, later: int)
    requires Sent(cfg, t) && Fits(t) && Sound(s) && Genuine(cfg, t, s) && t.advert.resourceId in s.incoming
    requires var a := s.incoming[t.advert.resourceId];
             FullMap(cfg, t, a) && Hit(cfg, a, now) && a.retries < MAX_RETRIES
    ensures var (s1, ns) := PollKey(cfg, s, t.advert.resourceId, now);
            && Sound(s1)
            && |ns| == 1 && ns[0].TimedOut? && !ns[0].timeout.failed
            && var (s2, reports) := Feed(cfg, s1, Answer(cfg, t, RequestFor(ns[0].timeout)), later);
               t.advert.resourceId !in s2.incoming && CompletesOnce(t, reports)
  {
    TimeoutAsks(cfg, t, s, now);
    AnswerCompletes(cfg, t, PollKey(cfg, s, t.advert.resourceId, now).0, later);
  }

  /** What a prefix fills, the whole fills; so fullness, once entered, is not left. */
  lemma FullIsStable(a: Assembly, parts: seq<Part>)
    requires Filled(a.received) != Range(a.totalParts) && Full(a, parts)
    ensures var full := FullAfter(a, parts);
            !full[0] && full[|parts|] && forall j, k :: 0 <= j <= k <= |parts| && full[j] ==> full[k]
  {
    assert parts[..|parts|] == parts && Indices(parts[..0]) == {};
    assert Reached(a, parts[..0]) == Filled(a.received);
    forall j, k | 0 <= j <= k <= |parts| && Full(a, parts[..j])
      ensures Full(a, parts[..k])
    {
      ReachedMonotone(a, parts, j, k);
      ReachedMonotone(a, parts, k, |parts|);
    }
  }

  lemma ReachedMonotone(a: Assembly, parts: seq<Part>, j: nat, k: nat)
    requires j <= k <= |parts|
    ensures Reached(a, parts[..j]) <= Reached(a, parts[..k])
  {
    forall x | x in Indices(parts[..j])
      ensures x in Indices(parts[..k])
    {
      var i :| 0 <= i < j && parts[..j][i].index as int == x;
      assert parts[..k][i] == parts[..j][i];
    }
  }

  lemma {:induction false} FirstTrue(full: seq<bool>, n: nat) returns (k: nat)
    requires n < |full| && !full[0] && full[n]
    ensures k < n && TurnsTrue(full, k)
  {
    if full[n - 1] {
      k := FirstTrue(full, n - 1);
    } else {
      k := n - 1;
    }
  }

  /** Once full, always full: so exactly one arrival reports completion. */
  lemma CrossedOnce(t: Transfer, full: seq<bool>, ns: seq<Notice>)
    requires ReportsCrossing(t, full, ns)
    requires !full[0] && full[|ns|] && forall j, k :: 0 <= j <= k < |full| && full[j] ==> full[k]
    ensures CompletesOnce(t, ns)
  {
    var k := FirstTrue(full, |ns|);
    assert ns[k].Complete?;
    forall j | 0 <= j < |ns| && j != k
      ensures !TurnsTrue(full, j)
    {
      if j < k {
        assert !full[j + 1];
      } else {
        assert full[j];
      }
    }
  }

  /** Whatever parts arrive, in whatever order, a wrapped part size never completes. */
  lemma {:induction false} WrappedNeverCompletes(cfg: Config, t: Transfer, s: Tracker, parts: seq<Part>, now: int)
    requires Sent(cfg, t) && !Fits(t) && Sound(s) && Genuine(cfg, t, s)
    requires forall k :: 0 <= k < |parts| ==> parts[k] in PartsOf(cfg.sha, t.data, t.size)
    ensures Genuine(cfg, t, Feed(cfg, s, parts, now).0)
    ensures forall k :: 0 <= k < |parts| ==> !Feed(cfg, s, parts, now).1[k].Complete?
    decreases |parts|
  {
    if parts != [] {
      var m := |parts| - 1;
      WrappedNeverCompletes(cfg, t, s, parts[..m], now);
      PartKeepsGenuine(cfg, t, Feed(cfg, s, parts[..m], now).0, parts[m], now);
    }
  }

  /** One byte sent with a part size of 2^32 is accepted and never completes, at any receiver. */
  lemma WrappedSizeExample(cfg: Config, s: Tracker, link: Address, requestId: Option<Address>, now: int)
    requires Sound(s) && ResourceId(cfg.sha, [7]) !in s.completed
    ensures var t := Transfer([7], U32_SIZE, AdvertOf(cfg.sha, [7], U32_SIZE, requestId, false, false));
            var s1 := HandleAdvertisement(s, t.advert, link, now).0;
            && Sent(cfg, t) && Sound(s1) && t.advert.resourceId in s1.incoming
            && var reports := Feed(cfg, s1, PartsOf(cfg.sha, t.data, t.size), now).1;
               |reports| == 1 && !reports[0].Complete?
  {
    var t := Transfer([7], U32_SIZE, AdvertOf(cfg.sha, [7], U32_SIZE, requestId, false, false));
    assert AsU32(U32_SIZE) == 0 && Chunks([7], U32_SIZE) == [[7]];
    AcceptedIsGenuine(cfg, t, s, link, now);
    WrappedNeverCompletes(cfg, t, HandleAdvertisement(s, t.advert, link, now).0, PartsOf(cfg.sha, t.data, t.size), now);
  }

  /** A part size beyond 32 bits does no harm as long as what is left of it holds the longest part. */
  lemma WrappedSizeMayFit(advert: Advertisement)
    ensures Fits(Transfer([1, 2, 3], U32_SIZE + 5, advert))
  {
  }

  lemma AcceptedIsGenuine(cfg: Config, t: Transfer, s: Tracker, link: Address, now: int)
    requires Sent(cfg, t) && t.data != [] && Sound(s) && t.advert.resourceId !in s.completed
    ensures var (s1, n) := HandleAdvertisement(s, t.advert, link, now);
            && n == Accepted(t.advert.resourceId)
            && Sound(s1) && Genuine(cfg, t, s1) && t.advert.resourceId in s1.incoming
  {
    ChunksFacts(t.data, t.size);
    FreshSound(t.advert, link, now);
  }

  lemma AllPartsComplete(cfg: Config, t: Transfer, s: Tracker, parts: seq<Part>, now: int)
    requires Sent(cfg, t) && Fits(t) && Sound(s) && Genuine(cfg, t, s) && t.advert.resourceId in s.incoming
    requires forall k :: 0 <= k < |parts| ==> parts[k] in PartsOf(cfg.sha, t.data, t.size)
    requires forall p :: p in PartsOf(cfg.sha, t.data, t.size) ==> p in parts
    ensures CompletesOnce(t, Feed(cfg, s, parts, now).1)
  {
    var a := s.incoming[t.advert.resourceId];
    AnswerFillsAll(t, a, PartsOf(cfg.sha, t.data, t.size), parts);
    FeedCompletes(cfg, t, s, parts, now);
    CountDecides(a.received);
    FullIsStable(a, parts);
    CrossedOnce(t, FullAfter(a, parts), Feed(cfg, s, parts, now).1);
  }

  /**
   * From the advertisement on: a resource that is not in the cache of finished ones is accepted, and any
   * sequence of its parts that contains every index completes it exactly once if and only if its longest part
   * is no longer than its part size modulo 2^32, which is what the advertisement carries.
   */
  lemma DeliveryIffFits(cfg: Config, t: Transfer, s: Tracker, link: Address, parts: seq<Part>, now: int)
    requires Sent(cfg, t) && t.data != [] && Sound(s) && t.advert.resourceId !in s.completed
    requires forall k :: 0 <= k < |parts| ==> parts[k] in PartsOf(cfg.sha, t.data, t.size)
    requires forall p :: p in PartsOf(cfg.sha, t.data, t.size) ==> p in parts
    ensures var (s1, n) := HandleAdvertisement(s, t.advert, link, now);
            && n == Accepted(t.advert.resourceId) && Sound(s1)
            && (CompletesOnce(t, Feed(cfg, s1, parts, now).1) <==> Fits(t))
  {
    AcceptedIsGenuine(cfg, t, s, link, now);
    var s1 := HandleAdvertisement(s, t.advert, link, now).0;
    if Fits(t) {
      AllPartsComplete(cfg, t, s1, parts, now);
    } else {
      WrappedNeverCompletes(cfg, t, s1, parts, now);
    }
  }

  function MapHashes(cfg: Config, parts: seq<Part>): (h: seq<MapHash>)
    ensures |h| == |parts| && forall i :: 0 <= i < |h| ==> h[i] == ComputeMapHash(cfg.sha, parts[i].data)
  {
    seq(|parts|, i requires 0 <= i < |parts| => ComputeMapHash(cfg.sha, parts[i].data))
  }

  lemma {:induction false} FlattenedHashAt(hashes: seq<MapHash>, i: nat)
    requires i < |hashes|
    ensures |Flatten(hashes)| == 4 * |hashes| && Flatten(hashes)[4 * i..4 * i + 4] == hashes[i]
  {
    var rest := Flatten(hashes[1..]);
    assert Flatten(hashes) == hashes[0] + rest;
    if i > 0 {
      FlattenedHashAt(hashes[1..], i - 1);
      assert Flatten(hashes)[4 * i..4 * i + 4] == rest[4 * (i - 1)..4 * (i - 1) + 4];
    } else if |hashes| > 1 {
      FlattenedHashAt(hashes[1..], 0);
    } else {
      assert hashes[1..] == [];
    }
  }

  ghost function HashesOf(cfg: Config, t: Transfer): (h: seq<MapHash>)
    requires Sent(cfg, t)
    ensures |h| == |Chunks(t.data, t.size)|
  {
    MapHashes(cfg, PartsOf(cfg.sha, t.data, t.size))
  }

  /** The receiver's map holds the right hash for part i. */
  ghost predicate Knows(cfg: Config, t: Transfer, a: Assembly, i: int)
    requires Sent(cfg, t)
  {
    0 <= i < |HashesOf(cfg, t)| == |a.hashmap| && a.hashmap[i] == Some(HashesOf(cfg, t)[i])
  }

  /** An update that carries the hashes lo to hi (exclusive) under a segment number. */
  datatype Stretch = Stretch(segment: u32, lo: nat, hi: nat)

  /** Whether it is written where it belongs: the receiver multiplies the number by the update's own length. */
  predicate Placed(u: Stretch) {
    u.lo <= u.hi && u.lo == u.segment * (u.hi - u.lo)
  }

  ghost predicate Within(cfg: Config, t: Transfer, u: Stretch)
    requires Sent(cfg, t)
  {
    u.lo <= u.hi <= |HashesOf(cfg, t)|
  }

  ghost function SegmentUpdate(cfg: Config, t: Transfer, s: Tracker, u: Stretch, now: int): (Tracker, Notice)
    requires Sent(cfg, t) && Within(cfg, t, u)
  {
    HandleHashUpdate(s, t.advert.resourceId, u.segment, Flatten(HashesOf(cfg, t)[u.lo..u.hi]), now)
  }

  lemma SegmentBytes(hashes: seq<MapHash>)
    ensures |Flatten(hashes)| == 4 * |hashes|
  {
    if hashes != [] {
      FlattenedHashAt(hashes, 0);
    }
  }

  /** Entry j of a map with `hashes` written over it from `start`. */
  function Laid(hashmap: seq<Option<MapHash>>, start: nat, hashes: seq<MapHash>, j: nat): Option<MapHash>
    requires j < |hashmap|
  {
    if start <= j < start + |hashes| then Some(hashes[j - start]) else hashmap[j]
  }

  lemma {:induction false} OverlayCell(hashmap: seq<Option<MapHash>>, start: nat, hashes: seq<MapHash>, j: nat)
    requires j < |hashmap|
    ensures Overlay(hashmap, start, Flatten(hashes))[j] == Laid(hashmap, start, hashes, j)
  {
    SegmentBytes(hashes);
    if start <= j < start + |hashes| {
      FlattenedHashAt(hashes, j - start);
      assert Flatten(hashes)[(j - start) * 4..(j - start) * 4 + 4] == hashes[j - start];
    }
  }

  lemma {:induction false} OverlayCells(hashmap: seq<Option<MapHash>>, start: nat, hashes: seq<MapHash>)
    ensures forall j :: 0 <= j < |hashmap| ==>
              Overlay(hashmap, start, Flatten(hashes))[j] == Laid(hashmap, start, hashes, j)
  {
    forall j | 0 <= j < |hashmap|
      ensures Overlay(hashmap, start, Flatten(hashes))[j] == Laid(hashmap, start, hashes, j)
    {
      OverlayCell(hashmap, start, hashes, j);
    }
  }

  /** An update is laid over the map from segment times its own length. */
  lemma UpdateLaidOver(cfg: Config, t: Transfer, s: Tracker, u: Stretch, now: int, start: nat)
    requires Sent(cfg, t) && Sound(s) && Genuine(cfg, t, s) && t.advert.resourceId in s.incoming && Within(cfg, t, u)
    requires start == u.segment * (u.hi - u.lo)
    ensures var rid := t.advert.resourceId;
            var (s1, n) := SegmentUpdate(cfg, t, s, u, now);
            && n == Updated(true) && Sound(s1) && Genuine(cfg, t, s1) && rid in s1.incoming
            && s1.incoming[rid].hashmap
                == Overlay(s.incoming[rid].hashmap, start, Flatten(HashesOf(cfg, t)[u.lo..u.hi]))
  {
    var bytes := Flatten(HashesOf(cfg, t)[u.lo..u.hi]);
    SegmentBytes(HashesOf(cfg, t)[u.lo..u.hi]);
    assert |bytes| % 4 == 0 && |bytes| / 4 == u.hi - u.lo;
    UpdateKeeps(cfg, t, s, u.segment, bytes, now, start);
  }

  lemma UpdateKeeps(cfg: Config, t: Transfer, s: Tracker, segment: u32, bytes: seq<byte>, now: int, start: nat)
    requires Sent(cfg, t) && Sound(s) && Genuine(cfg, t, s) && t.advert.resourceId in s.incoming
    requires |bytes| % 4 == 0 && start == segment * (|bytes| / 4)
    ensures var rid := t.advert.resourceId;
            var (s1, n) := HandleHashUpdate(s, rid, segment, bytes, now);
            && n == Updated(true) && Sound(s1) && Genuine(cfg, t, s1) && rid in s1.incoming
            && s1.incoming[rid].hashmap == Overlay(s.incoming[rid].hashmap, start, bytes)
  {
  }

  ghost predicate KnowsAll(cfg: Config, t: Transfer, a: Assembly, lo: int, hi: int)
    requires Sent(cfg, t)
  {
    forall i :: lo <= i < hi ==> Knows(cfg, t, a, i)
  }

  /** Laid over at its own place, a stretch of the map is right and disturbs nothing that was right. */
  lemma PlacedStretch(cfg: Config, t: Transfer, a: Assembly, b: Assembly, lo: nat, hi: nat)
    requires Sent(cfg, t) && lo <= hi <= |HashesOf(cfg, t)| == |a.hashmap|
    requires b.hashmap == Overlay(a.hashmap, lo, Flatten(HashesOf(cfg, t)[lo..hi]))
    ensures KnowsAll(cfg, t, b, lo, hi)
    ensures forall i :: Knows(cfg, t, a, i) ==> Knows(cfg, t, b, i)
  {
    OverlayCells(a.hashmap, lo, HashesOf(cfg, t)[lo..hi]);
  }

  lemma PlacedUpdate(cfg: Config, t: Transfer, s: Tracker, u: Stretch, now: int)
    requires Sent(cfg, t) && Sound(s) && Genuine(cfg, t, s) && t.advert.resourceId in s.incoming
    requires Within(cfg, t, u) && Placed(u)
    ensures var rid := t.advert.resourceId;
            var s1 := SegmentUpdate(cfg, t, s, u, now).0;
            && Sound(s1) && Genuine(cfg, t, s1) && rid in s1.incoming
            && KnowsAll(cfg, t, s1.incoming[rid], u.lo, u.hi)
            && forall i :: Knows(cfg, t, s.incoming[rid], i) ==> Knows(cfg, t, s1.incoming[rid], i)
  {
    var rid := t.advert.resourceId;
    UpdateLaidOver(cfg, t, s, u, now, u.lo);
    PlacedStretch(cfg, t, s.incoming[rid], SegmentUpdate(cfg, t, s, u, now).0.incoming[rid], u.lo, u.hi);
  }

  /**
   * On the receiver's map: an update makes the hashes it carries known, where they were not, if and only if its
   * first index is its segment number times its own length.
   */
  lemma UpdateKnownIff(cfg: Config, t: Transfer, s: Tracker, u: Stretch, now: int)
    requires Sent(cfg, t) && Sound(s) && Genuine(cfg, t, s) && t.advert.resourceId in s.incoming
    requires Within(cfg, t, u) && u.lo < u.hi
    requires var a := s.incoming[t.advert.resourceId]; a.hashmap[u.lo].None? && a.hashmap[u.hi - 1].None?
    ensures var s1 := SegmentUpdate(cfg, t, s, u, now).0;
            && t.advert.resourceId in s1.incoming
            && (KnowsAll(cfg, t, s1.incoming[t.advert.resourceId], u.lo, u.hi) <==> Placed(u))
  {
    var start := u.segment * (u.hi - u.lo);
    assert Placed(u) <==> start == u.lo;
    KnownIffAt(cfg, t, s, u, now, start);
  }

  lemma KnownIffAt(cfg: Config, t: Transfer, s: Tracker, u: Stretch, now: int, start: nat)
    requires Sent(cfg, t) && Sound(s) && Genuine(cfg, t, s) && t.advert.resourceId in s.incoming
    requires Within(cfg, t, u) && u.lo < u.hi && start == u.segment * (u.hi - u.lo)
    requires var a := s.incoming[t.advert.resourceId]; a.hashmap[u.lo].None? && a.hashmap[u.hi - 1].None?
    ensures var s1 := SegmentUpdate(cfg, t, s, u, now).0;
            && t.advert.resourceId in s1.incoming
            && (KnowsAll(cfg, t, s1.incoming[t.advert.resourceId], u.lo, u.hi) <==> start == u.lo)
  {
    var rid := t.advert.resourceId;
    UpdateLaidOver(cfg, t, s, u, now, start);
    var b := SegmentUpdate(cfg, t, s, u, now).0.incoming[rid];
    if start == u.lo {
      PlacedStretch(cfg, t, s.incoming[rid], b, u.lo, u.hi);
    } else {
      MisplacedStretch(cfg, t, s.incoming[rid], b, u.lo, u.hi, start);
    }
  }

  /** Laid over anywhere else, it leaves one of its own ends out. */
  lemma MisplacedStretch(cfg: Config, t: Transfer, a: Assembly, b: Assembly, lo: nat, hi: nat, start: nat)
    requires Sent(cfg, t) && lo < hi <= |HashesOf(cfg, t)| == |a.hashmap| && start != lo
    requires a.hashmap[lo].None? && a.hashmap[hi - 1].None?
    requires b.hashmap == Overlay(a.hashmap, start, Flatten(HashesOf(cfg, t)[lo..hi]))
    ensures !KnowsAll(cfg, t, b, lo, hi)
  {
    var end := if start > lo then lo else hi - 1;
    OverlayCell(a.hashmap, start, HashesOf(cfg, t)[lo..hi], end);
    assert !Knows(cfg, t, b, end);
  }

  ghost predicate AllPlaced(cfg: Config, t: Transfer, us: seq<Stretch>)
    requires Sent(cfg, t)
  {
    forall k :: 0 <= k < |us| ==> Within(cfg, t, us[k]) && Placed(us[k])
  }

  /** Updates one after the other. */
  ghost function Updates(cfg: Config, t: Transfer, s: Tracker, us: seq<Stretch>, now: int): Tracker
    requires Sent(cfg, t) && AllPlaced(cfg, t, us)
    decreases |us|
  {
    if us == [] then s else Updates(cfg, t, SegmentUpdate(cfg, t, s, us[0], now).0, us[1..], now)
  }

  lemma {:induction false} UpdatesKnown(cfg: Config, t: Transfer, s: Tracker, us: seq<Stretch>, now: int)
    requires Sent(cfg, t) && Sound(s) && Genuine(cfg, t, s)
    requires t.advert.resourceId in s.incoming && AllPlaced(cfg, t, us)
    ensures var rid := t.advert.resourceId;
            var z := Updates(cfg, t, s, us, now);
            && Sound(z) && Genuine(cfg, t, z) && rid in z.incoming
            && (forall i :: Knows(cfg, t, s.incoming[rid], i) ==> Knows(cfg, t, z.incoming[rid], i))
            && forall k :: 0 <= k < |us| ==> KnowsAll(cfg, t, z.incoming[rid], us[k].lo, us[k].hi)
    decreases |us|
  {
    if us != [] {
      var rid := t.advert.resourceId;
      PlacedUpdate(cfg, t, s, us[0], now);
      UpdatesKnown(cfg, t, SegmentUpdate(cfg, t, s, us[0], now).0, us[1..], now);
      var z := Updates(cfg, t, s, us, now);
      forall k | 0 <= k < |us|
        ensures KnowsAll(cfg, t, z.incoming[rid], us[k].lo, us[k].hi)
      {
        assert k > 0 ==> us[1..][k - 1] == us[k];
      }
    }
  }

  ghost predicate Covered(us: seq<Stretch>, i: int) {
    exists k :: 0 <= k < |us| && us[k].lo <= i < us[k].hi
  }

  /**
   * Updates that are placed right and together cover the map, in any order and with repeats, give the receiver
   * the full map that the recovery round needs.
   */
  lemma PlacedUpdatesGiveFullMap(cfg: Config, t: Transfer, s: Tracker, us: seq<Stretch>, now: int)
    requires Sent(cfg, t) && Sound(s) && Genuine(cfg, t, s)
    requires t.advert.resourceId in s.incoming && AllPlaced(cfg, t, us)
    requires forall i :: 0 <= i < |HashesOf(cfg, t)| ==> Covered(us, i)
    ensures var z := Updates(cfg, t, s, us, now);
            && Sound(z) && Genuine(cfg, t, z) && t.advert.resourceId in z.incoming
            && FullMap(cfg, t, z.incoming[t.advert.resourceId])
  {
    UpdatesKnown(cfg, t, s, us, now);
    var a := Updates(cfg, t, s, us, now).incoming[t.advert.resourceId];
    var chunks := Chunks(t.data, t.size);
    assert |a.hashmap| == |chunks|;
    forall i | 0 <= i < |chunks|
      ensures a.hashmap[i] == Some(ComputeMapHash(cfg.sha, chunks[i]))
    {
      assert Covered(us, i);
      var k :| 0 <= k < |us| && us[k].lo <= i < us[k].hi;
      assert KnowsAll(cfg, t, a, us[k].lo, us[k].hi);
      assert Knows(cfg, t, a, i);
    }
  }

  /** One update carrying the whole map is the simplest case. */
  lemma WholeUpdateGivesFullMap(cfg: Config, t: Transfer, s: Tracker, now: int)
    requires Sent(cfg, t) && Sound(s) && Genuine(cfg, t, s) && t.advert.resourceId in s.incoming
    ensures var (s1, n) := SegmentUpdate(cfg, t, s, Stretch(0, 0, |HashesOf(cfg, t)|), now);
            && n == Updated(true) && Genuine(cfg, t, s1) && t.advert.resourceId in s1.incoming
            && FullMap(cfg, t, s1.incoming[t.advert.resourceId])
  {
    var u := Stretch(0, 0, |HashesOf(cfg, t)|);
    forall i | 0 <= i < |HashesOf(cfg, t)|
      ensures Covered([u], i)
    {
      assert [u][0].lo <= i < [u][0].hi;
    }
    PlacedUpdatesGiveFullMap(cfg, t, s, [u], now);
    UpdateLaidOver(cfg, t, s, u, now, 0);
    assert Updates(cfg, t, SegmentUpdate(cfg, t, s, u, now).0, [], now) == SegmentUpdate(cfg, t, s, u, now).0;
    assert [u][1..] == [];
  }

  /** Behind g segments of m hashes, one of r hashes is placed right iff it is the first or as long as the others. */
  lemma SegmentPlacedIff(g: u32, m: nat, r: nat)
    requires 0 < r <= m
    ensures Placed(Stretch(g, g * m, g * m + r)) <==> g == 0 || r == m
  {
    ShorterFallsShort(g, m, r);
  }

  /** And if it is the last one, it reaches the entry of the last part only then. */
  lemma LastSegmentReachesIff(cfg: Config, t: Transfer, s: Tracker, g: u32, m: nat, r: nat, lo: nat, now: int)
    requires Sent(cfg, t) && Sound(s) && Genuine(cfg, t, s) && t.advert.resourceId in s.incoming
    requires 0 < r <= m && lo == g * m && |HashesOf(cfg, t)| == lo + r
    requires s.incoming[t.advert.resourceId].hashmap[lo + r - 1].None?
    ensures var (s1, _) := SegmentUpdate(cfg, t, s, Stretch(g, lo, lo + r), now);
            && t.advert.resourceId in s1.incoming && |s1.incoming[t.advert.resourceId].hashmap| == lo + r
            && (s1.incoming[t.advert.resourceId].hashmap[lo + r - 1].Some? <==> g == 0 || r == m)
  {
    var start := g * r;
    UpdateLaidOver(cfg, t, s, Stretch(g, lo, lo + r), now, start);
    OverlayCells(s.incoming[t.advert.resourceId].hashmap, start, HashesOf(cfg, t)[lo..lo + r]);
    ShorterFallsShort(g, m, r);
  }

  lemma ShorterFallsShort(g: nat, m: nat, r: nat)
    requires 0 < r <= m
    ensures g * r <= g * m
    ensures g * m == g * r <==> g == 0 || r == m
  {
    assert g * m - g * r == g * (m - r);
    assert g > 0 && r < m ==> g * (m - r) >= 1;
  }

  // ---------------------------------------------------------------------------------------------
  // Accounting: every accepted advertisement ends in exactly one way, within its retry budget

  /**
   * What was reported about one resource. `current` counts the non-failed timeouts since the last acceptance,
   * `worst` the most that any acceptance has seen.
   */
  datatype Ledger = Ledger(
    accepted: nat, replaced: nat, completed: nat, cancelled: nat, failed: nat, current: nat, worst: nat)

  /** Books one notice for one resource; `live` says whether it was being assembled before the step. */
  function BookOne(l: Ledger, id: Address, live: bool, n: Notice): Ledger {
    match n
    case Accepted(i) =>
      if i != id then l
      else l.(accepted := l.accepted + 1, current := 0, replaced := l.replaced + (if live then 1 else 0))
    case Complete(i, _, _, _) => if i == id then l.(completed := l.completed + 1) else l
    case Cancelled(i) => if i == id then l.(cancelled := l.cancelled + 1) else l
    case TimedOut(t) =>
      if t.resourceId != id then l
      else if t.failed then l.(failed := l.failed + 1)
      else l.(current := l.current + 1, worst := if l.worst < l.current + 1 then l.current + 1 else l.worst)
    case _ => l
  }

  function Book(l: Ledger, id: Address, live: bool, ns: seq<Notice>): Ledger
    decreases |ns|
  {
    if ns == [] then l else Book(BookOne(l, id, live, ns[0]), id, live, ns[1..])
  }

  function BookRun(cfg: Config, s: Tracker, events: seq<Event>, id: Address, l: Ledger): Ledger
    requires Sound(s)
    decreases |events|
  {
    if events == [] then l else
    var (s1, ns) := Step(cfg, s, events[0]);
    BookRun(cfg, s1, events[1..], id, Book(l, id, id in s.incoming, ns))
  }

  ghost predicate Balanced(s: Tracker, id: Address, l: Ledger) {
    var live := id in s.incoming;
    && l.accepted == l.replaced + l.completed + l.cancelled + l.failed + (if live then 1 else 0)
    && (live ==> l.current == s.incoming[id].retries)
    && l.current <= l.worst <= MAX_RETRIES
  }

  lemma PollKeyBalanced(cfg: Config, s: Tracker, key: Address, now: int, id: Address, l: Ledger, live: bool)
    requires Sound(s) && Balanced(s, id, l)
    ensures var (s1, ns) := PollKey(cfg, s, key, now);
            |ns| <= 1 && Balanced(s1, id, if ns == [] then l else BookOne(l, id, live, ns[0]))
  {
  }

  lemma {:induction false} PollBalanced(cfg: Config, s: Tracker, order: seq<Address>, now: int, id: Address,
      l: Ledger, live: bool)
    requires Sound(s) && Balanced(s, id, l)
    ensures Balanced(PollAll(cfg, s, order, now).0, id, Book(l, id, live, PollAll(cfg, s, order, now).1))
    decreases |order|
  {
    if order != [] {
      var (s1, ns1) := PollKey(cfg, s, order[0], now);
      PollKeyBalanced(cfg, s, order[0], now, id, l, live);
      var ns2 := PollAll(cfg, s1, order[1..], now).1;
      if ns1 == [] {
        assert ns1 + ns2 == ns2;
        PollBalanced(cfg, s1, order[1..], now, id, l, live);
      } else {
        assert (ns1 + ns2)[1..] == ns2;
        PollBalanced(cfg, s1, order[1..], now, id, BookOne(l, id, live, ns1[0]), live);
      }
    }
  }

  lemma PartBalanced(cfg: Config, s: Tracker, p: Part, now: int, id: Address, l: Ledger)
    requires Sound(s) && Balanced(s, id, l)
    ensures var (s1, n) := HandlePart(cfg, s, p, now);
            Balanced(s1, id, BookOne(l, id, id in s.incoming, n))
  {
  }

  lemma OtherBalanced(cfg: Config, s: Tracker, e: Event, id: Address, l: Ledger)
    requires Sound(s) && Balanced(s, id, l) && (e.Advertise? || e.Update? || e.Cancel?)
    ensures var (s1, n) := match e
                           case Advertise(a, link, now) => HandleAdvertisement(s, a, link, now)
                           case Update(i, segment, bytes, now) => HandleHashUpdate(s, i, segment, bytes, now)
                           case _ => HandleCancel(s, e.id);
            Balanced(s1, id, BookOne(l, id, id in s.incoming, n))
  {
  }

  lemma StepBalanced(cfg: Config, s: Tracker, e: Event, id: Address, l: Ledger)
    requires Sound(s) && Balanced(s, id, l)
    ensures Balanced(Step(cfg, s, e).0, id, Book(l, id, id in s.incoming, Step(cfg, s, e).1))
  {
    match e
    case Poll(order, now) => PollBalanced(cfg, s, order, now, id, l, id in s.incoming);
    case Arrive(p, now) => PartBalanced(cfg, s, p, now, id, l);
    case _ => OtherBalanced(cfg, s, e, id, l);
  }

  /**
   * Over every run of arbitrary events from an empty tracker, for every resource: each accepted
   * advertisement is still being assembled, was replaced by a newer one, completed, was cancelled or
   * failed, exactly one of these; and no acceptance has seen more than three non-failed timeouts.
   */
  lemma {:induction false} RunBalanced(cfg: Config, s: Tracker, events: seq<Event>, id: Address, l: Ledger)
    requires Sound(s) && Balanced(s, id, l)
    ensures Balanced(Run(cfg, s, events).0, id, BookRun(cfg, s, events, id, l))
    decreases |events|
  {
    if events != [] {
      StepBalanced(cfg, s, events[0], id, l);
      var (s1, ns) := Step(cfg, s, events[0]);
      RunBalanced(cfg, s1, events[1..], id, Book(l, id, id in s.incoming, ns));
    }
  }

  lemma EmptyBalanced(id: Address)
    ensures Sound(Tracker(map[], [])) && Balanced(Tracker(map[], []), id, Ledger(0, 0, 0, 0, 0, 0, 0))
  {
  }
}
