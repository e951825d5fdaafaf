/**
 * lxmf-rs/src/rns/router.rs: the hand-off of deferred messages between the main thread (handle_outbound
 * and tick) and the worker thread that tick spawns, as a state machine over their atomic steps.
 */
module DeferredStamps {
  import opened Common

  type Item = nat

  const DRAIN_LIMIT: nat := 100

  /** Who holds the mutex of the shared queue. */
  datatype Owner = Nobody | MainThread | WorkerThread

  /** Where the main thread is. */
  datatype Main =
    | Ready
    | Locking(item: Item)      // handle_outbound, about to try_lock
    | Pushing(item: Item)      // handle_outbound, holding the lock
    | Draining(left: nat)      // tick, receiving processed messages
    | CheckingFlag             // tick, about to load stamp_processing_active
    | TryingLock               // tick, about to try_lock for has_items
    | Inspecting               // tick, holding the lock
    | SettingFlag              // tick, has_items was true
    | Spawning                 // tick, flag set, thread not yet started

  /** Where the worker thread is, if there is one. */
  datatype Worker = NoWorker | Starting | Popping | Sending(item: Item) | Unlocking | Clearing

  /**
   * `deferred` records every message handed to handle_outbound for deferral, `admitted` those that
   * reached the shared queue, `missed` how many did not because try_lock failed, and `enqueued` the
   * messages passed to the router's outbound queue.
   */
  datatype State = State(
    local: seq<Item>,
    shared: seq<Item>,
    channel: seq<Item>,
    enqueued: seq<Item>,
    flag: bool,
    lock: Owner,
    main: Main,
    worker: Worker,
    deferred: seq<Item>,
    admitted: seq<Item>,
    missed: nat)

  const Initial: State := State([], [], [], [], false, Nobody, Ready, NoWorker, [], [], 0)

  datatype Action = Defer(item: Item) | Tick | MainStep | WorkerStep

  predicate Enabled(s: State, a: Action) {
    match a
    case Defer(_) => s.main.Ready?
    case Tick => s.main.Ready?
    case MainStep => !s.main.Ready?
    case WorkerStep => !s.worker.NoWorker?
  }

  function Pop(q: seq<Item>): seq<Item> {
    if q == [] then [] else q[1..]
  }

  function StepMain(s: State): State {
    match s.main
    case Ready => s
    case Locking(item) =>
      if s.lock.Nobody? then s.(lock := MainThread, main := Pushing(item))
      else s.(missed := s.missed + 1, main := Ready)
    case Pushing(item) =>
      s.(shared := s.shared + [item], admitted := s.admitted + [item], lock := Nobody, main := Ready)
    case Draining(left) =>
      if left > 0 && s.channel != [] then
        s.(enqueued := s.enqueued + [s.channel[0]], channel := s.channel[1..], local := Pop(s.local),
           main := Draining(left - 1))
      else s.(main := CheckingFlag)
    case CheckingFlag => s.(main := if s.flag then Ready else TryingLock)
    case TryingLock =>
      if s.lock.Nobody? then s.(lock := MainThread, main := Inspecting) else s.(main := Ready)
    case Inspecting => s.(lock := Nobody, main := if s.shared != [] then SettingFlag else Ready)
    case SettingFlag => s.(flag := true, main := Spawning)
    case Spawning => s.(worker := Starting, main := Ready)
  }

  function StepWorker(s: State): State {
    match s.worker
    case NoWorker => s
    case Starting =>
      if s.lock.Nobody? then s.(lock := WorkerThread, worker := Popping) else s.(worker := Clearing)
    case Popping =>
      if s.shared != [] then s.(shared := s.shared[1..], worker := Sending(s.shared[0])) else s.(worker := Unlocking)
    case Sending(item) => s.(channel := s.channel + [item], worker := Unlocking)
    case Unlocking => s.(lock := Nobody, worker := Clearing)
    case Clearing => s.(flag := false, worker := NoWorker)
  }

  function Step(s: State, a: Action): State {
    match a
    case Defer(item) => s.(local := s.local + [item], deferred := s.deferred + [item], main := Locking(item))
    case Tick => s.(main := Draining(DRAIN_LIMIT))
    case MainStep => StepMain(s)
    case WorkerStep => StepWorker(s)
  }

  predicate Legal(s: State, actions: seq<Action>)
    decreases |actions|
  {
    actions == [] || (Enabled(s, actions[0]) && Legal(Step(s, actions[0]), actions[1..]))
  }

  function Run(s: State, actions: seq<Action>): State
    decreases |actions|
  {
    if actions == [] then s else Run(Step(s, actions[0]), actions[1..])
  }

  // ---------------------------------------------------------------------------------------------
  // What every interleaving keeps

  function Held(s: State): seq<Item> {
    if s.worker.Sending? then [s.worker.item] else []
  }

  function Incoming(s: State): seq<Item> {
    if s.main.Locking? || s.main.Pushing? then [s.main.item] else []
  }

  /** Mutual exclusion, and at most one worker: a thread is only started when there is none. */
  ghost predicate Exclusive(s: State) {
    && (s.lock.WorkerThread? <==> s.worker.Popping? || s.worker.Sending? || s.worker.Unlocking?)
    && (s.lock.MainThread? <==> s.main.Pushing? || s.main.Inspecting?)
    && (!s.worker.NoWorker? || s.main.Spawning? ==> s.flag)
    && (s.flag ==> !s.worker.NoWorker? || s.main.Spawning?)
    && (s.main.TryingLock? || s.main.Inspecting? || s.main.SettingFlag? || s.main.Spawning? ==> s.worker.NoWorker?)
  }

  /** Admitted messages are in exactly one place, in order; the local queue is what was not yet passed on. */
  ghost predicate Ordered(s: State) {
    && s.admitted == s.enqueued + s.channel + Held(s) + s.shared
    && |s.admitted| + s.missed + |Incoming(s)| == |s.deferred|
    && s.local == s.deferred[|s.enqueued|..]
    && (s.missed == 0 ==> s.deferred == s.admitted + Incoming(s))
    && (Incoming(s) != [] ==> s.deferred != [] && s.deferred[|s.deferred| - 1] == Incoming(s)[0])
  }

  ghost predicate Invariant(s: State) {
    Exclusive(s) && Ordered(s)
  }

  lemma MainExclusive(s: State)
    requires Exclusive(s)
    ensures Exclusive(StepMain(s))
  {
  }

  lemma ReceiveOrdered(s: State)
    requires Ordered(s) && s.main.Draining? && s.main.left > 0 && s.channel != []
    ensures Ordered(StepMain(s))
  {
    var t := StepMain(s);
    var rest := s.channel[1..] + Held(s) + s.shared;
    assert s.enqueued + s.channel + Held(s) + s.shared == s.enqueued + ([s.channel[0]] + rest);
    assert t.enqueued + t.channel + Held(t) + t.shared == (s.enqueued + [s.channel[0]]) + rest;
    assert |s.enqueued| < |s.admitted| <= |s.deferred|;
    assert t.local == t.deferred[|t.enqueued|..];
  }

  lemma PushOrdered(s: State)
    requires Ordered(s) && s.main.Pushing?
    ensures Ordered(StepMain(s))
  {
    var item := s.main.item;
    var before := s.enqueued + s.channel + Held(s);
    assert before + (s.shared + [item]) == (before + s.shared) + [item];
  }

  lemma MainKeeps(s: State)
    requires Invariant(s)
    ensures Invariant(StepMain(s))
  {
    MainExclusive(s);
    if s.main.Pushing? {
      PushOrdered(s);
    } else if s.main.Draining? && s.main.left > 0 && s.channel != [] {
      ReceiveOrdered(s);
    }
  }

  lemma WorkerKeeps(s: State)
    requires Invariant(s)
    ensures Invariant(StepWorker(s))
  {
    var t := StepWorker(s);
    var before := s.enqueued + s.channel;
    if s.worker.Popping? && s.shared != [] {
      assert s.shared == [s.shared[0]] + s.shared[1..];
      assert before + [] + s.shared == before + [s.shared[0]] + s.shared[1..];
    } else if s.worker.Sending? {
      assert before + [s.worker.item] + s.shared == s.enqueued + (s.channel + [s.worker.item]) + [] + s.shared;
    }
  }

  lemma StepKeeps(s: State, a: Action)
    requires Invariant(s) && Enabled(s, a)
    ensures Invariant(Step(s, a))
  {
    match a
    case Defer(item) =>
      assert (s.deferred + [item])[|s.enqueued|..] == s.deferred[|s.enqueued|..] + [item];
    case Tick =>
    case MainStep => MainKeeps(s);
    case WorkerStep => WorkerKeeps(s);
  }

  lemma {:induction false} RunKeeps(s: State, actions: seq<Action>)
    requires Invariant(s) && Legal(s, actions)
    ensures Invariant(Run(s, actions))
    decreases |actions|
  {
    if actions != [] {
      StepKeeps(s, actions[0]);
      RunKeeps(Step(s, actions[0]), actions[1..]);
    }
  }

  /**
   * Safety of every interleaving: the messages passed to the router are a prefix of the admitted ones, so
   * each of these arrives once and in order; a message whose try_lock failed never does. If no try_lock
   * failed, these are all deferred messages and the local queue is channel, worker and shared queue in turn.
   */
  lemma ExactlyOnceInOrder(actions: seq<Action>)
    requires Legal(Initial, actions)
    ensures var s := Run(Initial, actions);
            && s.enqueued <= s.admitted
            && s.admitted == s.enqueued + s.channel + Held(s) + s.shared
            && |s.deferred| - |s.admitted| == s.missed + |Incoming(s)|
            && (s.missed == 0 ==> s.enqueued <= s.deferred)
            && (s.missed == 0 ==> s.local == s.channel + Held(s) + s.shared + Incoming(s))
  {
    RunKeeps(Initial, actions);
    var s := Run(Initial, actions);
    var rest := s.channel + Held(s) + s.shared;
    assert s.enqueued + s.channel + Held(s) + s.shared == s.enqueued + rest;
    if s.missed == 0 {
      assert s.deferred == s.enqueued + (rest + Incoming(s));
    }
  }

  // ---------------------------------------------------------------------------------------------
  // Progress: the system can always finish what was admitted

  /** Both threads at rest. */
  ghost predicate Quiet(s: State) {
    s.main.Ready? && s.worker.NoWorker?
  }

  /** Nothing new is deferred. */
  ghost predicate Closed(actions: seq<Action>) {
    forall i :: 0 <= i < |actions| ==> !actions[i].Defer?
  }

  /** t can be reached from s by the two threads and further ticks. */
  ghost predicate Reaches(s: State, t: State) {
    exists actions :: Legal(s, actions) && Closed(actions) && Run(s, actions) == t
  }

  lemma ReachesSelf(s: State)
    ensures Reaches(s, s)
  {
    assert Legal(s, []) && Closed([]) && Run(s, []) == s;
  }

  lemma ReachesVia(s: State, a: Action, t: State)
    requires Enabled(s, a) && !a.Defer? && Reaches(Step(s, a), t)
    ensures Reaches(s, t)
  {
    var rest :| Legal(Step(s, a), rest) && Closed(rest) && Run(Step(s, a), rest) == t;
    var actions := [a] + rest;
    assert actions[1..] == rest;
    assert Legal(s, actions) && Closed(actions) && Run(s, actions) == t;
  }

  lemma {:induction false} ReachesTwice(s: State, t: State, u: State, actions: seq<Action>)
    requires Legal(s, actions) && Closed(actions) && Run(s, actions) == t && Reaches(t, u)
    ensures Reaches(s, u)
    decreases |actions|
  {
    if actions != [] {
      ReachesTwice(Step(s, actions[0]), t, u, actions[1..]);
      ReachesVia(s, actions[0], u);
    }
  }

  lemma ReachesTrans(s: State, t: State, u: State)
    requires Reaches(s, t) && Reaches(t, u)
    ensures Reaches(s, u)
  {
    var actions :| Legal(s, actions) && Closed(actions) && Run(s, actions) == t;
    ReachesTwice(s, t, u, actions);
  }

  /** Messages that reached the shared queue and have not been passed on. */
  function Remaining(s: State): int {
    |s.admitted| - |s.enqueued|
  }

  /** t is no further from the end than s: fewer messages are missing, or as many with no more of them shared. */
  ghost predicate NoFurther(s: State, t: State) {
    && Invariant(t) && t.missed == s.missed && t.deferred == s.deferred && t.admitted == s.admitted
    && (Remaining(t) < Remaining(s) || (Remaining(t) == Remaining(s) && |t.shared| <= |s.shared|))
  }

  ghost predicate Closer(s: State, t: State) {
    NoFurther(s, t) && (Remaining(t) < Remaining(s) || |t.shared| < |s.shared|)
  }

  function MainRank(m: Main): nat {
    match m
    case Ready => 0 case Spawning => 1 case SettingFlag => 2 case Inspecting => 3 case TryingLock => 4
    case CheckingFlag => 5 case Draining(left) => 6 + left case Pushing(_) => 1 case Locking(_) => 2
  }

  function WorkerRank(w: Worker): nat {
    match w
    case NoWorker => 0 case Clearing => 1 case Unlocking => 2 case Sending(_) => 3 case Popping => 4 case Starting => 5
  }

  lemma MainNoFurther(s: State)
    requires Invariant(s) && Incoming(s) == []
    ensures NoFurther(s, StepMain(s)) && Incoming(StepMain(s)) == []
  {
    MainKeeps(s);
  }

  lemma WorkerNoFurther(s: State)
    requires Invariant(s) && Incoming(s) == []
    ensures NoFurther(s, StepWorker(s)) && Incoming(StepWorker(s)) == []
  {
    WorkerKeeps(s);
  }

  /** The main thread runs to the end of its call, then the worker to the end of its life. */
  lemma {:induction false} Settle(s: State) returns (t: State)
    requires Invariant(s) && Incoming(s) == []
    ensures Reaches(s, t) && Quiet(t) && NoFurther(s, t)
    decreases MainRank(s.main), WorkerRank(s.worker)
  {
    if !s.main.Ready? {
      var s1 := StepMain(s);
      MainNoFurther(s);
      assert MainRank(s1.main) < MainRank(s.main);
      t := Settle(s1);
      ReachesVia(s, MainStep, t);
    } else if !s.worker.NoWorker? {
      var s1 := StepWorker(s);
      WorkerNoFurther(s);
      assert s1.main == s.main && WorkerRank(s1.worker) < WorkerRank(s.worker);
      t := Settle(s1);
      ReachesVia(s, WorkerStep, t);
    } else {
      t := s;
      ReachesSelf(s);
    }
  }

  /** A tick with nothing to receive, at rest: the main thread starts a worker. */
  lemma TickSpawns(s: State)
    requires Quiet(s) && s.channel == [] && s.shared != [] && !s.flag && s.lock.Nobody?
    ensures Reaches(s, s.(flag := true, worker := Starting))
  {
    var s1 := s.(main := Draining(DRAIN_LIMIT));
    var s2 := s.(main := CheckingFlag);
    var s3 := s.(main := TryingLock);
    var s4 := s.(main := Inspecting, lock := MainThread);
    var s5 := s.(main := SettingFlag);
    var s6 := s.(main := Spawning, flag := true);
    var s7 := s.(flag := true, worker := Starting);
    ReachesSelf(s7);
    assert StepMain(s6) == s7;
    ReachesVia(s6, MainStep, s7);
    assert StepMain(s5) == s6;
    ReachesVia(s5, MainStep, s7);
    assert StepMain(s4) == s5;
    ReachesVia(s4, MainStep, s7);
    assert StepMain(s3) == s4;
    ReachesVia(s3, MainStep, s7);
    assert StepMain(s2) == s3;
    ReachesVia(s2, MainStep, s7);
    assert StepMain(s1) == s2;
    ReachesVia(s1, MainStep, s7);
    ReachesVia(s, Tick, s7);
  }

  /** The worker takes the first message of the shared queue. */
  lemma WorkerTakes(s: State)
    requires s.worker.Starting? && s.lock.Nobody? && s.shared != []
    ensures Reaches(s, s.(lock := WorkerThread, shared := s.shared[1..], worker := Sending(s.shared[0])))
  {
    var s1 := s.(lock := WorkerThread, worker := Popping);
    var s2 := s1.(shared := s.shared[1..], worker := Sending(s.shared[0]));
    ReachesSelf(s2);
    ReachesVia(s1, WorkerStep, s2);
    ReachesVia(s, WorkerStep, s2);
  }

  /** One round: a tick at rest brings every state with work left strictly closer to the end. */
  lemma Round(s: State) returns (t: State)
    requires Invariant(s) && Quiet(s) && Remaining(s) > 0
    ensures Reaches(s, t) && Quiet(t) && Closer(s, t)
  {
    if s.channel != [] {
      var s1 := Step(s, Tick);
      StepKeeps(s, Tick);
      MainKeeps(s1);
      t := Settle(StepMain(s1));
      ReachesVia(s1, MainStep, t);
      ReachesVia(s, Tick, t);
    } else {
      assert s.admitted == s.enqueued + [] + [] + s.shared;
      var s1 := s.(flag := true, worker := Starting);
      var s2 := s1.(lock := WorkerThread, shared := s.shared[1..], worker := Sending(s.shared[0]));
      TickSpawns(s);
      WorkerTakes(s1);
      assert s.enqueued + [] + [] + s.shared == s.enqueued + [] + [s.shared[0]] + s.shared[1..];
      assert Invariant(s2);
      t := Settle(s2);
      ReachesTrans(s1, s2, t);
      ReachesTrans(s, s1, t);
    }
  }

  /**
   * Progress: from every state outside handle_outbound the two threads can pass on every message that reached
   * the shared queue, without any further message being deferred.
   */
  lemma {:induction false} AllDelivered(s: State) returns (t: State)
    requires Invariant(s) && Incoming(s) == []
    ensures Reaches(s, t) && t.enqueued == s.admitted
    decreases Remaining(s), |s.shared|, if Quiet(s) then 0 else 1
  {
    if !Quiet(s) {
      var u := Settle(s);
      t := AllDelivered(u);
      ReachesTrans(s, u, t);
    } else if Remaining(s) > 0 {
      var u := Round(s);
      t := AllDelivered(u);
      ReachesTrans(s, u, t);
    } else {
      t := s;
      ReachesSelf(s);
    }
  }

  // ---------------------------------------------------------------------------------------------
  // Every schedule with enough ticks that find both threads at rest delivers

  /** Nothing is being deferred, and a thread that was promised work finds it. */
  ghost predicate Underway(s: State) {
    && Exclusive(s) && Incoming(s) == []
    && (s.main.SettingFlag? || s.main.Spawning? || s.worker.Starting? || s.worker.Popping? ==> s.shared != [])
  }

  function Min(a: nat, b: nat): nat {
    if a < b then a else b
  }

  /**
   * How many messages will at most be in the channel, and in the shared queue, when what is under way is done:
   * the main thread receives, and the worker, or the one that is about to be started, passes one message on.
   */
  function Outlook(s: State): (nat, nat) {
    var c, h := |s.channel|, |s.shared|;
    var left := c - (if s.main.Draining? then Min(s.main.left, c) else 0);
    if s.worker.Sending? then (left + 1, h)
    else if s.worker.Unlocking? || s.worker.Clearing? || (s.main.Ready? && s.worker.NoWorker?) then (left, h)
    else if h > 0 then (left + 1, h - 1)
    else (left, 0)
  }

  /** Ticks that are still needed: one for each shared message and one more while anything is under way. */
  function TicksNeeded(outlook: (nat, nat)): nat {
    var (c, h) := outlook;
    if c == 0 && h == 0 then 0 else if c == 0 then h + 1 else h + c
  }

  /** No step makes more ticks necessary, whichever thread takes it and wherever the other is. */
  lemma StepNotWorse(s: State, a: Action)
    requires Underway(s) && Enabled(s, a) && (a.MainStep? || a.WorkerStep?)
    ensures Underway(Step(s, a)) && TicksNeeded(Outlook(Step(s, a))) <= TicksNeeded(Outlook(s))
  {
  }

  /** Nor does a tick; one that finds both threads at rest makes fewer necessary. */
  lemma TickBetter(s: State)
    requires Underway(s) && s.main.Ready?
    ensures Underway(Step(s, Tick)) && TicksNeeded(Outlook(Step(s, Tick))) <= TicksNeeded(Outlook(s))
    ensures Quiet(s) && TicksNeeded(Outlook(s)) > 0 ==> TicksNeeded(Outlook(Step(s, Tick))) < TicksNeeded(Outlook(s))
  {
  }

  /** The ticks of a schedule that find both threads at rest. */
  ghost function RestfulTicks(s: State, actions: seq<Action>): nat
    decreases |actions|
  {
    if actions == [] then 0
    else RestfulTicks(Step(s, actions[0]), actions[1..]) + (if actions[0].Tick? && Quiet(s) then 1 else 0)
  }

  lemma {:induction false} ClosedRun(s: State, actions: seq<Action>)
    requires Underway(s) && Legal(s, actions) && Closed(actions)
    ensures var t := Run(s, actions);
            && Underway(t) && t.admitted == s.admitted
            && var needed := TicksNeeded(Outlook(s));
               TicksNeeded(Outlook(t)) <= needed - Min(RestfulTicks(s, actions), needed)
    decreases |actions|
  {
    if actions != [] {
      if actions[0].Tick? {
        TickBetter(s);
      } else {
        StepNotWorse(s, actions[0]);
      }
      ClosedRun(Step(s, actions[0]), actions[1..]);
    }
  }

  /**
   * Every schedule without further deferrals in which enough ticks find both threads at rest (one more than
   * there are shared messages, when the channel holds at most one), and which ends at rest, passes on all
   * admitted messages; any number of other ticks may come in between.
   */
  lemma TicksSuffice(s: State, actions: seq<Action>)
    requires Invariant(s) && Underway(s) && Legal(s, actions) && Closed(actions) && Quiet(Run(s, actions))
    requires RestfulTicks(s, actions) >= TicksNeeded(Outlook(s))
    ensures Run(s, actions).enqueued == s.admitted
  {
    ClosedRun(s, actions);
    RunKeeps(s, actions);
    var t := Run(s, actions);
    assert t.admitted == t.enqueued + [] + [] + [];
  }

  // ---------------------------------------------------------------------------------------------
  // When the hand-off does not hold

  lemma {:induction false} AdmittedIsClosed(s: State, actions: seq<Action>)
    requires Legal(s, actions) && Closed(actions) && Incoming(s) == []
    ensures Run(s, actions).admitted == s.admitted && Incoming(Run(s, actions)) == []
    decreases |actions|
  {
    if actions != [] {
      AdmittedIsClosed(Step(s, actions[0]), actions[1..]);
    }
  }

  /** The two threads can pass on all deferred messages if and only if no try_lock has failed. */
  lemma DeliverableIff(s: State)
    requires Invariant(s) && Incoming(s) == []
    ensures (exists t :: Reaches(s, t) && t.enqueued == s.deferred) <==> s.missed == 0
  {
    if s.missed == 0 {
      var t := AllDelivered(s);
      assert s.deferred == s.admitted + [];
    } else {
      forall t | Reaches(s, t)
        ensures t.enqueued != s.deferred
      {
        var actions :| Legal(s, actions) && Closed(actions) && Run(s, actions) == t;
        AdmittedIsClosed(s, actions);
        RunKeeps(s, actions);
      }
    }
  }

  /** The same for the states a program can be in. */
  lemma RunDeliverableIff(actions: seq<Action>)
    requires Legal(Initial, actions) && Incoming(Run(Initial, actions)) == []
    ensures var s := Run(Initial, actions); (exists t :: Reaches(s, t) && t.enqueued == s.deferred) <==> s.missed == 0
  {
    RunKeeps(Initial, actions);
    DeliverableIff(Run(Initial, actions));
  }

  lemma {:induction false} NeverAdmitted(s: State, item: Item, later: seq<Action>)
    requires Legal(s, later) && item !in s.admitted && item !in Incoming(s) && Defer(item) !in later
    ensures item !in Run(s, later).admitted
    decreases |later|
  {
    if later != [] {
      assert later[0] in later && forall a :: a in later[1..] ==> a in later;
      NeverAdmitted(Step(s, later[0]), item, later[1..]);
    }
  }

  /**
   * A message whose try_lock failed is never passed on, whatever happens afterwards, unless it is deferred
   * again (or an equal one already was).
   */
  lemma FailedLockLosesMessage(s: State, item: Item, later: seq<Action>)
    requires Invariant(s) && s.main == Locking(item) && !s.lock.Nobody? && item !in s.admitted
    requires Legal(StepMain(s), later) && Defer(item) !in later
    ensures StepMain(s).missed == s.missed + 1 && item in StepMain(s).local
    ensures item !in Run(StepMain(s), later).enqueued
  {
    MainKeeps(s);
    var z := Run(StepMain(s), later);
    NeverAdmitted(StepMain(s), item, later);
    RunKeeps(StepMain(s), later);
    assert z.enqueued <= z.admitted;
    LockingIsLocal(s, item);
  }

  lemma LockingIsLocal(s: State, item: Item)
    requires Invariant(s) && s.main == Locking(item)
    ensures item in s.local
  {
    assert s.local[|s.local| - 1] == item;
  }

  /** process_deferred_stamps: passes messages on from the local queue without looking at the shared one. */
  function ProcessDirectly(s: State, max: nat): State
    decreases max
  {
    if max == 0 || s.local == [] then s
    else ProcessDirectly(s.(enqueued := s.enqueued + [s.local[0]], local := s.local[1..]), max - 1)
  }

  lemma {:induction false} ProcessedDirectly(s: State, max: nat)
    ensures var k := Min(max, |s.local|);
            ProcessDirectly(s, max) == s.(enqueued := s.enqueued + s.local[..k], local := s.local[k..])
    decreases max
  {
    if max > 0 && s.local != [] {
      var s1 := s.(enqueued := s.enqueued + [s.local[0]], local := s.local[1..]);
      var k := Min(max, |s.local|);
      ProcessedDirectly(s1, max - 1);
      assert (s.enqueued + [s.local[0]]) + s.local[1..][..k - 1] == s.enqueued + s.local[..k];
      assert s.local[1..][k - 1..] == s.local[k..];
    } else {
      assert s.enqueued + s.local[..0] == s.enqueued && s.local[0..] == s.local;
    }
  }

  /** The same state but for the local queue and the messages passed on, which differ by what came before `start`. */
  ghost predicate Alike(s: State, start: nat, t: State, before: seq<Item>) {
    && start <= |s.enqueued| && t.enqueued == before + s.enqueued[start..]
    && t == s.(enqueued := t.enqueued, local := t.local)
  }

  lemma AlikeReceive(s: State, start: nat, t: State, before: seq<Item>)
    requires Alike(s, start, t, before) && s.main.Draining? && s.main.left > 0 && s.channel != []
    ensures Alike(StepMain(s), start, StepMain(t), before)
  {
    var s1, t1 := StepMain(s), StepMain(t);
    assert s1.enqueued[start..] == s.enqueued[start..] + [s.channel[0]];
    assert t1.enqueued == before + (s.enqueued[start..] + [s.channel[0]]);
  }

  lemma AlikeWorker(s: State, start: nat, t: State, before: seq<Item>)
    requires Alike(s, start, t, before)
    ensures Alike(StepWorker(s), start, StepWorker(t), before)
  {
    assert StepWorker(s).enqueued == s.enqueued && StepWorker(t).enqueued == t.enqueued;
  }

  lemma AlikeStep(s: State, start: nat, t: State, before: seq<Item>, a: Action)
    requires Alike(s, start, t, before) && Enabled(s, a)
    ensures Enabled(t, a) && Alike(Step(s, a), start, Step(t, a), before)
  {
    match a
    case Defer(_) => {}
    case Tick => {}
    case WorkerStep => { AlikeWorker(s, start, t, before); }
    case MainStep => {
      if s.main.Draining? && s.main.left > 0 && s.channel != [] {
        AlikeReceive(s, start, t, before);
      } else {
        assert StepMain(s).enqueued == s.enqueued && StepMain(t).enqueued == t.enqueued;
      }
    }
  }

  /** Neither thread ever looks at these two, so both states have the same runs. */
  lemma {:induction false} AlikeRun(s: State, start: nat, t: State, before: seq<Item>, actions: seq<Action>)
    requires Alike(s, start, t, before) && (Legal(s, actions) || Legal(t, actions))
    ensures Legal(s, actions) && Legal(t, actions) && Alike(Run(s, actions), start, Run(t, actions), before)
    decreases |actions|
  {
    if actions != [] {
      assert Enabled(s, actions[0]);
      AlikeStep(s, start, t, before, actions[0]);
      AlikeRun(Step(s, actions[0]), start, Step(t, actions[0]), before, actions[1..]);
    }
  }

  /** After a direct call every schedule passes on a prefix of the old local queue. */
  lemma RepeatsAtMost(s: State, p: State, before: seq<Item>, actions: seq<Action>)
    requires Invariant(s) && Incoming(s) == [] && s.admitted == s.enqueued + s.local
    requires Alike(s, |s.enqueued|, p, before) && Legal(p, actions) && Closed(actions)
    ensures Run(p, actions).enqueued <= before + s.local
  {
    var n := |s.enqueued|;
    AlikeRun(s, n, p, before, actions);
    AdmittedIsClosed(s, actions);
    RunKeeps(s, actions);
    var u := Run(s, actions);
    assert u.enqueued <= s.enqueued + s.local;
    assert u.enqueued[n..] <= s.local;
  }

  /** And some schedule passes on all of it. */
  lemma RepeatsAll(s: State, p: State, before: seq<Item>) returns (t: State)
    requires Invariant(s) && Incoming(s) == [] && s.admitted == s.enqueued + s.local
    requires Alike(s, |s.enqueued|, p, before)
    ensures Reaches(p, t) && t.enqueued == before + s.local
  {
    var n := |s.enqueued|;
    var u := AllDelivered(s);
    var actions :| Legal(s, actions) && Closed(actions) && Run(s, actions) == u;
    AlikeRun(s, n, p, before, actions);
    t := Run(p, actions);
    assert u.enqueued[n..] == s.local;
  }

  lemma LocalIsOwed(s: State)
    requires Invariant(s) && s.missed == 0 && Incoming(s) == []
    ensures s.deferred == s.admitted == s.enqueued + s.local
  {
    assert s.admitted + [] == s.admitted;
  }

  /**
   * Called beside tick, process_deferred_stamps repeats exactly what it passes on: afterwards the two threads
   * pass on the whole of the local queue as it was before the call, in every schedule a prefix of it and in
   * some schedule all of it. So every message arrives once if and only if the call passes none on.
   */
  lemma DirectProcessingRepeats(s: State, max: nat)
    requires Invariant(s) && s.missed == 0 && Incoming(s) == []
    ensures var k := Min(max, |s.local|);
            var all := s.enqueued + s.local[..k] + s.local;
            && (forall t :: Reaches(ProcessDirectly(s, max), t) ==> t.enqueued <= all)
            && (exists t :: Reaches(ProcessDirectly(s, max), t) && t.enqueued == all)
            && (all == s.deferred <==> k == 0)
  {
    var k := Min(max, |s.local|);
    var p := ProcessDirectly(s, max);
    ProcessedDirectly(s, max);
    LocalIsOwed(s);
    var before := s.enqueued + s.local[..k];
    assert s.enqueued[|s.enqueued|..] == [] && before + [] == before;
    assert Alike(s, |s.enqueued|, p, before);
    forall t | Reaches(p, t)
      ensures t.enqueued <= before + s.local
    {
      var actions :| Legal(p, actions) && Closed(actions) && Run(p, actions) == t;
      RepeatsAtMost(s, p, before, actions);
    }
    var t := RepeatsAll(s, p, before);
    assert |before + s.local| == |s.deferred| + k;
    assert k == 0 ==> before == s.enqueued;
  }

  // ---------------------------------------------------------------------------------------------
  // Both causes arise

  /** One deferred message, everything at rest. */
  function OneDeferred(item: Item): State {
    State([item], [item], [], [], false, Nobody, Ready, NoWorker, [item], [item], 0)
  }

  /** A worker that has just started on a first message. */
  function WorkerAtWork(first: Item): State {
    State([first], [first], [], [], true, WorkerThread, Ready, Popping, [first], [first], 0)
  }

  /**
   * A message is deferred, a tick starts a worker, the worker takes the lock: a direct call in the first of
   * these states repeats the message, and another message deferred in the last of them misses the lock.
   */
  lemma ExamplesReachable(item: Item)
    ensures Legal(Initial, [Defer(item), MainStep, MainStep])
    ensures Run(Initial, [Defer(item), MainStep, MainStep]) == OneDeferred(item)
    ensures Reaches(OneDeferred(item), WorkerAtWork(item))
    ensures forall second :: !Step(WorkerAtWork(item), Defer(second)).lock.Nobody?
  {
    var actions := [Defer(item), MainStep, MainStep];
    assert actions[1..] == [MainStep, MainStep] && actions[1..][1..] == [MainStep] && [MainStep][1..] == [];
    var i1 := Step(Initial, Defer(item));
    var i2 := StepMain(i1);
    assert StepMain(i2) == OneDeferred(item);
    assert Run(i2, [MainStep]) == Run(OneDeferred(item), []) && Legal(i2, [MainStep]);
    assert Run(i1, [MainStep, MainStep]) == Run(i2, [MainStep]) && Legal(i1, [MainStep, MainStep]);
    var s1 := OneDeferred(item).(flag := true, worker := Starting);
    TickSpawns(OneDeferred(item));
    ReachesSelf(WorkerAtWork(item));
    ReachesVia(s1, WorkerStep, WorkerAtWork(item));
    ReachesTrans(OneDeferred(item), s1, WorkerAtWork(item));
  }
}
