/**
  The event bus under concurrency, as a transition system: any number of tasks inside bus calls, a
  lock for each topic and one for the drop count, and bounded queues that consumers empty at any time.

  One step is taking a lock, one piece of work under it, or releasing it. `order`, `idOf`, `log`,
  `ids`, `drops` and `totalDrops`, the `id` of a waiting publisher and the `rank` and `slot` of a queued
  event are history: order[t] lists the events of topic t as their publishers took the topic's lock,
  idOf[t] where each of them had its id from, ids all event ids in the order they were handed out,
  log[q] everything queue q ever accepted, and an entry's rank and slot say which publish and which
  subscriber slot it came from.
*/
module BusProtocol {
  import opened EventBus

  /** The frozen subscriptions of every topic, and the capacity of every queue. */
  datatype Net = Net(subs: seq<seq<nat>>, caps: seq<nat>)

  predicate NetOk(n: Net) {
    forall t, i :: 0 <= t < |n.subs| && 0 <= i < |n.subs[t]| ==> n.subs[t][i] < |n.caps|
  }

  datatype Entry = Entry(e: Event, rank: nat, slot: nat)

  /** Where an event has its id from: its publisher, or the bus, as which allocation. */
  datatype Origin = Preset | Allocated(index: nat)

  datatype Lock = Free | HeldBy(task: nat)

  /** Where a task is inside the bus. The names starting with Want are before taking a lock. */
  datatype Task =
    | Idle
    | WantId(e: Event)
    | HaveId(e: Event)
    | WantTopic(e: Event, id: Origin)
    | FanningOut(e: Event, rank: nat, i: nat, accepted: nat, ok: bool)
    | WantDrop(e: Event, rank: nat, i: nat, accepted: nat)
    | HaveDrop(e: Event, rank: nat, i: nat, accepted: nat)
    | CountedDrop(e: Event, rank: nat, i: nat, accepted: nat)
    | WantTotal(e: Event, rank: nat, i: nat, accepted: nat)
    | HaveTotal(e: Event, rank: nat, i: nat, accepted: nat)
    | WantStats(topic: nat)
    | HaveStats(topic: nat)
    | WantDropCount
    | HaveDropCount

  datatype State = State(
    queues: seq<seq<Entry>>,
    stats: seq<Stats>,
    dropCount: nat,
    nextEventId: nat,
    topicLock: seq<Lock>,
    dropLock: Lock,
    tasks: seq<Task>,
    order: seq<seq<Event>>,
    idOf: seq<seq<Origin>>,
    log: seq<seq<Entry>>,
    ids: seq<nat>,
    drops: seq<nat>,
    totalDrops: nat)

  datatype Action =
    | Publish(k: nat, event: Event)
    | ReadStats(k: nat, topic: nat)
    | ReadDropCount(k: nat)
    | Run(k: nat)
    | Take(q: nat)

  function Init(n: Net, tasks: nat): State {
    State(seq(|n.caps|, q => []), seq(|n.subs|, t => EMPTY_TOPIC.stats), 0, 1, seq(|n.subs|, t => Free), Free,
          seq(tasks, k => Idle), seq(|n.subs|, t => []), seq(|n.subs|, t => []), seq(|n.caps|, q => []), [],
          seq(|n.subs|, t => 0), 0)
  }

  predicate Sized(n: Net, s: State) {
    && |s.queues| == |s.log| == |n.caps|
    && |s.stats| == |s.topicLock| == |s.order| == |s.idOf| == |s.drops| == |n.subs|
  }

  /** The topic whose lock a task holds, or -1. */
  function HoldsTopic(p: Task): int {
    match p
    case FanningOut(e, _, _, _, _) => e.topic
    case WantDrop(e, _, _, _) => e.topic
    case HaveDrop(e, _, _, _) => e.topic
    case CountedDrop(e, _, _, _) => e.topic
    case WantTotal(e, _, _, _) => e.topic
    case HaveTotal(e, _, _, _) => e.topic
    case HaveStats(t) => t
    case _ => -1
  }

  predicate HoldsDrop(p: Task) {
    p.HaveId? || p.HaveDrop? || p.HaveTotal? || p.HaveDropCount?
  }

  predicate WantsDrop(p: Task) {
    p.WantId? || p.WantDrop? || p.WantTotal? || p.WantDropCount?
  }

  predicate TopicInRange(n: Net, p: Task) {
    match p
    case Idle => true
    case WantStats(t) => t < |n.subs|
    case HaveStats(t) => t < |n.subs|
    case WantDropCount => true
    case HaveDropCount => true
    case _ => p.e.topic < |n.subs|
  }

  /** The subscriber slot a publishing task is at. */
  predicate SlotInRange(n: Net, p: Task)
    requires TopicInRange(n, p)
  {
    match p
    case FanningOut(e, _, i, accepted, _) => accepted <= i <= |n.subs[e.topic]|
    case WantDrop(e, _, i, accepted) => accepted <= i < |n.subs[e.topic]|
    case HaveDrop(e, _, i, accepted) => accepted <= i < |n.subs[e.topic]|
    case CountedDrop(e, _, i, accepted) => accepted <= i < |n.subs[e.topic]|
    case WantTotal(e, _, i, accepted) => accepted <= i < |n.subs[e.topic]|
    case HaveTotal(e, _, i, accepted) => accepted <= i < |n.subs[e.topic]|
    case _ => true
  }

  /** Task `k` has a next step and the lock it wants, if any, is free. */
  predicate CanRun(n: Net, s: State, k: nat)
    requires Sized(n, s)
  {
    && k < |s.tasks| && !s.tasks[k].Idle? && TopicInRange(n, s.tasks[k])
    && (WantsDrop(s.tasks[k]) ==> s.dropLock.Free?)
    && (s.tasks[k].WantTopic? ==> s.topicLock[s.tasks[k].e.topic].Free?)
    && (s.tasks[k].WantStats? ==> s.topicLock[s.tasks[k].topic].Free?)
  }

  predicate Enabled(n: Net, s: State, a: Action)
    requires Sized(n, s)
  {
    match a
    case Publish(k, e) => k < |s.tasks| && s.tasks[k].Idle? && e.topic < |n.subs|
    case ReadStats(k, t) => k < |s.tasks| && s.tasks[k].Idle? && t < |n.subs|
    case ReadDropCount(k) => k < |s.tasks| && s.tasks[k].Idle?
    case Run(k) => CanRun(n, s, k)
    case Take(q) => q < |s.queues| && s.queues[q] != []
  }

  function Goto(s: State, k: nat, next: Task): State
    requires k < |s.tasks|
  {
    s.(tasks := s.tasks[k := next])
  }

  function SendStep(n: Net, s: State, k: nat): State
    requires NetOk(n) && Sized(n, s) && CanRun(n, s, k) && s.tasks[k].FanningOut?
  {
    var FanningOut(e, rank, i, accepted, ok) := s.tasks[k];
    var t := e.topic;
    if i >= |n.subs[t]| then Goto(s.(topicLock := s.topicLock[t := Free]), k, Idle)
    else
      var q := n.subs[t][i];
      if |s.queues[q]| < n.caps[q] then
        var depth := |s.queues[q]| + 1;
        var st := s.stats[t];
        Goto(s.(queues := s.queues[q := s.queues[q] + [Entry(e, rank, i)]],
                log := s.log[q := s.log[q] + [Entry(e, rank, i)]],
                stats := s.stats[t := st.(delivered := Increment(st.delivered),
                                          maxQueueDepth := if depth > st.maxQueueDepth
                                                           then depth % 256 else st.maxQueueDepth)]),
             k, FanningOut(e, rank, i + 1, accepted + 1, ok))
      else Goto(s, k, WantDrop(e, rank, i, accepted))
  }

  function RunStep(n: Net, s: State, k: nat): State
    requires NetOk(n) && Sized(n, s) && CanRun(n, s, k)
  {
    match s.tasks[k]
    case Idle => s
    case WantId(e) => Goto(s.(dropLock := HeldBy(k)), k, HaveId(e))
    case HaveId(e) =>
      Goto(s.(nextEventId := Increment(s.nextEventId), ids := s.ids + [s.nextEventId], dropLock := Free),
           k, WantTopic(e.(eventId := s.nextEventId), Allocated(|s.ids|)))
    case WantTopic(e, id) =>
      var t := e.topic;
      Goto(s.(topicLock := s.topicLock[t := HeldBy(k)], order := s.order[t := s.order[t] + [e]],
              idOf := s.idOf[t := s.idOf[t] + [id]],
              stats := s.stats[t := s.stats[t].(published := Increment(s.stats[t].published),
                                                subscribers := |n.subs[t]|)]),
           k, FanningOut(e, |s.order[t]|, 0, 0, true))
    case FanningOut(_, _, _, _, _) => SendStep(n, s, k)
    case WantDrop(e, rank, i, accepted) => Goto(s.(dropLock := HeldBy(k)), k, HaveDrop(e, rank, i, accepted))
    case HaveDrop(e, rank, i, accepted) =>
      Goto(s.(dropCount := Increment(s.dropCount), totalDrops := s.totalDrops + 1, dropLock := Free),
           k, CountedDrop(e, rank, i, accepted))
    case CountedDrop(e, rank, i, accepted) =>
      var t := e.topic;
      Goto(s.(stats := s.stats[t := s.stats[t].(dropped := Increment(s.stats[t].dropped))],
              drops := s.drops[t := s.drops[t] + 1]),
           k, WantTotal(e, rank, i, accepted))
    case WantTotal(e, rank, i, accepted) => Goto(s.(dropLock := HeldBy(k)), k, HaveTotal(e, rank, i, accepted))
    case HaveTotal(e, rank, i, accepted) => Goto(s.(dropLock := Free), k, FanningOut(e, rank, i + 1, accepted, false))
    case WantStats(t) => Goto(s.(topicLock := s.topicLock[t := HeldBy(k)]), k, HaveStats(t))
    case HaveStats(t) => Goto(s.(topicLock := s.topicLock[t := Free]), k, Idle)
    case WantDropCount => Goto(s.(dropLock := HeldBy(k)), k, HaveDropCount)
    case HaveDropCount => Goto(s.(dropLock := Free), k, Idle)
  }

  function Step(n: Net, s: State, a: Action): State
    requires NetOk(n) && Sized(n, s) && Enabled(n, s, a)
  {
    match a
    case Publish(k, e) => Goto(s, k, if e.eventId == 0 then WantId(e) else WantTopic(e, Preset))
    case ReadStats(k, t) => Goto(s, k, WantStats(t))
    case ReadDropCount(k) => Goto(s, k, WantDropCount)
    case Run(k) => RunStep(n, s, k)
    case Take(q) => s.(queues := s.queues[q := s.queues[q][1..]])
  }

  ghost predicate Executes(n: Net, s: State, acts: seq<Action>, t: State)
    requires NetOk(n)
    decreases acts
  {
    if acts == [] then s == t
    else Sized(n, s) && Enabled(n, s, acts[0]) && Executes(n, Step(n, s, acts[0]), acts[1..], t)
  }

  ghost predicate Reachable(n: Net, tasks: nat, t: State)
    requires NetOk(n)
  {
    exists acts: seq<Action> :: Executes(n, Init(n, tasks), acts, t)
  }

  lemma {:induction false} ExecutesThen(n: Net, s: State, acts: seq<Action>, t: State, a: Action)
    requires NetOk(n) && Executes(n, s, acts, t) && Sized(n, t) && Enabled(n, t, a)
    ensures Executes(n, s, acts + [a], Step(n, t, a))
    decreases acts
  {
    if acts == [] {
      assert acts + [a] == [a];
      assert Executes(n, Step(n, t, a), [], Step(n, t, a));
    } else {
      assert (acts + [a])[1..] == acts[1..] + [a];
      ExecutesThen(n, Step(n, s, acts[0]), acts[1..], t, a);
    }
  }
}
