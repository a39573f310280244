/** The bus neither deadlocks nor spins, and a call that nobody interrupts does what the sequential
    fan-out specifies. */
module BusProgress {
  import opened Sums
  import opened EventBus
  import opened BusProtocol
  import opened BusSafety

  // ---- Deadlock freedom and termination ----

  /** While some task is inside a bus call, some task inside a bus call can take its next step. */
  lemma SomeTaskCanRun(n: Net, tasks: nat, s: State, k: nat)
    requires NetOk(n) && Reachable(n, tasks, s) && k < |s.tasks| && !s.tasks[k].Idle?
    ensures Sized(n, s) && exists j :: CanRun(n, s, j)
  {
    ReachableIsSafe(n, tasks, s);
    if s.dropLock.HeldBy? {
      assert CanRun(n, s, s.dropLock.task);
    } else if s.tasks[k].WantTopic? && s.topicLock[s.tasks[k].e.topic].HeldBy? {
      assert CanRun(n, s, s.topicLock[s.tasks[k].e.topic].task);
    } else if s.tasks[k].WantStats? && s.topicLock[s.tasks[k].topic].HeldBy? {
      assert CanRun(n, s, s.topicLock[s.tasks[k].topic].task);
    } else {
      assert CanRun(n, s, k);
    }
  }

  /** No task holds the drop lock while it waits for a topic lock, so locks are always taken in one order. */
  lemma LockOrder(n: Net, tasks: nat, s: State, k: nat)
    requires NetOk(n) && Reachable(n, tasks, s) && k < |s.tasks|
    ensures s.tasks[k].WantTopic? || s.tasks[k].WantStats? ==> s.dropLock != HeldBy(k) && HeldBy(k) !in s.topicLock
    ensures WantsDrop(s.tasks[k]) ==> s.dropLock != HeldBy(k)
  {
    ReachableIsSafe(n, tasks, s);
    if HeldBy(k) in s.topicLock {
      var t :| 0 <= t < |s.topicLock| && s.topicLock[t] == HeldBy(k);
      assert HoldsTopic(s.tasks[k]) == t;
    }
  }

  function Slots(n: Net, p: Task): nat
    requires TopicInRange(n, p)
  {
    match p
    case Idle => 0
    case WantStats(_) => 0
    case HaveStats(_) => 0
    case WantDropCount => 0
    case HaveDropCount => 0
    case _ => |n.subs[p.e.topic]|
  }

  /** An upper bound on the steps a task still makes before its bus call returns. */
  function Work(n: Net): Task -> nat {
    (p: Task) =>
      if !TopicInRange(n, p) || !SlotInRange(n, p) then 0
      else
        var m := Slots(n, p);
        match p
        case Idle => 0
        case WantId(_) => 4 + 6 * m
        case HaveId(_) => 3 + 6 * m
        case WantTopic(_, _) => 2 + 6 * m
        case FanningOut(_, _, i, _, _) => 1 + 6 * (m - i)
        case WantDrop(_, _, i, _) => 6 * (m - i)
        case HaveDrop(_, _, i, _) => 6 * (m - i) - 1
        case CountedDrop(_, _, i, _) => 6 * (m - i) - 2
        case WantTotal(_, _, i, _) => 6 * (m - i) - 3
        case HaveTotal(_, _, i, _) => 6 * (m - i) - 4
        case WantStats(_) => 2
        case HaveStats(_) => 1
        case WantDropCount => 2
        case HaveDropCount => 1
  }

  lemma RunReducesWork(n: Net, s: State, k: nat)
    requires NetOk(n) && LocksOk(n, s) && CanRun(n, s, k)
    ensures Sum(RunStep(n, s, k).tasks, Work(n)) < Sum(s.tasks, Work(n))
  {
    RunEffect(n, s, k);
    var next := RunStep(n, s, k).tasks[k];
    assert Work(n)(next) < Work(n)(s.tasks[k]);
    SumUpdate(s.tasks, Work(n), k, next);
  }

  predicate IsCall(a: Action) {
    a.Publish? || a.ReadStats? || a.ReadDropCount?
  }

  function Runs(acts: seq<Action>): nat {
    if acts == [] then 0 else (if acts[0].Run? then 1 else 0) + Runs(acts[1..])
  }

  lemma {:induction false} RunsBounded(n: Net, s: State, acts: seq<Action>, t: State)
    requires NetOk(n) && LocksOk(n, s) && Executes(n, s, acts, t)
    requires forall j :: 0 <= j < |acts| ==> !IsCall(acts[j])
    ensures LocksOk(n, t) && Runs(acts) + Sum(t.tasks, Work(n)) <= Sum(s.tasks, Work(n))
    decreases acts
  {
    if acts != [] {
      var s' := Step(n, s, acts[0]);
      StepKeepsLocks(n, s, acts[0]);
      if acts[0].Run? {
        RunReducesWork(n, s, acts[0].k);
      } else {
        assert s'.tasks == s.tasks;
      }
      RunsBounded(n, s', acts[1..], t);
    }
  }

  /** However bus calls in progress are interleaved, and whatever consumers do meanwhile, they make a
      bounded number of steps unless new calls come in; once none can step, every call has returned. */
  lemma CallsReturn(n: Net, tasks: nat, s: State, acts: seq<Action>, t: State)
    requires NetOk(n) && Reachable(n, tasks, s) && Executes(n, s, acts, t)
    requires forall j :: 0 <= j < |acts| ==> !IsCall(acts[j])
    ensures Sized(n, t) && Runs(acts) <= Sum(s.tasks, Work(n))
    ensures (forall j :: 0 <= j < |t.tasks| ==> !CanRun(n, t, j))
            ==> (forall j :: 0 <= j < |t.tasks| ==> t.tasks[j].Idle?)
  {
    ReachableIsSafe(n, tasks, s);
    RunsBounded(n, s, acts, t);
    if forall j :: 0 <= j < |t.tasks| ==> !CanRun(n, t, j) {
      forall j | 0 <= j < |t.tasks| ensures t.tasks[j].Idle? {
        if !t.tasks[j].Idle? {
          ReachableConcat(n, tasks, s, acts, t);
          SomeTaskCanRun(n, tasks, t, j);
        }
      }
    }
  }

  lemma {:induction false} ExecutesConcat(n: Net, s: State, xs: seq<Action>, t: State, ys: seq<Action>, u: State)
    requires NetOk(n) && Executes(n, s, xs, t) && Executes(n, t, ys, u)
    ensures Executes(n, s, xs + ys, u)
    decreases xs
  {
    if xs == [] {
      assert xs + ys == ys;
    } else {
      assert (xs + ys)[1..] == xs[1..] + ys;
      ExecutesConcat(n, Step(n, s, xs[0]), xs[1..], t, ys, u);
    }
  }

  lemma ReachableConcat(n: Net, tasks: nat, s: State, acts: seq<Action>, t: State)
    requires NetOk(n) && Reachable(n, tasks, s) && Executes(n, s, acts, t)
    ensures Reachable(n, tasks, t)
  {
    var first :| Executes(n, Init(n, tasks), first, s);
    ExecutesConcat(n, Init(n, tasks), first, s, acts, t);
  }

  // ---- A call on its own refines the sequential fan-out ----

  function Events(q: seq<Entry>): seq<Event> {
    seq(|q|, i requires 0 <= i < |q| => q[i].e)
  }

  function AllEvents(queues: seq<seq<Entry>>): seq<seq<Event>> {
    seq(|queues|, q requires 0 <= q < |queues| => Events(queues[q]))
  }

  /** The machine's view of a fan-out under way, in the terms of the sequential specification. */
  function SoFar(s: State, t: nat, accepted: nat, ok: bool): FanOut
    requires t < |s.stats|
  {
    FanOut(AllEvents(s.queues), s.stats[t], s.dropCount, accepted, ok)
  }

  /** Offering the event to the current slot, with or without a drop, is one Offer. */
  lemma OneSlotAlone(n: Net, s: State, k: nat) returns (acts: seq<Action>, t: State)
    requires NetOk(n) && LocksOk(n, s) && k < |s.tasks| && s.tasks[k].FanningOut? && s.dropLock.Free?
    requires s.tasks[k].i < |n.subs[s.tasks[k].e.topic]|
    ensures Executes(n, s, acts, t) && LocksOk(n, t) && |t.tasks| == |s.tasks| && t.dropLock.Free?
    ensures var me, me' := s.tasks[k], t.tasks[k];
            && me'.FanningOut? && me'.e == me.e && me'.i == me.i + 1 && t.nextEventId == s.nextEventId
            && SoFar(t, me.e.topic, me'.accepted, me'.ok)
            == Offer(n.subs[me.e.topic][me.i], n.caps, me.e, SoFar(s, me.e.topic, me.accepted, me.ok))
  {
    var me := s.tasks[k];
    var q := n.subs[me.e.topic][me.i];
    var s1 := RunStep(n, s, k);
    StepKeepsLocks(n, s, Run(k));
    assert Executes(n, s1, [], s1);
    if |s.queues[q]| < n.caps[q] {
      acts, t := [Run(k)], s1;
      assert Executes(n, s, acts, t);
      assert Events(s1.queues[q]) == Events(s.queues[q]) + [me.e];
      assert AllEvents(s1.queues) == AllEvents(s.queues)[q := Events(s.queues[q]) + [me.e]];
    } else {
      acts, t := DropAlone(n, s1, k);
      assert acts[0..] == acts;
      assert ([Run(k)] + acts)[1..] == acts;
      acts := [Run(k)] + acts;
      assert Executes(n, s, acts, t);
    }
  }

  lemma DropAlone(n: Net, s: State, k: nat) returns (acts: seq<Action>, t: State)
    requires NetOk(n) && LocksOk(n, s) && k < |s.tasks| && s.tasks[k].WantDrop? && s.dropLock.Free?
    ensures Executes(n, s, acts, t) && LocksOk(n, t) && |t.tasks| == |s.tasks| && t.dropLock.Free?
    ensures var me := s.tasks[k];
            && t.tasks[k] == FanningOut(me.e, me.rank, me.i + 1, me.accepted, false)
            && t.queues == s.queues && t.nextEventId == s.nextEventId && t.dropCount == Increment(s.dropCount)
            && t.stats == s.stats[me.e.topic := s.stats[me.e.topic].(dropped := Increment(s.stats[me.e.topic].dropped))]
  {
    acts, t := [], s;
    ghost var i := 0;
    while i < 5
      invariant i <= 5 && Executes(n, s, acts, t) && LocksOk(n, t) && |t.tasks| == |s.tasks|
      invariant var me := s.tasks[k];
                && t.queues == s.queues && t.nextEventId == s.nextEventId
                && t.tasks[k] == (if i == 0 then me else if i == 1 then HaveDrop(me.e, me.rank, me.i, me.accepted)
                                  else if i == 2 then CountedDrop(me.e, me.rank, me.i, me.accepted)
                                  else if i == 3 then WantTotal(me.e, me.rank, me.i, me.accepted)
                                  else if i == 4 then HaveTotal(me.e, me.rank, me.i, me.accepted)
                                  else FanningOut(me.e, me.rank, me.i + 1, me.accepted, false))
                && t.dropLock == (if i == 1 || i == 4 then HeldBy(k) else Free)
                && t.dropCount == (if i < 2 then s.dropCount else Increment(s.dropCount))
                && t.stats == if i < 3 then s.stats
                   else s.stats[me.e.topic := s.stats[me.e.topic].(dropped := Increment(s.stats[me.e.topic].dropped))]
    {
      ExecutesThen(n, s, acts, t, Run(k));
      StepKeepsLocks(n, t, Run(k));
      acts, t := acts + [Run(k)], RunStep(n, t, k);
      i := i + 1;
    }
  }

  /** The loop of the fan-out, from wherever it is to the release of the topic lock. */
  lemma {:induction false} FanOutAlone(n: Net, s: State, k: nat) returns (acts: seq<Action>, t: State)
    requires NetOk(n) && LocksOk(n, s) && k < |s.tasks| && s.tasks[k].FanningOut? && s.dropLock.Free?
    ensures Executes(n, s, acts, t) && |t.tasks| == |s.tasks| && t.tasks[k].Idle? && t.nextEventId == s.nextEventId
    ensures var me := s.tasks[k];
            && |t.stats| == |s.stats| && Fits(n.subs[me.e.topic][me.i..], n.caps, AllEvents(s.queues))
            && var r := OfferAll(n.subs[me.e.topic][me.i..], n.caps, me.e, SoFar(s, me.e.topic, me.accepted, me.ok));
               AllEvents(t.queues) == r.queues && t.stats[me.e.topic] == r.stats && t.dropCount == r.dropCount
    decreases |n.subs[s.tasks[k].e.topic]| - s.tasks[k].i
  {
    var me := s.tasks[k];
    var subs := n.subs[me.e.topic];
    if me.i < |subs| {
      var acts1, s1 := OneSlotAlone(n, s, k);
      var acts2;
      acts2, t := FanOutAlone(n, s1, k);
      ExecutesConcat(n, s, acts1, s1, acts2, t);
      acts := acts1 + acts2;
      assert subs[me.i..][1..] == subs[me.i + 1..];
    } else {
      t := RunStep(n, s, k);
      acts := [Run(k)];
      assert Executes(n, t, [], t);
    }
  }

  /** A task that publishes while all locks are free and nobody else moves returns with the queues, the
      topic's statistics, the drop count and the id counter the sequential bus computes. */
  lemma PublishAloneRefinesFanOut(n: Net, tasks: nat, s: State, k: nat, event: Event)
      returns (acts: seq<Action>, t: State)
    requires NetOk(n) && Reachable(n, tasks, s) && k < |s.tasks| && s.tasks[k].Idle? && event.topic < |n.subs|
    requires s.dropLock.Free? && event.topic < |s.topicLock| && s.topicLock[event.topic].Free?
    ensures Executes(n, s, acts, t) && |t.tasks| == |s.tasks| && t.tasks[k].Idle?
    ensures |s.stats| == |t.stats| == |n.subs| && Fits(n.subs[event.topic], n.caps, AllEvents(s.queues))
    ensures var r := Published(Topic(n.subs[event.topic], s.stats[event.topic]), n.caps,
                              AllEvents(s.queues), s.dropCount,
                               Routed(event, s.nextEventId));
            && AllEvents(t.queues) == r.queues && t.stats[event.topic] == r.stats && t.dropCount == r.dropCount
            && t.nextEventId == if event.eventId == 0 then Increment(s.nextEventId) else s.nextEventId
  {
    ReachableIsSafe(n, tasks, s);
    var acts1, s1 := EnterAlone(n, s, k, event);
    var acts2;
    acts2, t := FanOutAlone(n, s1, k);
    ExecutesConcat(n, s, acts1, s1, acts2, t);
    acts := acts1 + acts2;
    assert n.subs[event.topic][0..] == n.subs[event.topic];
  }

  lemma EnterAlone(n: Net, s: State, k: nat, event: Event) returns (acts: seq<Action>, t: State)
    requires NetOk(n) && LocksOk(n, s) && k < |s.tasks| && s.tasks[k].Idle? && event.topic < |n.subs|
    requires s.dropLock.Free? && s.topicLock[event.topic].Free?
    ensures Executes(n, s, acts, t) && LocksOk(n, t) && |t.tasks| == |s.tasks| && t.dropLock.Free?
            && t.queues == s.queues
    ensures t.tasks[k] == FanningOut(Routed(event, s.nextEventId), |s.order[event.topic]|, 0, 0, true)
    ensures t.nextEventId == (if event.eventId == 0 then Increment(s.nextEventId) else s.nextEventId)
            && t.dropCount == s.dropCount
    ensures t.stats[event.topic]
            == s.stats[event.topic].(published := Increment(s.stats[event.topic].published),
                                     subscribers := |n.subs[event.topic]|)
  {
    acts, t := [], s;
    var a := Publish(k, event);
    ExecutesThen(n, s, acts, t, a);
    StepKeepsLocks(n, t, a);
    acts, t := acts + [a], Step(n, t, a);
    if event.eventId == 0 {
      ExecutesThen(n, s, acts, t, Run(k));
      StepKeepsLocks(n, t, Run(k));
      acts, t := acts + [Run(k)], RunStep(n, t, k);
      ExecutesThen(n, s, acts, t, Run(k));
      StepKeepsLocks(n, t, Run(k));
      acts, t := acts + [Run(k)], RunStep(n, t, k);
    }
    ExecutesThen(n, s, acts, t, Run(k));
    StepKeepsLocks(n, t, Run(k));
    acts, t := acts + [Run(k)], RunStep(n, t, k);
  }

  // ---- Event ids are not ordered ----

  lemma ReachableThen(n: Net, tasks: nat, s: State, a: Action) returns (t: State)
    requires NetOk(n) && Reachable(n, tasks, s) && Sized(n, s) && Enabled(n, s, a)
    ensures Reachable(n, tasks, t) && t == Step(n, s, a)
  {
    t := Step(n, s, a);
    var acts :| Executes(n, Init(n, tasks), acts, s);
    ExecutesThen(n, Init(n, tasks), acts, s, a);
  }

  /** A task begins to publish and gets its event id, while the drop lock is free. */
  lemma GetId(n: Net, tasks: nat, s: State, k: nat, e: Event) returns (t: State)
    requires NetOk(n) && Reachable(n, tasks, s) && Sized(n, s) && s.dropLock.Free?
    requires k < |s.tasks| && s.tasks[k].Idle? && e.topic < |n.subs| && e.eventId == 0
    ensures Reachable(n, tasks, t)
    ensures t == s.(tasks := s.tasks[k := WantTopic(e.(eventId := s.nextEventId), Allocated(|s.ids|))],
                    nextEventId := Increment(s.nextEventId), ids := s.ids + [s.nextEventId])
  {
    t := ReachableThen(n, tasks, s, Publish(k, e));
    t := ReachableThen(n, tasks, t, Run(k));
    t := ReachableThen(n, tasks, t, Run(k));
    assert t.tasks == s.tasks[k := WantTopic(e.(eventId := s.nextEventId), Allocated(|s.ids|))];
  }

  /** A task with an id takes the topic lock and reaches its only subscriber, which has room. */
  lemma SendToOne(n: Net, tasks: nat, s: State, k: nat) returns (t: State)
    requires NetOk(n) && n == Net([[0]], [2]) && Reachable(n, tasks, s) && Sized(n, s) && s.topicLock[0].Free?
    requires k < |s.tasks| && s.tasks[k].WantTopic? && s.tasks[k].e.topic == 0 && |s.queues[0]| < 2
    ensures Reachable(n, tasks, t) && Sized(n, t) && t.dropLock == s.dropLock
    ensures var x := Entry(s.tasks[k].e, |s.order[0]|, 0);
            && t.log[0] == s.log[0] + [x] && t.queues[0] == s.queues[0] + [x] && t.topicLock[0].Free?
            && t.tasks == s.tasks[k := Idle]
  {
    t := ReachableThen(n, tasks, s, Run(k));
    var locked := t;
    assert t.tasks == s.tasks[k := FanningOut(s.tasks[k].e, |s.order[0]|, 0, 0, true)];
    t := ReachableThen(n, tasks, t, Run(k));
    assert t.tasks == s.tasks[k := FanningOut(s.tasks[k].e, |s.order[0]|, 1, 1, true)];
    t := ReachableThen(n, tasks, t, Run(k));
  }

  /** Ids are handed out before the topic lock is taken, so a queue may receive a later id first. */
  lemma IdsMayArriveOutOfOrder(e: Event) returns (n: Net, s: State)
    requires e.topic == 0 && e.eventId == 0
    ensures NetOk(n) && Reachable(n, 2, s) && |s.log| == 1 && |s.log[0]| == 2
    ensures s.log[0][0].e == e.(eventId := 2) && s.log[0][1].e == e.(eventId := 1)
  {
    n := Net([[0]], [2]);
    s := Init(n, 2);
    assert Executes(n, s, [], s);
    s := GetId(n, 2, s, 0, e);
    s := GetId(n, 2, s, 1, e);
    s := SendToOne(n, 2, s, 1);
    s := SendToOne(n, 2, s, 0);
  }
}
