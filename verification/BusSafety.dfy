/** What every interleaving of bus calls keeps: lock ownership, per-topic order, ids and counters. */
module BusSafety {
  import opened Common
  import opened EventBus
  import opened BusProtocol

  // ---- Locks ----

  ghost predicate PositionsOk(n: Net, s: State) {
    Sized(n, s) && forall k :: 0 <= k < |s.tasks| ==> TopicInRange(n, s.tasks[k]) && SlotInRange(n, s.tasks[k])
  }

  ghost predicate TopicLocksOk(n: Net, s: State)
    requires PositionsOk(n, s)
  {
    && (forall k :: 0 <= k < |s.tasks| && HoldsTopic(s.tasks[k]) >= 0
         ==> s.topicLock[HoldsTopic(s.tasks[k])] == HeldBy(k))
    && (forall t :: 0 <= t < |n.subs| && s.topicLock[t].HeldBy? ==>
          s.topicLock[t].task < |s.tasks| && HoldsTopic(s.tasks[s.topicLock[t].task]) == t)
  }

  ghost predicate DropLockOk(s: State) {
    && (forall k :: 0 <= k < |s.tasks| && HoldsDrop(s.tasks[k]) ==> s.dropLock == HeldBy(k))
    && (s.dropLock.HeldBy? ==> s.dropLock.task < |s.tasks| && HoldsDrop(s.tasks[s.dropLock.task]))
  }

  /** A lock is marked held exactly by the one task that is inside its critical section. */
  ghost predicate LocksOk(n: Net, s: State) {
    PositionsOk(n, s) && TopicLocksOk(n, s) && DropLockOk(s)
  }

  /** Every action moves one task (or none), and changes a lock only as that task enters or leaves. */
  lemma StepEffect(n: Net, s: State, a: Action)
    requires NetOk(n) && PositionsOk(n, s) && Enabled(n, s, a)
    ensures PositionsOk(n, Step(n, s, a)) && |Step(n, s, a).tasks| == |s.tasks|
    ensures var t := Step(n, s, a);
            if a.Take? then t.tasks == s.tasks && t.topicLock == s.topicLock && t.dropLock == s.dropLock
            else
              a.k < |s.tasks| && t.tasks == s.tasks[a.k := t.tasks[a.k]]
              && TopicMove(s, t, a.k, HoldsTopic(s.tasks[a.k]), HoldsTopic(t.tasks[a.k]))
              && DropMove(s, t, a.k, HoldsDrop(s.tasks[a.k]), HoldsDrop(t.tasks[a.k]))
  {
    if a.Run? {
      RunEffect(n, s, a.k);
    }
  }

  ghost predicate Moved(n: Net, s: State, t: State, k: nat)
    requires k < |s.tasks|
  {
    && Sized(n, t) && |t.tasks| == |s.tasks| && t.tasks == s.tasks[k := t.tasks[k]]
    && TopicInRange(n, t.tasks[k]) && SlotInRange(n, t.tasks[k])
    && TopicMove(s, t, k, HoldsTopic(s.tasks[k]), HoldsTopic(t.tasks[k]))
    && DropMove(s, t, k, HoldsDrop(s.tasks[k]), HoldsDrop(t.tasks[k]))
  }

  lemma RunEffect(n: Net, s: State, k: nat)
    requires NetOk(n) && PositionsOk(n, s) && CanRun(n, s, k)
    ensures Moved(n, s, RunStep(n, s, k), k)
  {
    if s.tasks[k].FanningOut? {
      SendEffect(n, s, k);
    } else if HoldsTopic(s.tasks[k]) >= 0 {
      DropPathEffect(n, s, k);
    }
  }

  lemma SendEffect(n: Net, s: State, k: nat)
    requires NetOk(n) && PositionsOk(n, s) && CanRun(n, s, k) && s.tasks[k].FanningOut?
    ensures Moved(n, s, SendStep(n, s, k), k)
  {
  }

  lemma DropPathEffect(n: Net, s: State, k: nat)
    requires NetOk(n) && PositionsOk(n, s) && CanRun(n, s, k) && !s.tasks[k].FanningOut? && HoldsTopic(s.tasks[k]) >= 0
    ensures Moved(n, s, RunStep(n, s, k), k)
  {
  }

  predicate TopicMove(s: State, t: State, k: nat, before: int, after: int) {
    if before == after then t.topicLock == s.topicLock
    else if before < 0 then
      0 <= after < |s.topicLock| && s.topicLock[after].Free? && t.topicLock == s.topicLock[after := HeldBy(k)]
    else before < |s.topicLock| && after < 0 && t.topicLock == s.topicLock[before := Free]
  }

  predicate DropMove(s: State, t: State, k: nat, before: bool, after: bool) {
    if before == after then t.dropLock == s.dropLock
    else if after then s.dropLock.Free? && t.dropLock == HeldBy(k)
    else t.dropLock.Free?
  }

  lemma StepKeepsLocks(n: Net, s: State, a: Action)
    requires NetOk(n) && LocksOk(n, s) && Enabled(n, s, a)
    ensures LocksOk(n, Step(n, s, a))
  {
    StepEffect(n, s, a);
    MoveKeepsLocks(n, s, Step(n, s, a), if a.Take? then 0 else a.k);
  }

  lemma MoveKeepsLocks(n: Net, s: State, t: State, k: nat)
    requires LocksOk(n, s) && PositionsOk(n, t) && |t.tasks| == |s.tasks|
    requires t.tasks == s.tasks ==> t.topicLock == s.topicLock && t.dropLock == s.dropLock
    requires t.tasks != s.tasks ==>
               k < |s.tasks| && t.tasks == s.tasks[k := t.tasks[k]]
               && TopicMove(s, t, k, HoldsTopic(s.tasks[k]), HoldsTopic(t.tasks[k]))
               && DropMove(s, t, k, HoldsDrop(s.tasks[k]), HoldsDrop(t.tasks[k]))
    ensures LocksOk(n, t)
  {
  }

  // ---- Order ----

  /** Entry `x` was offered before entry `y` of the same topic. */
  predicate Before(x: Entry, y: Entry) {
    x.rank < y.rank || (x.rank == y.rank && x.slot < y.slot)
  }

  ghost predicate OrderOk(n: Net, s: State)
    requires Sized(n, s)
  {
    && (forall q, a :: 0 <= q < |s.log| && 0 <= a < |s.log[q]| ==> EntryOk(n, s, q, s.log[q][a]))
    && (forall q, a, b :: 0 <= q < |s.log| && 0 <= a < b < |s.log[q]| && s.log[q][a].e.topic == s.log[q][b].e.topic
          ==> Before(s.log[q][a], s.log[q][b]))
    && (forall k :: 0 <= k < |s.tasks| ==> PublisherOk(n, s, s.tasks[k]))
    && (forall q :: 0 <= q < |s.queues| ==> IsTail(s.queues[q], s.log[q]))
  }

  predicate IsTail(queue: seq<Entry>, log: seq<Entry>) {
    |queue| <= |log| && queue == log[|log| - |queue|..]
  }

  /** An accepted event is the one that took the topic's lock at its rank, for a slot of this queue. */
  predicate EntryOk(n: Net, s: State, q: nat, x: Entry)
    requires Sized(n, s)
  {
    var t := x.e.topic;
    t < |n.subs| && x.rank < |s.order[t]| && s.order[t][x.rank] == x.e && x.slot < |n.subs[t]| && n.subs[t][x.slot] == q
  }

  /** A publish in progress is the latest of its topic, and nothing at or past its slot is out yet. */
  ghost predicate PublisherOk(n: Net, s: State, p: Task)
    requires Sized(n, s)
  {
    HoldsTopic(p) >= 0 && !p.HaveStats? ==>
      var t := p.e.topic;
      && t < |n.subs| && p.rank + 1 == |s.order[t]| && s.order[t][p.rank] == p.e
      && forall q, a :: 0 <= q < |s.log| && 0 <= a < |s.log[q]| && s.log[q][a].e.topic == t
           ==> s.log[q][a].rank < p.rank || (s.log[q][a].rank == p.rank && s.log[q][a].slot < NextSlot(p))
  }

  function NextSlot(p: Task): nat
    requires HoldsTopic(p) >= 0 && !p.HaveStats?
  {
    if p.FanningOut? then p.i else p.i + 1
  }

  lemma StepKeepsOrder(n: Net, s: State, a: Action)
    requires NetOk(n) && LocksOk(n, s) && OrderOk(n, s) && Enabled(n, s, a)
    ensures Sized(n, Step(n, s, a)) && OrderOk(n, Step(n, s, a))
  {
    match a {
      case Take(q) => TakeKeepsOrder(n, s, q);
      case Run(k) => RunKeepsOrder(n, s, k);
      case Publish(k, _) => CallKeepsOrder(n, s, k, Step(n, s, a).tasks[k]);
      case ReadStats(k, _) => CallKeepsOrder(n, s, k, Step(n, s, a).tasks[k]);
      case ReadDropCount(k) => CallKeepsOrder(n, s, k, Step(n, s, a).tasks[k]);
    }
  }

  lemma CallKeepsOrder(n: Net, s: State, k: nat, next: Task)
    requires NetOk(n) && LocksOk(n, s) && OrderOk(n, s) && k < |s.tasks| && HoldsTopic(next) < 0
    ensures OrderOk(n, Goto(s, k, next))
  {
    assert forall j :: 0 <= j < |s.tasks| ==> PublisherOk(n, s, s.tasks[j]);
  }

  lemma TakeKeepsOrder(n: Net, s: State, q: nat)
    requires NetOk(n) && LocksOk(n, s) && OrderOk(n, s) && Enabled(n, s, Take(q))
    ensures OrderOk(n, Step(n, s, Take(q)))
  {
    var t := Step(n, s, Take(q));
    forall j | 0 <= j < |t.tasks| ensures PublisherOk(n, t, t.tasks[j]) {
      assert PublisherOk(n, s, s.tasks[j]);
    }
    forall r | 0 <= r < |t.queues| ensures IsTail(t.queues[r], t.log[r]) {
      assert IsTail(s.queues[r], s.log[r]);
    }
  }

  lemma RunKeepsOrder(n: Net, s: State, k: nat)
    requires NetOk(n) && LocksOk(n, s) && OrderOk(n, s) && CanRun(n, s, k)
    ensures Sized(n, RunStep(n, s, k)) && OrderOk(n, RunStep(n, s, k))
  {
    RunEffect(n, s, k);
    if s.tasks[k].WantTopic? {
      LockKeepsOrder(n, s, k);
    } else if s.tasks[k].FanningOut? {
      SendKeepsOrder(n, s, k);
    } else {
      QuietRunKeepsOrder(n, s, k);
    }
  }

  lemma QuietRunKeepsOrder(n: Net, s: State, k: nat)
    requires NetOk(n) && LocksOk(n, s) && OrderOk(n, s) && CanRun(n, s, k)
    requires !s.tasks[k].WantTopic? && !s.tasks[k].FanningOut?
    ensures OrderOk(n, RunStep(n, s, k))
  {
    var t := RunStep(n, s, k);
    QuietRunMoves(n, s, k);
    forall j | 0 <= j < |t.tasks| ensures PublisherOk(n, t, t.tasks[j]) {
      assert PublisherOk(n, s, s.tasks[j]);
    }
  }

  /** It changes no order, and keeps its publisher where it is or moves it past a slot. */
  lemma QuietRunMoves(n: Net, s: State, k: nat)
    requires NetOk(n) && PositionsOk(n, s) && CanRun(n, s, k) && !s.tasks[k].WantTopic? && !s.tasks[k].FanningOut?
    ensures var t, p, p' := RunStep(n, s, k), s.tasks[k], RunStep(n, s, k).tasks[k];
            && t.log == s.log && t.order == s.order && t.queues == s.queues && t.tasks == s.tasks[k := p']
            && (HoldsTopic(p') >= 0 && !p'.HaveStats? ==>
                  HoldsTopic(p) >= 0 && !p.HaveStats? && p'.e == p.e && p'.rank == p.rank
                  && NextSlot(p') == NextSlot(p))
  {
  }

  lemma LockKeepsOrder(n: Net, s: State, k: nat)
    requires NetOk(n) && LocksOk(n, s) && OrderOk(n, s) && CanRun(n, s, k) && s.tasks[k].WantTopic?
    ensures OrderOk(n, RunStep(n, s, k))
  {
    var t := RunStep(n, s, k);
    forall q, a | 0 <= q < |t.log| && 0 <= a < |t.log[q]| ensures EntryOk(n, t, q, t.log[q][a]) {
      assert EntryOk(n, s, q, s.log[q][a]);
    }
    forall j | 0 <= j < |t.tasks| ensures PublisherOk(n, t, t.tasks[j]) {
      if j == k {
        forall q, a | 0 <= q < |t.log| && 0 <= a < |t.log[q]| && t.log[q][a].e.topic == t.tasks[k].e.topic
          ensures t.log[q][a].rank < t.tasks[k].rank
        {
          assert EntryOk(n, s, q, s.log[q][a]);
        }
      } else {
        assert PublisherOk(n, s, s.tasks[j]);
      }
    }
  }

  lemma SendKeepsOrder(n: Net, s: State, k: nat)
    requires NetOk(n) && LocksOk(n, s) && OrderOk(n, s) && CanRun(n, s, k) && s.tasks[k].FanningOut?
    ensures OrderOk(n, RunStep(n, s, k))
  {
    var t := RunStep(n, s, k);
    var me := s.tasks[k];
    if me.i < |n.subs[me.e.topic]| && |s.queues[n.subs[me.e.topic][me.i]]| < n.caps[n.subs[me.e.topic][me.i]] {
      AcceptKeepsOrder(n, s, k);
    } else {
      assert t.log == s.log && t.order == s.order && t.queues == s.queues;
      assert forall j :: 0 <= j < |s.tasks| ==> PublisherOk(n, s, s.tasks[j]);
    }
  }

  lemma AcceptKeepsOrder(n: Net, s: State, k: nat)
    requires NetOk(n) && LocksOk(n, s) && OrderOk(n, s) && CanRun(n, s, k) && s.tasks[k].FanningOut?
    requires var me := s.tasks[k];
             me.i < |n.subs[me.e.topic]| && |s.queues[n.subs[me.e.topic][me.i]]| < n.caps[n.subs[me.e.topic][me.i]]
    ensures OrderOk(n, RunStep(n, s, k))
  {
    var t := RunStep(n, s, k);
    var me := s.tasks[k];
    var q := n.subs[me.e.topic][me.i];
    var x := Entry(me.e, me.rank, me.i);
    assert PublisherOk(n, s, me);
    assert t.log == s.log[q := s.log[q] + [x]] && t.queues == s.queues[q := s.queues[q] + [x]];
    assert IsTail(s.queues[q], s.log[q]);
    forall r, a | 0 <= r < |t.log| && 0 <= a < |t.log[r]| ensures EntryOk(n, t, r, t.log[r][a]) {
      assert a < |s.log[r]| ==> EntryOk(n, s, r, s.log[r][a]);
    }
    forall j | 0 <= j < |t.tasks| ensures PublisherOk(n, t, t.tasks[j]) {
      AcceptKeepsPublisher(n, s, k, j);
    }
  }

  lemma AcceptKeepsPublisher(n: Net, s: State, k: nat, j: nat)
    requires NetOk(n) && LocksOk(n, s) && OrderOk(n, s) && CanRun(n, s, k) && s.tasks[k].FanningOut? && j < |s.tasks|
    requires var me := s.tasks[k];
             me.i < |n.subs[me.e.topic]| && |s.queues[n.subs[me.e.topic][me.i]]| < n.caps[n.subs[me.e.topic][me.i]]
    ensures PublisherOk(n, RunStep(n, s, k), RunStep(n, s, k).tasks[j])
  {
    var t := RunStep(n, s, k);
    assert PublisherOk(n, s, s.tasks[j]) && PublisherOk(n, s, s.tasks[k]);
    forall r, a | 0 <= r < |t.log| && 0 <= a < |t.log[r]|
      ensures (a < |s.log[r]| && t.log[r][a] == s.log[r][a])
              || t.log[r][a] == Entry(s.tasks[k].e, s.tasks[k].rank, s.tasks[k].i) {
    }
  }

  // ---- Event ids ----

  predicate IdsOk(s: State) {
    s.nextEventId == (1 + |s.ids|) % U32 && forall j :: 0 <= j < |s.ids| ==> s.ids[j] == (1 + j) % U32
  }

  lemma ModShift(x: int, d: int)
    ensures (x + d * U32) % U32 == x % U32
  {
  }

  lemma IncrementMod(x: nat)
    ensures Increment(x % U32) == (x + 1) % U32
  {
    ModShift(x % U32 + 1, x / U32);
  }

  lemma StepKeepsIds(n: Net, s: State, a: Action)
    requires NetOk(n) && Sized(n, s) && IdsOk(s) && Enabled(n, s, a)
    ensures IdsOk(Step(n, s, a))
  {
    IncrementMod(1 + |s.ids|);
  }

  // ---- Runs ----

  lemma InitSafe(n: Net, tasks: nat)
    requires NetOk(n)
    ensures LocksOk(n, Init(n, tasks)) && OrderOk(n, Init(n, tasks)) && IdsOk(Init(n, tasks))
  {
  }

  lemma {:induction false} RunIsSafe(n: Net, s: State, acts: seq<Action>, t: State)
    requires NetOk(n) && LocksOk(n, s) && OrderOk(n, s) && IdsOk(s) && Executes(n, s, acts, t)
    ensures LocksOk(n, t) && OrderOk(n, t) && IdsOk(t)
    decreases acts
  {
    if acts != [] {
      StepKeepsLocks(n, s, acts[0]);
      StepKeepsOrder(n, s, acts[0]);
      StepKeepsIds(n, s, acts[0]);
      RunIsSafe(n, Step(n, s, acts[0]), acts[1..], t);
    }
  }

  lemma ReachableIsSafe(n: Net, tasks: nat, t: State)
    requires NetOk(n) && Reachable(n, tasks, t)
    ensures LocksOk(n, t) && OrderOk(n, t) && IdsOk(t)
  {
    InitSafe(n, tasks);
    var acts :| Executes(n, Init(n, tasks), acts, t);
    RunIsSafe(n, Init(n, tasks), acts, t);
  }

  // ---- Main results ----

  lemma {:induction false} OccursOnce(subs: seq<nat>, q: nat, i: nat, j: nat)
    requires i < j < |subs| && subs[i] == q == subs[j]
    ensures Occurrences(subs, q) >= 2
  {
    if i > 0 {
      OccursOnce(subs[1..], q, i - 1, j - 1);
    } else {
      OccursAtLeast(subs[1..], q, j - 1);
    }
  }

  lemma {:induction false} OccursAtLeast(subs: seq<nat>, q: nat, j: nat)
    requires j < |subs| && subs[j] == q
    ensures Occurrences(subs, q) >= 1
  {
    if j > 0 {
      OccursAtLeast(subs[1..], q, j - 1);
    }
  }

  /** What a queue accepted of one topic follows the order in which the publishers took the topic's
      lock: it is a subsequence of it when the queue is subscribed once, and repeats an event at most
      once for each further subscription. */
  lemma QueueFollowsLockOrder(n: Net, tasks: nat, s: State, q: nat, a: nat, b: nat)
    requires NetOk(n) && Reachable(n, tasks, s) && q < |s.log| && a < b < |s.log[q]|
    requires s.log[q][a].e.topic == s.log[q][b].e.topic
    ensures var t := s.log[q][a].e.topic;
            && t < |s.order| && s.log[q][a].rank <= s.log[q][b].rank < |s.order[t]|
            && s.order[t][s.log[q][a].rank] == s.log[q][a].e && s.order[t][s.log[q][b].rank] == s.log[q][b].e
            && t < |n.subs| && (Occurrences(n.subs[t], q) == 1 ==> s.log[q][a].rank < s.log[q][b].rank)
            && (s.log[q][a].rank == s.log[q][b].rank ==> s.log[q][a].slot < s.log[q][b].slot)
  {
    ReachableIsSafe(n, tasks, s);
    var x, y := s.log[q][a], s.log[q][b];
    assert EntryOk(n, s, q, x) && EntryOk(n, s, q, y);
    if x.rank == y.rank {
      OccursOnce(n.subs[x.e.topic], q, x.slot, y.slot);
    }
  }

  /** Two subscribers never disagree on the order of two publishes of a topic that both received. */
  lemma SubscribersAgree(n: Net, tasks: nat, s: State, q: nat, a: nat, b: nat, q': nat, a': nat, b': nat)
    requires NetOk(n) && Reachable(n, tasks, s)
    requires q < |s.log| && a < |s.log[q]| && b < |s.log[q]| && q' < |s.log| && a' < |s.log[q']| && b' < |s.log[q']|
    requires s.log[q][a].e.topic == s.log[q][b].e.topic == s.log[q'][a'].e.topic == s.log[q'][b'].e.topic
    requires s.log[q][a].rank == s.log[q'][a'].rank != s.log[q][b].rank == s.log[q'][b'].rank
    ensures a < b <==> a' < b'
  {
    ReachableIsSafe(n, tasks, s);
  }

  /** A queue holds the most recent of what it accepted, in that order. */
  lemma QueueIsTailOfLog(n: Net, tasks: nat, s: State, q: nat)
    requires NetOk(n) && Reachable(n, tasks, s) && q < |s.queues|
    ensures |s.log| == |s.queues| && IsTail(s.queues[q], s.log[q])
  {
    ReachableIsSafe(n, tasks, s);
  }

  /** Two allocated event ids are equal exactly when a multiple of 2^32 allocations lies between them. */
  lemma EventIdsCollideIff(n: Net, tasks: nat, s: State, j: nat, k: nat)
    requires NetOk(n) && Reachable(n, tasks, s) && j < k < |s.ids|
    ensures s.ids[j] == s.ids[k] <==> (k - j) % U32 == 0
  {
    ReachableIsSafe(n, tasks, s);
    DiffMod(1 + j, 1 + k);
  }

  lemma DiffMod(a: nat, b: nat)
    ensures a % U32 == b % U32 <==> (b - a) % U32 == 0
  {
    ModShift(b % U32 - a % U32, b / U32 - a / U32);
    assert b - a == (b % U32 - a % U32) + (b / U32 - a / U32) * U32;
  }
}
