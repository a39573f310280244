/** Delivery accounting of the bus over every run of task publishers. */
module BusAccounting {
  import opened Common
  import opened Sums
  import opened EventBus
  import opened BusProtocol
  import opened BusSafety

  function OfTopic(t: nat): Entry -> nat {
    (x: Entry) => if x.e.topic == t then 1 else 0
  }

  function LogOfTopic(t: nat): seq<Entry> -> nat {
    (q: seq<Entry>) => Sum(q, OfTopic(t))
  }

  /** How many events of topic `t` the queues have accepted, all together. */
  function Delivered(s: State, t: nat): nat {
    Sum(s.log, LogOfTopic(t))
  }

  /** Slots of topic `t` that the task has not accounted for yet in the topic's statistics. */
  function Pending(n: Net, t: nat): Task -> nat {
    (p: Task) =>
      if t >= |n.subs| || HoldsTopic(p) != t || p.HaveStats? then 0
      else
        var done := if p.WantTotal? || p.HaveTotal? then p.i + 1 else p.i;
        if done < |n.subs[t]| then |n.subs[t]| - done else 0
  }

  /** A drop counted globally but not yet in its topic's statistics. */
  function InFlight(): Task -> nat {
    (p: Task) => if p.CountedDrop? then 1 else 0
  }

  function Itself(): nat -> nat {
    (x: nat) => x
  }

  function DroppedOf(): Stats -> nat {
    (x: Stats) => x.dropped
  }

  predicate TopicCountsOk(n: Net, s: State, t: nat)
    requires Sized(n, s) && t < |n.subs|
  {
    && |s.order[t]| * |n.subs[t]| == Delivered(s, t) + s.drops[t] + Sum(s.tasks, Pending(n, t))
    && s.stats[t].published == |s.order[t]| % U32
    && s.stats[t].delivered == Delivered(s, t) % U32
    && s.stats[t].dropped == s.drops[t] % U32
  }

  ghost predicate CountsOk(n: Net, s: State)
    requires Sized(n, s)
  {
    && (forall t :: 0 <= t < |n.subs| ==> TopicCountsOk(n, s, t))
    && s.dropCount == s.totalDrops % U32
    && s.totalDrops == Sum(s.drops, Itself()) + Sum(s.tasks, InFlight())
  }

  lemma TaskSums(n: Net, s: State, t: State, k: nat, topic: nat)
    requires k < |s.tasks| && |t.tasks| == |s.tasks| && t.tasks == s.tasks[k := t.tasks[k]]
    ensures Sum(t.tasks, Pending(n, topic)) + Pending(n, topic)(s.tasks[k])
              == Sum(s.tasks, Pending(n, topic)) + Pending(n, topic)(t.tasks[k])
    ensures Sum(t.tasks, InFlight()) + InFlight()(s.tasks[k]) == Sum(s.tasks, InFlight()) + InFlight()(t.tasks[k])
  {
    SumUpdate(s.tasks, Pending(n, topic), k, t.tasks[k]);
    SumUpdate(s.tasks, InFlight(), k, t.tasks[k]);
  }

  lemma DeliveredAppend(s: State, t: State, q: nat, x: Entry, topic: nat)
    requires q < |s.log| && t.log == s.log[q := s.log[q] + [x]]
    ensures Delivered(t, topic) == Delivered(s, topic) + OfTopic(topic)(x)
  {
    SumUpdate(s.log, LogOfTopic(topic), q, s.log[q] + [x]);
    SumAppend(s.log[q], OfTopic(topic), x);
  }

  lemma LockKeepsCounts(n: Net, s: State, k: nat)
    requires NetOk(n) && LocksOk(n, s) && CountsOk(n, s) && CanRun(n, s, k) && s.tasks[k].WantTopic?
    ensures CountsOk(n, RunStep(n, s, k))
  {
    var t := RunStep(n, s, k);
    var me := s.tasks[k].e.topic;
    forall x | 0 <= x < |n.subs| ensures TopicCountsOk(n, t, x) {
      assert TopicCountsOk(n, s, x);
      TaskSums(n, s, t, k, x);
      IncrementMod(|s.order[x]|);
      assert (|s.order[x]| + 1) * |n.subs[x]| == |s.order[x]| * |n.subs[x]| + |n.subs[x]|;
    }
    TaskSums(n, s, t, k, 0);
  }

  lemma AcceptKeepsCounts(n: Net, s: State, k: nat)
    requires NetOk(n) && LocksOk(n, s) && CountsOk(n, s) && CanRun(n, s, k) && s.tasks[k].FanningOut?
    requires var me := s.tasks[k];
             me.i < |n.subs[me.e.topic]| && |s.queues[n.subs[me.e.topic][me.i]]| < n.caps[n.subs[me.e.topic][me.i]]
    ensures CountsOk(n, RunStep(n, s, k))
  {
    var t := RunStep(n, s, k);
    var me := s.tasks[k];
    forall x | 0 <= x < |n.subs| ensures TopicCountsOk(n, t, x) {
      assert TopicCountsOk(n, s, x);
      TaskSums(n, s, t, k, x);
      DeliveredAppend(s, t, n.subs[me.e.topic][me.i], Entry(me.e, me.rank, me.i), x);
      IncrementMod(Delivered(s, x));
    }
    TaskSums(n, s, t, k, 0);
  }

  lemma CountDropKeepsCounts(n: Net, s: State, k: nat)
    requires NetOk(n) && LocksOk(n, s) && CountsOk(n, s) && CanRun(n, s, k) && s.tasks[k].HaveDrop?
    ensures CountsOk(n, RunStep(n, s, k))
  {
    var t := RunStep(n, s, k);
    forall x | 0 <= x < |n.subs| ensures TopicCountsOk(n, t, x) {
      assert TopicCountsOk(n, s, x);
      TaskSums(n, s, t, k, x);
      assert Delivered(t, x) == Delivered(s, x);
    }
    TaskSums(n, s, t, k, 0);
    IncrementMod(s.totalDrops);
  }

  lemma TopicDropCounted(n: Net, s: State, k: nat, x: nat)
    requires NetOk(n) && LocksOk(n, s) && CountsOk(n, s) && CanRun(n, s, k) && s.tasks[k].CountedDrop? && x < |n.subs|
    ensures TopicCountsOk(n, RunStep(n, s, k), x)
  {
    var t := RunStep(n, s, k);
    assert TopicCountsOk(n, s, x);
    TaskSums(n, s, t, k, x);
    assert Delivered(t, x) == Delivered(s, x);
    IncrementMod(s.drops[x]);
  }

  lemma CountTopicDropKeepsCounts(n: Net, s: State, k: nat)
    requires NetOk(n) && LocksOk(n, s) && CountsOk(n, s) && CanRun(n, s, k) && s.tasks[k].CountedDrop?
    ensures CountsOk(n, RunStep(n, s, k))
  {
    var t := RunStep(n, s, k);
    var me := s.tasks[k].e.topic;
    forall x | 0 <= x < |n.subs| ensures TopicCountsOk(n, t, x) {
      TopicDropCounted(n, s, k, x);
    }
    TaskSums(n, s, t, k, 0);
    SumUpdate(s.drops, Itself(), me, s.drops[me] + 1);
  }

  /** Everything else moves a task between places with the same amount pending. */
  lemma QuietKeepsCounts(n: Net, s: State, t: State, k: nat)
    requires Sized(n, s) && Sized(n, t) && CountsOk(n, s) && t.log == s.log && t.order == s.order && t.drops == s.drops
    requires t.stats == s.stats && t.dropCount == s.dropCount && t.totalDrops == s.totalDrops
    requires k < |s.tasks| && |t.tasks| == |s.tasks| && t.tasks == s.tasks[k := t.tasks[k]]
    requires InFlight()(s.tasks[k]) == InFlight()(t.tasks[k])
    requires forall x :: 0 <= x < |n.subs| ==> Pending(n, x)(s.tasks[k]) == Pending(n, x)(t.tasks[k])
    ensures CountsOk(n, t)
  {
    forall x | 0 <= x < |n.subs| ensures TopicCountsOk(n, t, x) {
      assert TopicCountsOk(n, s, x);
      TaskSums(n, s, t, k, x);
      assert Delivered(t, x) == Delivered(s, x);
    }
    TaskSums(n, s, t, k, 0);
  }

  lemma TakeKeepsCounts(n: Net, s: State, q: nat)
    requires NetOk(n) && LocksOk(n, s) && CountsOk(n, s) && Enabled(n, s, Take(q))
    ensures CountsOk(n, Step(n, s, Take(q)))
  {
    var t := Step(n, s, Take(q));
    forall x | 0 <= x < |n.subs| ensures TopicCountsOk(n, t, x) {
      assert TopicCountsOk(n, s, x);
      assert Delivered(t, x) == Delivered(s, x);
    }
  }

  predicate Accepts(n: Net, s: State, p: Task)
    requires NetOk(n) && Sized(n, s) && p.FanningOut? && p.e.topic < |n.subs|
  {
    p.i < |n.subs[p.e.topic]| && |s.queues[n.subs[p.e.topic][p.i]]| < n.caps[n.subs[p.e.topic][p.i]]
  }

  lemma RunKeepsCount(n: Net, s: State, k: nat)
    requires NetOk(n) && LocksOk(n, s) && CountsOk(n, s) && CanRun(n, s, k)
    ensures Sized(n, RunStep(n, s, k)) && CountsOk(n, RunStep(n, s, k))
  {
    var me := s.tasks[k];
    RunEffect(n, s, k);
    if me.WantTopic? {
      LockKeepsCounts(n, s, k);
    } else if me.HaveDrop? {
      CountDropKeepsCounts(n, s, k);
    } else if me.CountedDrop? {
      CountTopicDropKeepsCounts(n, s, k);
    } else if me.FanningOut? && Accepts(n, s, me) {
      AcceptKeepsCounts(n, s, k);
    } else {
      QuietRun(n, s, k);
      QuietKeepsCounts(n, s, RunStep(n, s, k), k);
    }
  }

  lemma QuietRun(n: Net, s: State, k: nat)
    requires NetOk(n) && PositionsOk(n, s) && CanRun(n, s, k)
    requires !s.tasks[k].WantTopic? && !s.tasks[k].HaveDrop? && !s.tasks[k].CountedDrop?
    requires s.tasks[k].FanningOut? ==> !Accepts(n, s, s.tasks[k])
    ensures var t := RunStep(n, s, k);
            && |t.tasks| == |s.tasks| && t.log == s.log && t.order == s.order && t.drops == s.drops
            && t.stats == s.stats && t.dropCount == s.dropCount && t.totalDrops == s.totalDrops
            && InFlight()(s.tasks[k]) == InFlight()(t.tasks[k])
            && forall x :: 0 <= x < |n.subs| ==> Pending(n, x)(s.tasks[k]) == Pending(n, x)(t.tasks[k])
  {
  }

  lemma StepKeepsCounts(n: Net, s: State, a: Action)
    requires NetOk(n) && LocksOk(n, s) && CountsOk(n, s) && Enabled(n, s, a)
    ensures Sized(n, Step(n, s, a)) && CountsOk(n, Step(n, s, a))
  {
    match a {
      case Take(q) => TakeKeepsCounts(n, s, q);
      case Run(k) => RunKeepsCount(n, s, k);
      case Publish(k, _) => QuietKeepsCounts(n, s, Step(n, s, a), k);
      case ReadStats(k, _) => QuietKeepsCounts(n, s, Step(n, s, a), k);
      case ReadDropCount(k) => QuietKeepsCounts(n, s, Step(n, s, a), k);
    }
  }

  lemma InitCounts(n: Net, tasks: nat)
    requires NetOk(n)
    ensures CountsOk(n, Init(n, tasks))
  {
    var s := Init(n, tasks);
    forall t | 0 <= t < |n.subs| ensures TopicCountsOk(n, s, t) {
      SumZero(s.log, LogOfTopic(t));
      SumZero(s.tasks, Pending(n, t));
    }
    SumZero(s.drops, Itself());
    SumZero(s.tasks, InFlight());
  }

  lemma {:induction false} RunKeepsCounts(n: Net, s: State, acts: seq<Action>, t: State)
    requires NetOk(n) && LocksOk(n, s) && CountsOk(n, s) && Executes(n, s, acts, t)
    ensures LocksOk(n, t) && CountsOk(n, t)
    decreases acts
  {
    if acts != [] {
      StepKeepsLocks(n, s, acts[0]);
      StepKeepsCounts(n, s, acts[0]);
      RunKeepsCounts(n, Step(n, s, acts[0]), acts[1..], t);
    }
  }

  lemma ReachableCounts(n: Net, tasks: nat, s: State)
    requires NetOk(n) && Reachable(n, tasks, s)
    ensures LocksOk(n, s) && CountsOk(n, s)
  {
    InitSafe(n, tasks);
    InitCounts(n, tasks);
    var acts :| Executes(n, Init(n, tasks), acts, s);
    RunKeepsCounts(n, Init(n, tasks), acts, s);
  }

  // ---- The counts a publish reports ----

  function OfPublish(t: nat, rank: nat): Entry -> nat {
    (x: Entry) => if x.e.topic == t && x.rank == rank then 1 else 0
  }

  function LogOfPublish(t: nat, rank: nat): seq<Entry> -> nat {
    (q: seq<Entry>) => Sum(q, OfPublish(t, rank))
  }

  /** How many queue entries one publish has produced. */
  function SentBy(s: State, t: nat, rank: nat): nat {
    Sum(s.log, LogOfPublish(t, rank))
  }

  predicate ReportOk(s: State, p: Task) {
    HoldsTopic(p) >= 0 && !p.HaveStats? ==>
      p.accepted == SentBy(s, p.e.topic, p.rank) && (p.FanningOut? ==> p.ok == (p.accepted == p.i))
  }

  ghost predicate ReportsOk(s: State) {
    forall k :: 0 <= k < |s.tasks| ==> ReportOk(s, s.tasks[k])
  }

  /** Only an accepted send puts anything into a queue's log. */
  lemma LogKept(n: Net, s: State, a: Action)
    requires NetOk(n) && LocksOk(n, s) && Enabled(n, s, a)
    requires a.Run? && s.tasks[a.k].FanningOut? ==> !Accepts(n, s, s.tasks[a.k])
    ensures Step(n, s, a).log == s.log
  {
  }

  lemma ReportKept(n: Net, s: State, a: Action, j: nat)
    requires NetOk(n) && LocksOk(n, s) && OrderOk(n, s) && ReportsOk(s) && Enabled(n, s, a)
    requires a.Run? && s.tasks[a.k].FanningOut? ==> !Accepts(n, s, s.tasks[a.k])
    requires j < |Step(n, s, a).tasks| && Step(n, s, a).log == s.log
    ensures ReportOk(Step(n, s, a), Step(n, s, a).tasks[j])
  {
    assert ReportOk(s, s.tasks[j]);
    if a.Run? && j == a.k {
      OwnReport(n, s, j);
    } else {
      SameSent(s, Step(n, s, a), s.tasks[j]);
    }
  }

  lemma StepKeepsReports(n: Net, s: State, a: Action)
    requires NetOk(n) && LocksOk(n, s) && OrderOk(n, s) && ReportsOk(s) && Enabled(n, s, a)
    ensures ReportsOk(Step(n, s, a))
  {
    var t := Step(n, s, a);
    if a.Run? && s.tasks[a.k].FanningOut? && Accepts(n, s, s.tasks[a.k]) {
      AcceptKeepsReports(n, s, a.k);
    } else {
      LogKept(n, s, a);
      forall j | 0 <= j < |t.tasks| ensures ReportOk(t, t.tasks[j]) {
        ReportKept(n, s, a, j);
      }
    }
  }

  lemma SameSent(s: State, t: State, p: Task)
    requires t.log == s.log
    ensures ReportOk(s, p) ==> ReportOk(t, p)
  {
    if HoldsTopic(p) >= 0 && !p.HaveStats? {
      assert SentBy(t, p.e.topic, p.rank) == SentBy(s, p.e.topic, p.rank);
    }
  }

  /** A publisher's report stays true as it moves on without sending. */
  lemma OwnReport(n: Net, s: State, k: nat)
    requires NetOk(n) && LocksOk(n, s) && OrderOk(n, s) && ReportsOk(s) && CanRun(n, s, k)
    requires s.tasks[k].FanningOut? ==> !Accepts(n, s, s.tasks[k])
    ensures ReportOk(RunStep(n, s, k), RunStep(n, s, k).tasks[k])
  {
    var t, me := RunStep(n, s, k), s.tasks[k];
    assert ReportOk(s, me) && t.log == s.log;
    if me.WantTopic? {
      NoneSentYet(n, s, me.e.topic);
      assert SentBy(t, me.e.topic, |s.order[me.e.topic]|) == SentBy(s, me.e.topic, |s.order[me.e.topic]|);
    } else if HoldsTopic(me) >= 0 && !me.HaveStats? {
      assert SentBy(t, me.e.topic, me.rank) == SentBy(s, me.e.topic, me.rank);
      assert PositionsOk(n, s) && SlotInRange(n, me);
    }
  }

  lemma NoneSentYet(n: Net, s: State, t: nat)
    requires Sized(n, s) && OrderOk(n, s) && t < |s.order|
    ensures SentBy(s, t, |s.order[t]|) == 0
  {
    var rank := |s.order[t]|;
    forall q | 0 <= q < |s.log| ensures LogOfPublish(t, rank)(s.log[q]) == 0 {
      forall a | 0 <= a < |s.log[q]| ensures OfPublish(t, rank)(s.log[q][a]) == 0 {
        assert EntryOk(n, s, q, s.log[q][a]);
      }
      SumZero(s.log[q], OfPublish(t, rank));
    }
    SumZero(s.log, LogOfPublish(t, rank));
  }

  lemma AcceptKeepsReports(n: Net, s: State, k: nat)
    requires NetOk(n) && LocksOk(n, s) && ReportsOk(s) && CanRun(n, s, k) && s.tasks[k].FanningOut?
             && Accepts(n, s, s.tasks[k])
    ensures ReportsOk(RunStep(n, s, k))
  {
    var t := RunStep(n, s, k);
    var me := s.tasks[k];
    var q := n.subs[me.e.topic][me.i];
    var x := Entry(me.e, me.rank, me.i);
    forall j | 0 <= j < |t.tasks| ensures ReportOk(t, t.tasks[j]) {
      var p := s.tasks[j];
      assert ReportOk(s, p);
      if HoldsTopic(p) >= 0 && !p.HaveStats? {
        assert j != k ==> HoldsTopic(p) != me.e.topic;
        SumUpdate(s.log, LogOfPublish(p.e.topic, p.rank), q, s.log[q] + [x]);
        SumAppend(s.log[q], OfPublish(p.e.topic, p.rank), x);
      }
    }
  }

  lemma {:induction false} RunKeepsReports(n: Net, s: State, acts: seq<Action>, t: State)
    requires NetOk(n) && LocksOk(n, s) && OrderOk(n, s) && ReportsOk(s) && Executes(n, s, acts, t)
    ensures LocksOk(n, t) && ReportsOk(t)
    decreases acts
  {
    if acts != [] {
      StepKeepsLocks(n, s, acts[0]);
      StepKeepsOrder(n, s, acts[0]);
      StepKeepsReports(n, s, acts[0]);
      RunKeepsReports(n, Step(n, s, acts[0]), acts[1..], t);
    }
  }

  // ---- Main results ----

  /** When a publish has offered its event to every slot, the count it reports is the number of entries
      it put into queues, and it reports success exactly when every slot took one. */
  lemma ReportedCountIsTrue(n: Net, tasks: nat, s: State, k: nat)
    requires NetOk(n) && Reachable(n, tasks, s) && k < |s.tasks| && s.tasks[k].FanningOut?
    requires s.tasks[k].e.topic < |n.subs| && s.tasks[k].i >= |n.subs[s.tasks[k].e.topic]|
    ensures s.tasks[k].accepted == SentBy(s, s.tasks[k].e.topic, s.tasks[k].rank) <= |n.subs[s.tasks[k].e.topic]|
    ensures s.tasks[k].ok <==> s.tasks[k].accepted == |n.subs[s.tasks[k].e.topic]|
  {
    InitSafe(n, tasks);
    var acts :| Executes(n, Init(n, tasks), acts, s);
    RunKeepsReports(n, Init(n, tasks), acts, s);
    assert ReportOk(s, s.tasks[k]) && SlotInRange(n, s.tasks[k]);
  }

  lemma NothingPending(n: Net, s: State, t: nat)
    requires LocksOk(n, s) && t < |n.subs| && s.topicLock[t].Free?
    ensures Sum(s.tasks, Pending(n, t)) == 0
  {
    forall k | 0 <= k < |s.tasks| ensures Pending(n, t)(s.tasks[k]) == 0 {
      assert HoldsTopic(s.tasks[k]) != t;
    }
    SumZero(s.tasks, Pending(n, t));
  }

  lemma TopicConserved(n: Net, s: State, t: nat)
    requires Sized(n, s) && t < |n.subs| && TopicCountsOk(n, s, t) && Sum(s.tasks, Pending(n, t)) == 0
    ensures Delivered(s, t) + s.drops[t] == |s.order[t]| * |n.subs[t]|
    ensures (s.stats[t].delivered + s.stats[t].dropped) % U32 == (s.stats[t].published * |n.subs[t]|) % U32
  {
    CountersConserved(Delivered(s, t), s.drops[t], |s.order[t]|, |n.subs[t]|);
  }

  /** Whenever nobody is publishing to a topic, every publish is accounted for at every subscriber:
      the accepted events really in the queues' histories plus the drops make published times
      subscribers, and so do the wrapping counters modulo 2^32. */
  lemma DeliveryConserved(n: Net, tasks: nat, s: State, t: nat)
    requires NetOk(n) && Reachable(n, tasks, s) && t < |n.subs|
    ensures Sized(n, s)
    ensures s.topicLock[t].Free? ==>
              && Delivered(s, t) + s.drops[t] == |s.order[t]| * |n.subs[t]|
              && (s.stats[t].delivered + s.stats[t].dropped) % U32 == (s.stats[t].published * |n.subs[t]|) % U32
    ensures s.stats[t].delivered == Delivered(s, t) % U32 && s.stats[t].published == |s.order[t]| % U32
  {
    ReachableCounts(n, tasks, s);
    assert TopicCountsOk(n, s, t);
    if s.topicLock[t].Free? {
      NothingPending(n, s, t);
      TopicConserved(n, s, t);
    }
  }

  lemma AddMod(a: nat, b: nat)
    ensures (a % U32 + b % U32) % U32 == (a + b) % U32
  {
    ModShift(a % U32 + b % U32, a / U32 + b / U32);
    assert a + b == a % U32 + b % U32 + (a / U32 + b / U32) * U32;
  }

  lemma SameModPlus(a: nat, b: nat, c: nat)
    requires a % U32 == b % U32
    ensures (a + c) % U32 == (b + c) % U32
  {
    AddMod(a, c);
    AddMod(b, c);
  }

  lemma MulMod(a: nat, m: nat)
    ensures (a % U32 * m) % U32 == (a * m) % U32
  {
    ModShift(a % U32 * m, a / U32 * m);
    var q, r := a / U32, a % U32;
    assert a == q * U32 + r;
    assert (q * U32 + r) * m == q * m * U32 + r * m;
  }

  lemma CountersConserved(delivered: nat, dropped: nat, published: nat, m: nat)
    requires delivered + dropped == published * m
    ensures (delivered % U32 + dropped % U32) % U32 == (published % U32 * m) % U32
  {
    AddMod(delivered, dropped);
    MulMod(published, m);
  }

  lemma SumsMeet(a: nat, b: nat, x: nat, y: nat)
    requires a == b % U32 && x % U32 == y % U32
    ensures (a + x) % U32 == (b + y) % U32
  {
    AddMod(a, x);
    AddMod(b, y);
  }

  lemma {:induction false} SumOfDropped(stats: seq<Stats>, drops: seq<nat>)
    requires |stats| == |drops| && forall t :: 0 <= t < |stats| ==> stats[t].dropped == drops[t] % U32
    ensures Sum(stats, DroppedOf()) % U32 == Sum(drops, Itself()) % U32
  {
    if stats != [] {
      SumOfDropped(stats[1..], drops[1..]);
      SumsMeet(stats[0].dropped, drops[0], Sum(stats[1..], DroppedOf()), Sum(drops[1..], Itself()));
    }
  }

  lemma CountsGiveTotal(n: Net, s: State)
    requires Sized(n, s) && CountsOk(n, s)
    ensures s.dropCount == (Sum(s.stats, DroppedOf()) + Sum(s.tasks, InFlight())) % U32
  {
    forall t | 0 <= t < |s.stats| ensures s.stats[t].dropped == s.drops[t] % U32 {
      assert TopicCountsOk(n, s, t);
    }
    SumOfDropped(s.stats, s.drops);
    SameModPlus(Sum(s.stats, DroppedOf()), Sum(s.drops, Itself()), Sum(s.tasks, InFlight()));
  }

  /** At every moment the global drop count is the sum of the topics' drop counters plus the drops that
      publishers are between the two increments of, modulo 2^32. */
  lemma DropCountIsSumOfTopics(n: Net, tasks: nat, s: State)
    requires NetOk(n) && Reachable(n, tasks, s)
    ensures s.dropCount == (Sum(s.stats, DroppedOf()) + Sum(s.tasks, InFlight())) % U32
  {
    ReachableCounts(n, tasks, s);
    CountsGiveTotal(n, s);
  }
}
