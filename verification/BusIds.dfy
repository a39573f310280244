/**
  Event ids across whole runs of the bus: they are handed out before the topic lock is taken, so they
  follow the order of a topic exactly as long as no publisher overtakes another on the way to the lock.
*/
module BusIds {
  import opened Common
  import opened EventBus
  import opened BusProtocol
  import opened BusSafety

  predicate Waits(p: Task, t: nat) {
    p.WantTopic? && p.e.topic == t
  }

  /** Where both ids come from the bus, `x` was handed out before `y`. */
  predicate Earlier(x: Origin, y: Origin) {
    x.Allocated? && y.Allocated? ==> x.index < y.index
  }

  /** The publishes of the topic took its lock in the order their ids were handed out. */
  predicate InAllocationOrder(s: State, t: nat)
    requires t < |s.idOf|
  {
    forall i, j :: 0 <= i < j < |s.idOf[t]| ==> Earlier(s.idOf[t][i], s.idOf[t][j])
  }

  predicate NobodyWaits(s: State, t: nat) {
    forall k :: 0 <= k < |s.tasks| ==> !Waits(s.tasks[k], t)
  }

  /** The step is a publisher taking the topic's lock ahead of one that got its id earlier. */
  ghost predicate Overtakes(s: State, a: Action, t: nat) {
    && a.Run? && a.k < |s.tasks| && Waits(s.tasks[a.k], t)
    && exists j :: 0 <= j < |s.tasks| && Waits(s.tasks[j], t) && j != a.k && !Earlier(s.tasks[a.k].id, s.tasks[j].id)
  }

  ghost predicate Overtook(n: Net, s: State, acts: seq<Action>, t: nat, u: State)
    requires NetOk(n) && Executes(n, s, acts, u)
    decreases acts
  {
    acts != [] && (Overtakes(s, acts[0], t) || Overtook(n, Step(n, s, acts[0]), acts[1..], t, u))
  }

  // ---- Where ids come from ----

  /** An id given by the bus is the one its allocation handed out. */
  predicate OriginOk(s: State, e: Event, id: Origin) {
    id.Allocated? ==> id.index < |s.ids| && e.eventId == s.ids[id.index]
  }

  predicate Differ(x: Origin, y: Origin) {
    x.Allocated? && y.Allocated? ==> x.index != y.index
  }

  ghost predicate OriginsOk(s: State) {
    && |s.idOf| == |s.order|
    && (forall t :: 0 <= t < |s.idOf| ==> |s.idOf[t]| == |s.order[t]|)
    && (forall t, r :: 0 <= t < |s.idOf| && 0 <= r < |s.idOf[t]| ==> OriginOk(s, s.order[t][r], s.idOf[t][r]))
    && (forall k :: 0 <= k < |s.tasks| && s.tasks[k].WantTopic? ==> OriginOk(s, s.tasks[k].e, s.tasks[k].id))
  }

  /** The topic's lock has been taken a number of times greater than `r`. */
  predicate TakenAt(s: State, t: nat, r: nat) {
    t < |s.idOf| && r < |s.idOf[t]|
  }

  /** No allocation serves two publishes. */
  ghost predicate OriginsDiffer(s: State) {
    && (forall j, k :: 0 <= j < k < |s.tasks| && s.tasks[j].WantTopic? && s.tasks[k].WantTopic?
         ==> Differ(s.tasks[j].id, s.tasks[k].id))
    && (forall t: nat, r: nat, k :: TakenAt(s, t, r) && 0 <= k < |s.tasks| && s.tasks[k].WantTopic?
         ==> Differ(s.idOf[t][r], s.tasks[k].id))
    && (forall t: nat, r: nat, x: nat, y: nat :: TakenAt(s, t, r) && TakenAt(s, x, y) && (t != x || r != y)
         ==> Differ(s.idOf[t][r], s.idOf[x][y]))
  }

  /** A step that is not taking a topic lock leaves the record of origins alone, and makes at most one
      task wait for a topic lock: with a preset id, or with the next one. */
  lemma OtherStep(n: Net, s: State, a: Action)
    requires NetOk(n) && Sized(n, s) && Enabled(n, s, a) && !(a.Run? && s.tasks[a.k].WantTopic?)
    ensures var u := Step(n, s, a);
            && u.idOf == s.idOf && u.order == s.order && |u.tasks| == |s.tasks| && s.ids <= u.ids
            && forall j :: 0 <= j < |u.tasks| && u.tasks[j].WantTopic? ==>
                 || u.tasks[j] == s.tasks[j]
                 || (!a.Take? && j == a.k && u.tasks[j].id == Preset)
                 || (a.Run? && j == a.k && u.tasks[j].id == Allocated(|s.ids|)
                      && u.ids == s.ids + [u.tasks[j].e.eventId])
    ensures forall j :: 0 <= j < |s.tasks| && s.tasks[j].WantTopic? ==> Step(n, s, a).tasks[j] == s.tasks[j]
  {
  }

  lemma LockStep(n: Net, s: State, k: nat)
    requires NetOk(n) && Sized(n, s) && CanRun(n, s, k) && s.tasks[k].WantTopic?
    ensures var u, me := RunStep(n, s, k), s.tasks[k];
            && u.idOf == s.idOf[me.e.topic := s.idOf[me.e.topic] + [me.id]]
            && u.order == s.order[me.e.topic := s.order[me.e.topic] + [me.e]]
            && u.ids == s.ids && u.tasks == s.tasks[k := u.tasks[k]] && !u.tasks[k].WantTopic?
  {
  }

  lemma StepKeepsOrigins(n: Net, s: State, a: Action)
    requires NetOk(n) && Sized(n, s) && Enabled(n, s, a) && OriginsOk(s)
    ensures OriginsOk(Step(n, s, a))
  {
    if a.Run? && s.tasks[a.k].WantTopic? {
      LockStep(n, s, a.k);
    } else {
      OtherStep(n, s, a);
    }
  }

  lemma StepKeepsDiffer(n: Net, s: State, a: Action)
    requires NetOk(n) && Sized(n, s) && Enabled(n, s, a) && OriginsOk(s) && OriginsDiffer(s)
    ensures OriginsDiffer(Step(n, s, a))
  {
    var u := Step(n, s, a);
    if a.Run? && s.tasks[a.k].WantTopic? {
      LockStep(n, s, a.k);
      LockKeepsDiffer(s, u, a.k);
    } else {
      OtherStep(n, s, a);
      assert forall t: nat, r: nat :: TakenAt(u, t, r) ==> TakenAt(s, t, r) && OriginOk(s, s.order[t][r], s.idOf[t][r]);
    }
  }

  lemma LockKeepsDiffer(s: State, u: State, k: nat)
    requires k < |s.tasks| && s.tasks[k].WantTopic? && s.tasks[k].e.topic < |s.idOf| && OriginsDiffer(s)
    requires u.idOf == s.idOf[s.tasks[k].e.topic := s.idOf[s.tasks[k].e.topic] + [s.tasks[k].id]]
    requires |u.tasks| == |s.tasks| && u.tasks == s.tasks[k := u.tasks[k]] && !u.tasks[k].WantTopic?
    ensures OriginsDiffer(u)
  {
    forall t: nat, r: nat | TakenAt(u, t, r)
      ensures (TakenAt(s, t, r) && u.idOf[t][r] == s.idOf[t][r])
              || (t == s.tasks[k].e.topic && r == |s.idOf[t]| && u.idOf[t][r] == s.tasks[k].id)
    {
    }
  }

  // ---- Overtaking ----

  /** Nothing that took the topic's lock is ahead of an earlier id, taken or waiting. */
  predicate OnTime(s: State, t: nat)
    requires t < |s.idOf|
  {
    && InAllocationOrder(s, t)
    && forall i, k :: 0 <= i < |s.idOf[t]| && 0 <= k < |s.tasks| && Waits(s.tasks[k], t)
         ==> Earlier(s.idOf[t][i], s.tasks[k].id)
  }

  lemma OtherStepOnTime(n: Net, s: State, a: Action, t: nat)
    requires NetOk(n) && Sized(n, s) && Enabled(n, s, a) && !(a.Run? && s.tasks[a.k].WantTopic?)
    requires OriginsOk(s) && t < |s.idOf|
    ensures |Step(n, s, a).idOf| == |s.idOf| && (OnTime(Step(n, s, a), t) <==> OnTime(s, t))
  {
    OtherStep(n, s, a);
    var u := Step(n, s, a);
    forall i | 0 <= i < |s.idOf[t]| ensures OriginOk(s, s.order[t][i], s.idOf[t][i]) {
    }
    if OnTime(s, t) {
      forall i, k | 0 <= i < |u.idOf[t]| && 0 <= k < |u.tasks| && Waits(u.tasks[k], t)
        ensures Earlier(u.idOf[t][i], u.tasks[k].id)
      {
      }
    } else {
      assert forall k :: 0 <= k < |s.tasks| && Waits(s.tasks[k], t) ==> u.tasks[k] == s.tasks[k];
    }
  }

  lemma LockStepOnTime(n: Net, s: State, k: nat, t: nat)
    requires NetOk(n) && Sized(n, s) && CanRun(n, s, k) && s.tasks[k].WantTopic? && t < |s.idOf|
    ensures |RunStep(n, s, k).idOf| == |s.idOf|
    ensures OnTime(RunStep(n, s, k), t) <==> OnTime(s, t) && !Overtakes(s, Run(k), t)
  {
    LockStep(n, s, k);
    var u, me := RunStep(n, s, k), s.tasks[k];
    if me.e.topic != t {
      assert forall j :: 0 <= j < |s.tasks| ==> Waits(u.tasks[j], t) == Waits(s.tasks[j], t);
    } else if OnTime(u, t) {
      LockTakerWasOnTime(s, u, k, t);
    } else if OnTime(s, t) && !Overtakes(s, Run(k), t) {
      LockTakerIsOnTime(s, u, k, t);
    }
  }

  lemma LockTakerIsOnTime(s: State, u: State, k: nat, t: nat)
    requires k < |s.tasks| && Waits(s.tasks[k], t) && t < |s.idOf| == |u.idOf| && |u.tasks| == |s.tasks|
    requires u.idOf[t] == s.idOf[t] + [s.tasks[k].id] && u.tasks == s.tasks[k := u.tasks[k]] && !u.tasks[k].WantTopic?
    requires OnTime(s, t) && !Overtakes(s, Run(k), t)
    ensures OnTime(u, t)
  {
    var m := |s.idOf[t]|;
    forall i, j | 0 <= i < |u.idOf[t]| && 0 <= j < |u.tasks| && Waits(u.tasks[j], t)
      ensures Earlier(u.idOf[t][i], u.tasks[j].id)
    {
      assert j != k && Waits(s.tasks[j], t);
      assert Earlier(s.tasks[k].id, s.tasks[j].id);
    }
    forall i, j | 0 <= i < j < |u.idOf[t]| ensures Earlier(u.idOf[t][i], u.idOf[t][j]) {
      assert j == m ==> Earlier(s.idOf[t][i], s.tasks[k].id);
    }
  }

  lemma LockTakerWasOnTime(s: State, u: State, k: nat, t: nat)
    requires k < |s.tasks| && Waits(s.tasks[k], t) && t < |s.idOf| == |u.idOf| && |u.tasks| == |s.tasks|
    requires u.idOf[t] == s.idOf[t] + [s.tasks[k].id] && u.tasks == s.tasks[k := u.tasks[k]] && !u.tasks[k].WantTopic?
    requires OnTime(u, t)
    ensures OnTime(s, t) && !Overtakes(s, Run(k), t)
  {
    var m := |s.idOf[t]|;
    assert u.idOf[t][m] == s.tasks[k].id && forall i :: 0 <= i < m ==> u.idOf[t][i] == s.idOf[t][i];
    forall i, j | 0 <= i < m && 0 <= j < |s.tasks| && Waits(s.tasks[j], t)
      ensures Earlier(s.idOf[t][i], s.tasks[j].id)
    {
      if j == k {
        assert Earlier(u.idOf[t][i], u.idOf[t][m]);
      } else {
        assert Earlier(u.idOf[t][i], u.tasks[j].id);
      }
    }
    forall j | 0 <= j < |s.tasks| && j != k && Waits(s.tasks[j], t) ensures Earlier(s.tasks[k].id, s.tasks[j].id) {
      assert Earlier(u.idOf[t][m], u.tasks[j].id);
    }
  }

  // ---- Whole runs ----

  lemma {:induction false} RunOnTime(n: Net, s: State, acts: seq<Action>, u: State, t: nat)
    requires NetOk(n) && Executes(n, s, acts, u) && OriginsOk(s) && t < |s.idOf|
    ensures |u.idOf| == |s.idOf|
    ensures OnTime(u, t) <==> OnTime(s, t) && !Overtook(n, s, acts, t, u)
    decreases acts
  {
    if acts != [] {
      var next := Step(n, s, acts[0]);
      StepKeepsOrigins(n, s, acts[0]);
      if acts[0].Run? && s.tasks[acts[0].k].WantTopic? {
        LockStepOnTime(n, s, acts[0].k, t);
      } else {
        OtherStepOnTime(n, s, acts[0], t);
      }
      RunOnTime(n, next, acts[1..], u, t);
    }
  }

  // ---- Main results ----

  /** In every run that ends with nobody waiting for the topic, the topic's publishes are in the order of
      their ids if and only if no publisher ever took the lock ahead of one with an earlier id. */
  lemma IdsInOrderIffNobodyOvertook(n: Net, tasks: nat, acts: seq<Action>, s: State, t: nat)
    requires NetOk(n) && Executes(n, Init(n, tasks), acts, s) && t < |n.subs|
    ensures t < |s.idOf|
    ensures NobodyWaits(s, t) ==> (InAllocationOrder(s, t) <==> !Overtook(n, Init(n, tasks), acts, t, s))
  {
    RunOnTime(n, Init(n, tasks), acts, s, t);
  }

  lemma {:induction false} RunKeepsOrigins(n: Net, s: State, acts: seq<Action>, u: State)
    requires NetOk(n) && Executes(n, s, acts, u) && OriginsOk(s) && OriginsDiffer(s)
    ensures OriginsOk(u) && OriginsDiffer(u)
    decreases acts
  {
    if acts != [] {
      StepKeepsOrigins(n, s, acts[0]);
      StepKeepsDiffer(n, s, acts[0]);
      RunKeepsOrigins(n, Step(n, s, acts[0]), acts[1..], u);
    }
  }

  lemma ReachableOrigins(n: Net, tasks: nat, s: State)
    requires NetOk(n) && Reachable(n, tasks, s)
    ensures OrderedOrigins(n, s)
  {
    ReachableIsSafe(n, tasks, s);
    var acts :| Executes(n, Init(n, tasks), acts, s);
    RunKeepsOrigins(n, Init(n, tasks), acts, s);
  }

  ghost predicate OrderedOrigins(n: Net, s: State) {
    LocksOk(n, s) && OrderOk(n, s) && IdsOk(s) && OriginsOk(s) && OriginsDiffer(s)
  }

  /** Where the id of a queued event comes from. */
  function OriginOf(s: State, x: Entry): Origin
    requires TakenAt(s, x.e.topic, x.rank)
  {
    s.idOf[x.e.topic][x.rank]
  }

  lemma QueuedOrigin(n: Net, s: State, q: nat, a: nat)
    requires OrderedOrigins(n, s) && q < |s.log| && a < |s.log[q]|
    ensures TakenAt(s, s.log[q][a].e.topic, s.log[q][a].rank)
    ensures var id := OriginOf(s, s.log[q][a]);
            id.Allocated? ==> id.index < |s.ids| && s.log[q][a].e.eventId == s.ids[id.index] == (1 + id.index) % U32
  {
    var x := s.log[q][a];
    assert EntryOk(n, s, q, x);
    assert OriginOk(s, s.order[x.e.topic][x.rank], s.idOf[x.e.topic][x.rank]);
  }

  /** Unless somebody overtook, every queue gets the ids of a topic in the order they were handed out:
      in increasing order, until the counter wraps. */
  lemma QueueIdsInOrder(n: Net, tasks: nat, acts: seq<Action>, s: State, q: nat, a: nat, b: nat)
    requires NetOk(n) && Executes(n, Init(n, tasks), acts, s) && q < |s.log| && a < b < |s.log[q]|
    requires s.log[q][a].e.topic == s.log[q][b].e.topic && !Overtook(n, Init(n, tasks), acts, s.log[q][a].e.topic, s)
    ensures TakenAt(s, s.log[q][a].e.topic, s.log[q][a].rank) && TakenAt(s, s.log[q][b].e.topic, s.log[q][b].rank)
    ensures s.log[q][a].rank != s.log[q][b].rank ==> Earlier(OriginOf(s, s.log[q][a]), OriginOf(s, s.log[q][b]))
    ensures OriginOf(s, s.log[q][a]).Allocated? && OriginOf(s, s.log[q][b]).Allocated? && |s.ids| < U32 ==>
              s.log[q][a].e.eventId <= s.log[q][b].e.eventId
  {
    assert Reachable(n, tasks, s);
    ReachableOrigins(n, tasks, s);
    QueuedOrigin(n, s, q, a);
    QueuedOrigin(n, s, q, b);
    RunOnTime(n, Init(n, tasks), acts, s, s.log[q][a].e.topic);
    assert Before(s.log[q][a], s.log[q][b]);
  }

  /** Two different publishes whose ids the bus gave, wherever they are queued, carry the same id exactly
      when a multiple of 2^32 allocations lies between theirs; so never before 2^32 allocations. */
  lemma QueuedIdsCollideIff(n: Net, tasks: nat, s: State, q: nat, a: nat, r: nat, b: nat)
    requires NetOk(n) && Reachable(n, tasks, s) && q < |s.log| && a < |s.log[q]| && r < |s.log| && b < |s.log[r]|
    requires s.log[q][a].e.topic != s.log[r][b].e.topic || s.log[q][a].rank != s.log[r][b].rank
    ensures TakenAt(s, s.log[q][a].e.topic, s.log[q][a].rank) && TakenAt(s, s.log[r][b].e.topic, s.log[r][b].rank)
    ensures var x, y := OriginOf(s, s.log[q][a]), OriginOf(s, s.log[r][b]);
            x.Allocated? && y.Allocated? ==>
              && x.index != y.index
              && (s.log[q][a].e.eventId == s.log[r][b].e.eventId <==> (y.index - x.index) % U32 == 0)
              && (|s.ids| <= U32 ==> s.log[q][a].e.eventId != s.log[r][b].e.eventId)
  {
    ReachableOrigins(n, tasks, s);
    QueuedOrigin(n, s, q, a);
    QueuedOrigin(n, s, r, b);
    var x, y := OriginOf(s, s.log[q][a]), OriginOf(s, s.log[r][b]);
    if x.Allocated? && y.Allocated? {
      assert Differ(x, y);
      DiffMod(1 + x.index, 1 + y.index);
      if |s.ids| <= U32 && (y.index - x.index) % U32 == 0 {
        SmallMultiple(y.index - x.index);
      }
    }
  }

  lemma SmallMultiple(d: int)
    requires d % U32 == 0 && d < U32 && d + U32 > 0
    ensures d == 0
  {
  }
}
