/** Frame descriptors are never leaked, as long as every queue that gets their pointers is served. */
module FrameDraining {
  import opened Sums
  import opened PayloadPool
  import opened EventBus
  import opened FrameLifetime
  import opened FrameSafety
  import FramePublisher
  import opened FrameRefinement

  /** Actions that bring new work in: a new frame, or an event of another topic. */
  predicate IsInput(a: Action) {
    a.Start? || a.OtherSend?
  }

  function Minus(a: nat, b: nat): nat {
    if a < b then 0 else a - b
  }

  function QueueWork(): seq<Message> -> nat {
    (q: seq<Message>) => 5 * |q|
  }

  function ConsumerWork(): Consumer -> nat {
    (c: Consumer) => if c.Ready? then 0 else 1 + Minus(3, c.known)
  }

  function PublisherWork(k: nat): Publisher -> nat {
    (p: Publisher) =>
      match p
      case Idle => 0
      case Writing(_, _, stage) => 5 + 7 * k + Minus(4, stage)
      case Abandoning(_, _) => 1
      case Counted(_, _, n) => 4 + n + 6 * k
      case Sending(_, _, i, n, accepted) => 3 + Minus(n, accepted) + 6 * Minus(k, i)
      case Releasing(_, _, j, n) => 2 + Minus(n, j)
      case Printing(_, _) => 1
  }

  /** Work left to do if no more comes in. */
  function Work(w: Wiring, s: State): nat {
    Sum(s.queues, QueueWork()) + Sum(s.consumers, ConsumerWork()) + Sum(s.publishers, PublisherWork(|w.subs|))
  }

  lemma WorkSetPublisher(w: Wiring, s: State, p: nat, next: Publisher)
    requires p < |s.publishers|
    ensures Work(w, SetPublisher(s, p, next)) + PublisherWork(|w.subs|)(s.publishers[p])
         == Work(w, s) + PublisherWork(|w.subs|)(next)
  {
    SumUpdate(s.publishers, PublisherWork(|w.subs|), p, next);
  }

  lemma WorkSetConsumer(w: Wiring, s: State, c: nat, next: Consumer)
    requires c < |s.consumers|
    ensures Work(w, SetConsumer(s, c, next)) + ConsumerWork()(s.consumers[c]) == Work(w, s) + ConsumerWork()(next)
  {
    SumUpdate(s.consumers, ConsumerWork(), c, next);
  }

  lemma WorkSetQueue(w: Wiring, s: State, q: nat, next: seq<Message>)
    requires q < |s.queues|
    ensures Work(w, SetQueue(s, q, next)) + 5 * |s.queues[q]| == Work(w, s) + 5 * |next|
  {
    SumUpdate(s.queues, QueueWork(), q, next);
  }

  lemma SendReducesWork(w: Wiring, s: State, p: nat)
    requires WiringOk(w) && Inv(w, s) && Enabled(w, s, Advance(p)) && s.publishers[p].Sending?
    requires s.publishers[p].i < |w.subs| && |s.queues[w.subs[s.publishers[p].i]]| < w.caps[w.subs[s.publishers[p].i]]
    ensures Work(w, AdvanceStep(w, s, p)) < Work(w, s)
  {
    var me := s.publishers[p];
    var q := w.subs[me.i];
    var sent := SetQueue(s, q, s.queues[q] + [FrameReady(me.slot, me.gen)]);
    WorkSetQueue(w, s, q, sent.queues[q]);
    WorkSetPublisher(w, sent, p, Sending(me.slot, me.gen, me.i + 1, me.n, me.accepted + 1));
  }

  lemma AdvanceReducesWork(w: Wiring, s: State, p: nat)
    requires WiringOk(w) && Inv(w, s) && Enabled(w, s, Advance(p))
    ensures Work(w, AdvanceStep(w, s, p)) < Work(w, s)
  {
    var me := s.publishers[p];
    assert PublisherOk(w, s, me);
    if me.Sending? && me.i < |w.subs| && |s.queues[w.subs[me.i]]| < w.caps[w.subs[me.i]] {
      SendReducesWork(w, s, p);
    } else {
      var next := AdvanceStep(w, s, p).publishers[p];
      WorkSetPublisher(w, s, p, next);
      assert Work(w, AdvanceStep(w, s, p)) == Work(w, SetPublisher(s, p, next));
    }
  }

  lemma StepReducesWork(w: Wiring, s: State, a: Action)
    requires WiringOk(w) && Inv(w, s) && Enabled(w, s, a) && !IsInput(a)
    ensures Work(w, Step(w, s, a)) < Work(w, s)
  {
    var t := Step(w, s, a);
    match a {
      case Advance(p) =>
        AdvanceReducesWork(w, s, p);
      case Dequeue(c) =>
        var q := w.serves[c];
        WorkSetQueue(w, s, q, s.queues[q][1..]);
        WorkSetConsumer(w, SetQueue(s, q, s.queues[q][1..]), c, t.consumers[c]);
      case Read(c) =>
        WorkSetConsumer(w, s, c, t.consumers[c]);
      case Free(c) =>
        WorkSetConsumer(w, s, c, Ready);
        assert Work(w, t) == Work(w, SetConsumer(s, c, Ready));
    }
  }

  ghost predicate Quiescent(w: Wiring, s: State)
    requires WiringOk(w) && Sized(w, s)
  {
    forall a: Action :: Enabled(w, s, a) ==> IsInput(a)
  }

  /** Pointers to frames are only ever in queues subscribed to them. */
  ghost predicate InSubscribed(w: Wiring, s: State)
    requires |s.queues| == |w.caps|
  {
    forall q, k :: 0 <= q < |s.queues| && 0 <= k < |s.queues[q]| && s.queues[q][k].FrameReady?
        ==> q in w.subs && w.caps[q] > 0
  }

  lemma StepKeepsSubscribed(w: Wiring, s: State, a: Action)
    requires WiringOk(w) && Inv(w, s) && InSubscribed(w, s) && Enabled(w, s, a)
    ensures |Step(w, s, a).queues| == |w.caps| && InSubscribed(w, Step(w, s, a))
  {
    var t := Step(w, s, a);
    forall q, k | 0 <= q < |t.queues| && 0 <= k < |t.queues[q]| && t.queues[q][k].FrameReady?
      ensures q in w.subs && w.caps[q] > 0
    {
      if t.queues[q] != s.queues[q] && a.Dequeue? {
        assert t.queues[q][k] == s.queues[q][k + 1];
      } else if k < |s.queues[q]| {
        assert t.queues[q][k] == s.queues[q][k];
      }
    }
  }

  lemma {:induction false} RunKeepsSubscribed(w: Wiring, s: State, acts: seq<Action>, t: State)
    requires WiringOk(w) && Inv(w, s) && InSubscribed(w, s) && Executes(w, s, acts, t)
    ensures Inv(w, t) && InSubscribed(w, t)
    decreases acts
  {
    if acts != [] {
      StepKeepsInv(w, s, acts[0]);
      StepKeepsSubscribed(w, s, acts[0]);
      RunKeepsSubscribed(w, Step(w, s, acts[0]), acts[1..], t);
    }
  }

  lemma ReachableSubscribed(w: Wiring, publishers: nat, s: State)
    requires WiringOk(w) && Reachable(w, publishers, s)
    ensures Inv(w, s) && InSubscribed(w, s)
  {
    InitInv(w, publishers);
    ReachableInv(w, publishers, s);
    var acts :| Executes(w, Init(w, publishers), acts, s);
    RunKeepsSubscribed(w, Init(w, publishers), acts, s);
  }

  /** Every queue that can receive a frame has a consumer. */
  predicate Served(w: Wiring)
    requires WiringOk(w)
  {
    forall k :: 0 <= k < |w.subs| && w.caps[w.subs[k]] > 0 ==> w.subs[k] in w.serves
  }

  /** When nothing but new input could happen and every subscribed queue is served, every task is idle
      and every block is free. */
  lemma QuiescentAllFree(w: Wiring, s: State)
    requires WiringOk(w) && Served(w) && Inv(w, s) && InSubscribed(w, s) && Quiescent(w, s)
    ensures FreeCount(s.pool) == BLOCKS
    ensures forall p :: 0 <= p < |s.publishers| ==> s.publishers[p].Idle?
    ensures forall q :: 0 <= q < |s.queues| && q in w.serves ==> s.queues[q] == []
  {
    forall p | 0 <= p < |s.publishers| ensures s.publishers[p].Idle? {
      assert PublisherOk(w, s, s.publishers[p]);
      assert Enabled(w, s, Advance(p)) ==> IsInput(Advance(p));
    }
    forall c | 0 <= c < |s.consumers| ensures s.consumers[c].Ready? {
      assert ConsumerOk(s, s.consumers[c]);
      assert Enabled(w, s, Read(c)) ==> IsInput(Read(c));
      assert Enabled(w, s, Free(c)) ==> IsInput(Free(c));
    }
    forall q | 0 <= q < |s.queues| && q in w.serves ensures s.queues[q] == [] {
      var c :| 0 <= c < |w.serves| && w.serves[c] == q;
      assert Enabled(w, s, Dequeue(c)) ==> IsInput(Dequeue(c));
    }
    forall i | 0 <= i < BLOCKS ensures !s.pool[i].inUse {
      NoFrameQueued(w, s, i);
      SumZero(s.consumers, ConsumerRefs(i));
      SumZero(s.publishers, PublisherRefs(i));
      assert BlockOk(s.pool[i], Refs(s, i));
    }
    AllFree(s.pool);
  }

  lemma NoFrameQueued(w: Wiring, s: State, i: nat)
    requires WiringOk(w) && Served(w) && |s.queues| == |w.caps| && InSubscribed(w, s)
    requires forall q :: 0 <= q < |s.queues| && q in w.serves ==> s.queues[q] == []
    ensures Sum(s.queues, QueueRefs(i)) == 0
  {
    forall q | 0 <= q < |s.queues| ensures QueueRefs(i)(s.queues[q]) == 0 {
      if q !in w.serves {
        forall k | 0 <= k < |s.queues[q]| ensures MessageRefs(i)(s.queues[q][k]) == 0 {
          assert !s.queues[q][k].FrameReady?;
        }
      }
      SumZero(s.queues[q], MessageRefs(i));
    }
    SumZero(s.queues, QueueRefs(i));
  }

  lemma {:induction false} DrainBound(w: Wiring, s: State, acts: seq<Action>, t: State)
    requires WiringOk(w) && Inv(w, s) && Executes(w, s, acts, t)
    requires forall k :: 0 <= k < |acts| ==> !IsInput(acts[k])
    ensures Inv(w, t) && |acts| + Work(w, t) <= Work(w, s)
    decreases acts
  {
    if acts != [] {
      StepKeepsInv(w, s, acts[0]);
      StepReducesWork(w, s, acts[0]);
      DrainBound(w, Step(w, s, acts[0]), acts[1..], t);
    }
  }

  /** From any reachable state, however the tasks are scheduled, they stop after a bounded number of
      steps unless new work arrives, and when they have stopped the whole pool is free again. */
  lemma NoLeak(w: Wiring, publishers: nat, s: State, acts: seq<Action>, t: State)
    requires WiringOk(w) && Reachable(w, publishers, s)
    requires Executes(w, s, acts, t) && forall k :: 0 <= k < |acts| ==> !IsInput(acts[k])
    ensures |acts| <= Work(w, s) && Sized(w, t)
    ensures Served(w) && Quiescent(w, t) ==> FreeCount(t.pool) == BLOCKS
  {
    ReachableSubscribed(w, publishers, s);
    DrainBound(w, s, acts, t);
    RunKeepsSubscribed(w, s, acts, t);
    if Served(w) && Quiescent(w, t) {
      QuiescentAllFree(w, t);
    }
  }

  /** `t` is what is left of `s` after some run without new work, with the whole pool free. */
  ghost predicate Drains(w: Wiring, s: State, acts: seq<Action>, t: State)
    requires WiringOk(w)
  {
    Executes(w, s, acts, t) && (forall k :: 0 <= k < |acts| ==> !IsInput(acts[k])) && FreeCount(t.pool) == BLOCKS
  }

  lemma CanDrain(w: Wiring, publishers: nat, s: State) returns (acts: seq<Action>, t: State)
    requires WiringOk(w) && Served(w) && Reachable(w, publishers, s)
    ensures Drains(w, s, acts, t)
  {
    ReachableSubscribed(w, publishers, s);
    acts, t := [], s;
    while exists a :: Enabled(w, t, a) && !IsInput(a)
      invariant Inv(w, t) && InSubscribed(w, t) && Executes(w, s, acts, t)
      invariant forall k :: 0 <= k < |acts| ==> !IsInput(acts[k])
      decreases Work(w, t)
    {
      var a :| Enabled(w, t, a) && !IsInput(a);
      StepKeepsInv(w, t, a);
      StepKeepsSubscribed(w, t, a);
      StepReducesWork(w, t, a);
      ExecutesThen(w, s, acts, t, a);
      acts, t := acts + [a], Step(w, t, a);
    }
    QuiescentAllFree(w, t);
  }

  // ---- Without a consumer ----

  /** What is in a queue that nobody serves stays there. */
  lemma {:induction false} UnservedStays(w: Wiring, s: State, acts: seq<Action>, t: State, q: nat, m: Message)
    requires WiringOk(w) && Executes(w, s, acts, t) && q < |s.queues| && q !in w.serves && m in s.queues[q]
    ensures q < |t.queues| && m in t.queues[q]
    decreases acts
  {
    if acts != [] {
      var next := Step(w, s, acts[0]);
      assert |next.queues| == |s.queues| && (next.queues[q] == s.queues[q] || s.queues[q] <= next.queues[q]);
      UnservedStays(w, next, acts[1..], t, q, m);
    }
  }

  /** One publish with the queues empty puts a pointer into every subscribed queue with any capacity. */
  lemma PublishReaches(w: Wiring, publishers: nat, k: nat) returns (s: State, m: Message)
    requires WiringOk(w) && publishers > 0 && k < |w.subs| && w.caps[w.subs[k]] > 0
    ensures Reachable(w, publishers, s) && |s.queues| == |w.caps| && m.FrameReady? && m in s.queues[w.subs[k]]
  {
    var init := Init(w, publishers);
    var q := w.subs[k];
    assert Executes(w, init, [], init) && Reachable(w, publishers, init);
    assert FirstFree(init.pool) == 0;
    var e := FramePublisher.FrameReadyEvent(0, 0, 0);
    var queues: seq<seq<Event>> := seq(|w.caps|, i => []);
    var stats := EMPTY_TOPIC.stats;
    var acts;
    acts, s := PublishAloneRefines(w, publishers, init, 0, 0, stats, queues, 0, e);
    assert Reaches(w, init, s);
    ReachableInv(w, publishers, s);
    var f := FanOut(queues, stats.(published := Increment(stats.published), subscribers := |w.subs|), 0, 0, true);
    FanOutPerQueue(w.subs, w.caps, e, f, q);
    OccursAt(w.subs, k);
    var r := Published(Topic(w.subs, stats), w.caps, queues, 0, e);
    assert r.queues[q] != [] && r.queues[q][0] == e;
    assert QueueMirrors(r.queues[q], s.queues[q]);
    m := s.queues[q][0];
    assert Matches(e, m);
  }

  lemma {:induction false} OccursAt(subs: seq<nat>, k: nat)
    requires k < |subs|
    ensures Occurrences(subs, subs[k]) >= 1
  {
    if k > 0 {
      OccursAt(subs[1..], k - 1);
    }
  }

  /** A queue that gets frames and is not served keeps a block for good, whatever happens. */
  lemma UnservedLeaks(w: Wiring, publishers: nat, k: nat) returns (s: State)
    requires WiringOk(w) && publishers > 0 && k < |w.subs| && w.caps[w.subs[k]] > 0 && w.subs[k] !in w.serves
    ensures Reachable(w, publishers, s)
    ensures forall acts, t :: Executes(w, s, acts, t) ==> FreeCount(t.pool) != BLOCKS
  {
    var m;
    s, m := PublishReaches(w, publishers, k);
    var q := w.subs[k];
    ReachableInv(w, publishers, s);
    forall acts, t | Executes(w, s, acts, t) ensures FreeCount(t.pool) != BLOCKS {
      UnservedStays(w, s, acts, t, q, m);
      RunKeepsInv(w, s, acts, t);
      var i :| 0 <= i < |t.queues[q]| && t.queues[q][i] == m;
      assert MessageOk(t, t.queues[q][i]);
      AllFree(t.pool);
    }
  }

  /** The pool can be drained from every reachable state if and only if every queue that can receive a
      frame has a consumer. */
  lemma DrainsIffServed(w: Wiring, publishers: nat)
    requires WiringOk(w) && publishers > 0
    ensures Served(w) <==> forall s :: Reachable(w, publishers, s) ==> exists acts, t :: Drains(w, s, acts, t)
  {
    if Served(w) {
      forall s | Reachable(w, publishers, s) ensures exists acts, t :: Drains(w, s, acts, t) {
        var acts, t := CanDrain(w, publishers, s);
      }
    } else {
      var k :| 0 <= k < |w.subs| && w.caps[w.subs[k]] > 0 && w.subs[k] !in w.serves;
      var s := UnservedLeaks(w, publishers, k);
      assert forall acts, t :: !Drains(w, s, acts, t);
    }
  }
}
