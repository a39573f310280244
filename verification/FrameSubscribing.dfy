/**
  Subscribing to FRAME_READY while publishers and consumers are at work, which the design rules out.

  A publisher sets the reference count to the number of subscribers it has read, and sends to those it
  finds under the topic lock. One more queue in between is harmless only if a refused send makes up for it.
*/
module FrameSubscribing {
  import opened Sums
  import opened PayloadPool
  import opened FrameLifetime
  import opened FrameSafety
  import opened FrameDraining
  import opened FrameLimits

  /** The same tasks and queues with one more subscription, of queue `q`. */
  function Later(w: Wiring, q: nat): Wiring {
    w.(subs := w.subs + [q])
  }

  /** The publisher has read the subscriber count, and every send of its fan-out so far, if any, was
      accepted. Bus_Subscribe waits for the topic lock, so it finds a fan-out at its first send at most. */
  predicate InWindow(p: Publisher) {
    p.Counted? || (p.Sending? && p.accepted == p.i)
  }

  /** Every queued pointer, and every pointer a consumer holds, names the allocation it was handed out for. */
  ghost predicate PointersLive(s: State) {
    && |s.pool| == BLOCKS && |s.genOf| == BLOCKS
    && (forall q, k :: 0 <= q < |s.queues| && 0 <= k < |s.queues[q]| && s.queues[q][k].FrameReady?
          ==> Live(s, s.queues[q][k].slot, s.queues[q][k].gen))
    && (forall c :: 0 <= c < |s.consumers| && s.consumers[c].Holding?
          ==> Live(s, s.consumers[c].slot, s.consumers[c].gen))
  }

  lemma InvPointersLive(w: Wiring, s: State)
    requires Inv(w, s)
    ensures PointersLive(s)
  {
    forall q, k | 0 <= q < |s.queues| && 0 <= k < |s.queues[q]| && s.queues[q][k].FrameReady?
      ensures Live(s, s.queues[q][k].slot, s.queues[q][k].gen)
    {
      assert MessageOk(s, s.queues[q][k]);
    }
    forall c | 0 <= c < |s.consumers| && s.consumers[c].Holding?
      ensures Live(s, s.consumers[c].slot, s.consumers[c].gen)
    {
      assert ConsumerOk(s, s.consumers[c]);
    }
  }

  ghost predicate SafeFrom(w: Wiring, s: State)
    requires WiringOk(w)
  {
    forall t :: Reaches(w, s, t) ==> PointersLive(t)
  }

  /** Every subscribed queue can hold something and has a consumer. */
  predicate AllServed(w: Wiring) {
    WiringOk(w) && forall k :: 0 <= k < |w.subs| ==> w.caps[w.subs[k]] > 0 && w.subs[k] in w.serves
  }

  // ---- Outside the window ----

  /** A subscription made while no publisher is between reading the subscriber count and the end of its
      fan-out keeps the whole invariant in every run that goes on with it. */
  lemma LateSubscriptionHarmless(w: Wiring, publishers: nat, s: State, q: nat, acts: seq<Action>, t: State)
    requires WiringOk(w) && Reachable(w, publishers, s)
    requires forall p :: 0 <= p < |s.publishers| ==> !s.publishers[p].Counted? && !s.publishers[p].Sending?
    requires WiringOk(Later(w, q)) && Executes(Later(w, q), s, acts, t)
    ensures Inv(Later(w, q), t)
  {
    ReachableInv(w, publishers, s);
    forall p | 0 <= p < |s.publishers| ensures PublisherOk(Later(w, q), s, s.publishers[p]) {
      assert PublisherOk(w, s, s.publishers[p]);
    }
    RunKeepsInv(Later(w, q), s, acts, t);
  }

  /** `r` behaves as `p` does, with one send and one acceptance more to its name. */
  predicate Alike(p: Publisher, r: Publisher) {
    || p == r
    || (p.Sending? && r == p.(n := p.n + 1, accepted := p.accepted + 1))
    || (p.Releasing? && r == p.(k := p.k + 1, n := p.n + 1))
  }

  predicate StatesAlike(s: State, r: State) {
    && r == s.(publishers := r.publishers) && |r.publishers| == |s.publishers|
    && forall p :: 0 <= p < |s.publishers| ==> Alike(s.publishers[p], r.publishers[p])
  }

  lemma StepAlike(w: Wiring, s: State, r: State, a: Action)
    requires WiringOk(w) && Sized(w, s) && Enabled(w, s, a) && StatesAlike(s, r)
    ensures Sized(w, r) && Enabled(w, r, a) && StatesAlike(Step(w, s, a), Step(w, r, a))
  {
    if a.Start? || a.Advance? {
      assert Alike(s.publishers[a.p], r.publishers[a.p]);
    }
  }

  lemma {:induction false} RunAlike(w: Wiring, s: State, acts: seq<Action>, t: State, r: State) returns (u: State)
    requires WiringOk(w) && Executes(w, s, acts, t) && StatesAlike(s, r)
    ensures Executes(w, r, acts, u) && StatesAlike(t, u)
    decreases acts
  {
    if acts == [] {
      u := r;
    } else {
      StepAlike(w, s, r, acts[0]);
      u := RunAlike(w, Step(w, s, acts[0]), acts[1..], t, Step(w, r, acts[0]));
    }
  }

  /** A fan-out with a refused send, as if it had counted the new queue and that send had been accepted. */
  function Padded(p: Publisher): (r: Publisher)
    ensures Alike(p, r)
  {
    if p.Sending? && p.accepted < p.i then p.(n := p.n + 1, accepted := p.accepted + 1) else p
  }

  lemma PaddedInv(w: Wiring, s: State, q: nat, r: State)
    requires WiringOk(w) && Inv(w, s) && WiringOk(Later(w, q))
    requires forall p :: 0 <= p < |s.publishers| ==> !InWindow(s.publishers[p])
    requires r == s.(publishers := seq(|s.publishers|, p requires 0 <= p < |s.publishers| => Padded(s.publishers[p])))
    ensures Inv(Later(w, q), r)
  {
    forall i | 0 <= i < BLOCKS ensures BlockOk(r.pool[i], Refs(r, i)) {
      assert BlockOk(s.pool[i], Refs(s, i));
      SumSame(s.publishers, r.publishers, PublisherRefs(i));
    }
    forall p | 0 <= p < |r.publishers| ensures PublisherOk(Later(w, q), r, r.publishers[p]) {
      assert PublisherOk(w, s, s.publishers[p]) && !InWindow(s.publishers[p]);
    }
    forall k, j | 0 <= k < |r.queues| && 0 <= j < |r.queues[k]| ensures MessageOk(r, r.queues[k][j]) {
      assert MessageOk(s, s.queues[k][j]);
    }
    forall c | 0 <= c < |r.consumers| ensures ConsumerOk(r, r.consumers[c]) {
      assert ConsumerOk(s, s.consumers[c]);
    }
  }

  lemma HarmlessOutsideWindow(w: Wiring, s: State, q: nat, t: State)
    requires WiringOk(w) && Inv(w, s) && WiringOk(Later(w, q)) && Reaches(Later(w, q), s, t)
    requires forall p :: 0 <= p < |s.publishers| ==> !InWindow(s.publishers[p])
    ensures PointersLive(t)
  {
    var r := s.(publishers := seq(|s.publishers|, p requires 0 <= p < |s.publishers| => Padded(s.publishers[p])));
    PaddedInv(w, s, q, r);
    var acts :| Executes(Later(w, q), s, acts, t);
    var u := RunAlike(Later(w, q), s, acts, t, r);
    RunKeepsInv(Later(w, q), r, acts, u);
    InvPointersLive(Later(w, q), u);
  }

  // ---- Inside the window: the consumers empty their queues ----

  predicate IsConsumption(a: Action) {
    a.Dequeue? || a.Read? || a.Free?
  }

  predicate ConsumersDone(w: Wiring, s: State)
    requires WiringOk(w) && Sized(w, s)
  {
    forall c :: 0 <= c < |w.serves| ==> s.consumers[c].Ready? && s.queues[w.serves[c]] == []
  }

  lemma NothingToConsume(w: Wiring, s: State)
    requires WiringOk(w) && Inv(w, s) && !exists a :: Enabled(w, s, a) && IsConsumption(a)
    ensures ConsumersDone(w, s)
  {
    forall c | 0 <= c < |w.serves| ensures s.consumers[c].Ready? && s.queues[w.serves[c]] == [] {
      assert ConsumerOk(s, s.consumers[c]);
      assert !Enabled(w, s, Dequeue(c)) && !Enabled(w, s, Read(c)) && !Enabled(w, s, Free(c));
    }
  }

  lemma Consumption(w: Wiring, init: State, s: State, q: nat, a: Action)
    requires WiringOk(w) && Inv(w, s) && InSubscribed(w, s) && GensOk(s) && WiringOk(Later(w, q))
    requires Reaches(Later(w, q), init, s) && Enabled(w, s, a) && IsConsumption(a)
    ensures var t := Step(w, s, a);
            && Reaches(Later(w, q), init, t) && t.publishers == s.publishers
            && Inv(w, t) && InSubscribed(w, t) && GensOk(t) && Work(w, t) < Work(w, s)
  {
    StepKeepsInv(w, s, a);
    StepKeepsSubscribed(w, s, a);
    StepKeepsGens(w, s, a);
    StepReducesWork(w, s, a);
    ReachesThen(Later(w, q), init, s, a);
  }

  lemma ConsumersFinish(w: Wiring, s: State, q: nat) returns (t: State)
    requires WiringOk(w) && Inv(w, s) && InSubscribed(w, s) && GensOk(s) && WiringOk(Later(w, q))
    ensures Reaches(Later(w, q), s, t) && t.publishers == s.publishers
    ensures Inv(w, t) && InSubscribed(w, t) && GensOk(t) && ConsumersDone(w, t)
  {
    t := s;
    assert Executes(Later(w, q), s, [], s);
    while exists a :: Enabled(w, t, a) && IsConsumption(a)
      invariant Reaches(Later(w, q), s, t) && t.publishers == s.publishers
      invariant Inv(w, t) && InSubscribed(w, t) && GensOk(t)
      decreases Work(w, t)
    {
      var a :| Enabled(w, t, a) && IsConsumption(a);
      Consumption(w, s, t, q, a);
      t := Step(w, t, a);
    }
    NothingToConsume(w, t);
  }

  // ---- ... and leave the publisher its own references ----

  /** No pointer to a frame is queued or held. */
  ghost predicate NoneOut(s: State) {
    && (forall q, k :: 0 <= q < |s.queues| && 0 <= k < |s.queues[q]| ==> !s.queues[q][k].FrameReady?)
    && (forall c :: 0 <= c < |s.consumers| ==> s.consumers[c].Ready?)
  }

  lemma OwnReferencesOnly(w: Wiring, s: State, p: nat)
    requires Inv(w, s) && GensOk(s) && NoneOut(s) && p < |s.publishers| && !s.publishers[p].Idle?
    requires Live(s, s.publishers[p].slot, s.publishers[p].gen)
    ensures s.pool[s.publishers[p].slot].refCount == Owed(s.publishers[p]) > 0
  {
    var x := s.publishers[p].slot;
    var rest := SetPublisher(s, p, Idle);
    RefsSetPublisher(s, p, Idle, x);
    forall r | 0 <= r < |s.publishers| && r != p && !s.publishers[r].Idle? && s.publishers[r].slot == x
      ensures Owed(s.publishers[r]) == 0
    {
      assert PublisherOk(w, s, s.publishers[r]);
    }
    if Refs(rest, x) > 0 {
      SomeReferrer(rest, x);
      assert false;
    }
    assert BlockOk(s.pool[x], Refs(s, x));
  }

  // ---- ... and the fan-out then sends one pointer too many ----

  /** Every subscribed queue is empty and every consumer waits. */
  predicate AllTaken(w: Wiring, s: State)
    requires WiringOk(w)
  {
    && Sized(w, s) && (forall c :: 0 <= c < |s.consumers| ==> s.consumers[c].Ready?)
    && (forall k :: 0 <= k < |w.subs| ==> s.queues[w.subs[k]] == [])
  }

  /** The publisher has sent its first `i` pointers, and nobody but itself refers to the block. */
  predicate HasSent(s: State, p: nat, slot: nat, gen: nat, n: nat, i: nat) {
    && |s.pool| == BLOCKS && |s.genOf| == BLOCKS && slot < BLOCKS && i <= n
    && p < |s.publishers| && s.publishers[p] == Sending(slot, gen, i, n, i)
    && (if i < n then s.pool[slot].inUse && s.pool[slot].refCount == n - i else !Live(s, slot, gen))
  }

  lemma WindowOpens(w: Wiring, init: State, s: State, q: nat, p: nat) returns (t: State, i: nat)
    requires WiringOk(w) && Inv(w, s) && GensOk(s) && NoneOut(s) && WiringOk(Later(w, q))
    requires Reaches(Later(w, q), init, s) && AllTaken(Later(w, q), s)
    requires p < |s.publishers| && InWindow(s.publishers[p])
    ensures Reaches(Later(w, q), init, t) && AllTaken(Later(w, q), t)
    ensures var me := s.publishers[p]; HasSent(t, p, me.slot, me.gen, |w.subs|, i)
  {
    var me := s.publishers[p];
    assert PublisherOk(w, s, me);
    if me.Counted? {
      ReachesThen(Later(w, q), init, s, Advance(p));
      t, i := Step(Later(w, q), s, Advance(p)), 0;
    } else {
      t, i := s, me.i;
      if Live(s, me.slot, me.gen) {
        OwnReferencesOnly(w, s, p);
      }
    }
  }

  lemma SendToEmpty(w: Wiring, init: State, s: State, p: nat, slot: nat, gen: nat, n: nat, i: nat) returns (t: State)
    requires WiringOk(w) && Reaches(w, init, s) && AllTaken(w, s) && HasSent(s, p, slot, gen, n, i)
    requires i < |w.subs| && w.caps[w.subs[i]] > 0
    ensures Reaches(w, init, t) && t.queues == s.queues[w.subs[i] := [FrameReady(slot, gen)]]
    ensures t == s.(queues := t.queues, publishers := s.publishers[p := Sending(slot, gen, i + 1, n, i + 1)])
  {
    ReachesThen(w, init, s, Advance(p));
    t := Step(w, s, Advance(p));
    assert s.queues[w.subs[i]] + [FrameReady(slot, gen)] == [FrameReady(slot, gen)];
  }

  /** One send into an empty queue, and its consumer takes, reads and frees the frame. */
  lemma SendAndConsume(w: Wiring, init: State, s: State, p: nat, slot: nat, gen: nat, n: nat, i: nat) returns (t: State)
    requires WiringOk(w) && Reaches(w, init, s) && AllTaken(w, s) && HasSent(s, p, slot, gen, n, i)
    requires i < n && i < |w.subs| && w.caps[w.subs[i]] > 0 && w.subs[i] in w.serves
    ensures Reaches(w, init, t) && AllTaken(w, t) && HasSent(t, p, slot, gen, n, i + 1)
  {
    var u := SendToEmpty(w, init, s, p, slot, gen, n, i);
    var c :| 0 <= c < |w.serves| && w.serves[c] == w.subs[i];
    t := ConsumeOne(w, init, u, c, slot, gen);
    assert u.queues[w.subs[i]][1..] == [] == s.queues[w.subs[i]];
    assert t.queues == s.queues;
  }

  /** A fan-out over more queues than were counted: all but the last pointer are taken, read and freed
      before that one is sent. */
  lemma OneTooMany(w: Wiring, init: State, s: State, p: nat, slot: nat, gen: nat, n: nat, i: nat) returns (t: State)
    requires AllServed(w) && Reaches(w, init, s) && AllTaken(w, s) && HasSent(s, p, slot, gen, n, i) && n < |w.subs|
    ensures Reaches(w, init, t) && !PointersLive(t)
  {
    t := s;
    var j := i;
    while j < n
      invariant j <= n && Reaches(w, init, t) && AllTaken(w, t) && HasSent(t, p, slot, gen, n, j)
    {
      t := SendAndConsume(w, init, t, p, slot, gen, n, j);
      j := j + 1;
    }
    t := SendToEmpty(w, init, t, p, slot, gen, n, n);
    assert t.queues[w.subs[n]][0] == FrameReady(slot, gen);
  }

  lemma DoneIsTaken(w: Wiring, s: State, q: nat)
    requires AllServed(Later(w, q)) && WiringOk(w) && Inv(w, s) && InSubscribed(w, s) && ConsumersDone(w, s)
    ensures NoneOut(s) && AllTaken(Later(w, q), s)
  {
    assert forall k :: 0 <= k < |w.subs| ==> w.subs[k] == Later(w, q).subs[k];
  }

  lemma HarmfulInWindow(w: Wiring, publishers: nat, s: State, q: nat, p: nat) returns (t: State)
    requires WiringOk(w) && Reachable(w, publishers, s) && AllServed(Later(w, q))
    requires p < |s.publishers| && InWindow(s.publishers[p])
    ensures Reaches(Later(w, q), s, t) && !PointersLive(t)
  {
    ReachableSubscribed(w, publishers, s);
    ReachableGens(w, publishers, s);
    var quiet := ConsumersFinish(w, s, q);
    DoneIsTaken(w, quiet, q);
    var u, i := WindowOpens(w, s, quiet, q, p);
    t := OneTooMany(Later(w, q), s, u, p, s.publishers[p].slot, s.publishers[p].gen, |w.subs|, i);
  }

  // ---- Main results ----

  /** With every subscribed queue served, one more subscription keeps all pointers live in every run that
      goes on with it if and only if no publisher is in the window. */
  lemma LateSubscriptionSafeIff(w: Wiring, publishers: nat, s: State, q: nat)
    requires WiringOk(w) && Reachable(w, publishers, s) && AllServed(Later(w, q))
    ensures SafeFrom(Later(w, q), s) <==> (forall p :: 0 <= p < |s.publishers| ==> !InWindow(s.publishers[p]))
  {
    ReachableInv(w, publishers, s);
    if p :| 0 <= p < |s.publishers| && InWindow(s.publishers[p]) {
      var t := HarmfulInWindow(w, publishers, s, q, p);
    } else {
      forall t | Reaches(Later(w, q), s, t) ensures PointersLive(t) {
        HarmlessOutsideWindow(w, s, q, t);
      }
    }
  }

  /** A subscription that has waited for the topic lock finds no fan-out past its first send: it is safe if
      and only if no publisher is between reading the subscriber count and taking the lock. */
  lemma LockedSubscriptionSafeIff(w: Wiring, publishers: nat, s: State, q: nat)
    requires WiringOk(w) && Reachable(w, publishers, s) && AllServed(Later(w, q))
    requires forall p :: 0 <= p < |s.publishers| && s.publishers[p].Sending? ==> s.publishers[p].i == 0
    ensures SafeFrom(Later(w, q), s)
            <==> (forall p :: 0 <= p < |s.publishers| ==> !s.publishers[p].Counted? && !s.publishers[p].Sending?)
  {
    ReachableInv(w, publishers, s);
    LateSubscriptionSafeIff(w, publishers, s, q);
    forall p | 0 <= p < |s.publishers|
      ensures InWindow(s.publishers[p]) <==> s.publishers[p].Counted? || s.publishers[p].Sending?
    {
      assert PublisherOk(w, s, s.publishers[p]);
    }
  }

  /** The smallest example: one Bus_Subscribe between setting the count and taking the topic lock leaves a
      queued pointer to a block that has already been freed. */
  lemma LateSubscriptionDangles() returns (w: Wiring, s: State, u: State)
    ensures w == Wiring([0], [1, 1], [0]) && WiringOk(w) && WiringOk(Later(w, 1))
    ensures Reachable(w, 1, s) && Reaches(Later(w, 1), s, u) && s.publishers == [Sending(0, 0, 0, 1, 0)]
    ensures |u.queues| == 2 && |u.pool| == BLOCKS && u.queues[1] == [FrameReady(0, 0)] && !u.pool[0].inUse
  {
    w := Wiring([0], [1, 1], [0]);
    var later := Later(w, 1);
    s := OneFrameUpToSetCount(w);
    assert later.subs == [0, 1] && s.queues == [[], []];
    assert forall q :: 0 <= q < 2 ==> s.queues[q] + [FrameReady(0, 0)] == [FrameReady(0, 0)];
    assert Executes(later, s, [], s);
    ReachesThen(later, s, s, Advance(0));
    var s1 := Step(later, s, Advance(0));
    assert s1.queues == [[FrameReady(0, 0)], []];
    ReachesThen(later, s, s1, Advance(0));
    var s2 := Step(later, s1, Advance(0));
    assert s2.queues == [[FrameReady(0, 0)], [FrameReady(0, 0)]];
    u := ConsumeOne(later, s, s2, 0, 0, 0);
  }
}
