/**
  The step machine of the frame lifetime against the sequential code: when nobody else moves, the steps of
  one publisher do to pool and queues exactly what FramePublisher.Publisher.PublishFrameReady promises.
*/
module FrameRefinement {
  import opened Common
  import opened PayloadPool
  import opened EventBus
  import opened FrameLifetime
  import opened FrameSafety
  import P = FramePublisher

  /** An event in a queue and the message that stands for it in the step machine. */
  predicate Matches(e: Event, m: Message) {
    if m.OtherTopic? then e.topic != TOPIC_FRAME_READY
    else e.topic == TOPIC_FRAME_READY && e.frame == Descriptor(m.slot)
  }

  predicate QueueMirrors(events: seq<Event>, messages: seq<Message>) {
    |events| == |messages| && forall i :: 0 <= i < |events| ==> Matches(events[i], messages[i])
  }

  predicate Mirrors(events: seq<seq<Event>>, messages: seq<seq<Message>>) {
    |events| == |messages| && forall q :: 0 <= q < |events| ==> QueueMirrors(events[q], messages[q])
  }

  /** `acts` moves nothing but publisher `p`, which ends idle. */
  ghost predicate Alone(w: Wiring, s: State, p: nat, acts: seq<Action>, t: State)
    requires WiringOk(w)
  {
    && Executes(w, s, acts, t)
    && (forall k :: 0 <= k < |acts| ==> (acts[k].Start? || acts[k].Advance?) && acts[k].p == p)
    && t.consumers == s.consumers && p < |s.publishers| && t.publishers == s.publishers[p := FrameLifetime.Idle]
  }

  lemma StepFirst(w: Wiring, s: State, p: nat, a: Action, rest: seq<Action>, t: State)
    requires WiringOk(w) && Sized(w, s) && Enabled(w, s, a) && (a.Start? || a.Advance?) && a.p == p
    requires Alone(w, Step(w, s, a), p, rest, t)
    requires Step(w, s, a).consumers == s.consumers
    requires p < |s.publishers| == |Step(w, s, a).publishers|
    requires Step(w, s, a).publishers == s.publishers[p := Step(w, s, a).publishers[p]]
    ensures Alone(w, s, p, [a] + rest, t)
  {
    assert ([a] + rest)[1..] == rest;
  }

  lemma FinishAlone(w: Wiring, s: State, p: nat) returns (acts: seq<Action>, t: State)
    requires WiringOk(w) && Sized(w, s) && p < |s.publishers|
    requires s.publishers[p].Releasing? && s.publishers[p].k >= s.publishers[p].n && s.publishers[p].slot < BLOCKS
    ensures Alone(w, s, p, acts, t) && t.pool == s.pool && t.queues == s.queues
  {
    var a := Advance(p);
    var s1 := Step(w, s, a);
    t := Step(w, s1, a);
    assert Executes(w, t, [], t);
    assert [a][1..] == [];
    assert Alone(w, s1, p, [a], t);
    StepFirst(w, s, p, a, [a], t);
    acts := [a] + [a];
  }

  /** The compensating frees. */
  lemma {:induction false} ReleaseAlone(w: Wiring, s: State, p: nat) returns (acts: seq<Action>, t: State)
    requires WiringOk(w) && Sized(w, s) && p < |s.publishers| && s.publishers[p].Releasing?
             && s.publishers[p].slot < BLOCKS
    requires var me := s.publishers[p]; me.k <= me.n && s.pool[me.slot].inUse && s.pool[me.slot].refCount >= me.n - me.k
    requires s.pool[s.publishers[p].slot].refCount > 0
    ensures Alone(w, s, p, acts, t) && t.queues == s.queues
    ensures var me := s.publishers[p];
            var b := s.pool[me.slot];
            t.pool == s.pool[me.slot := if b.refCount == me.n - me.k then ZERO_BLOCK
                                        else b.(refCount := b.refCount - (me.n - me.k))]
    decreases s.publishers[p].n - s.publishers[p].k
  {
    var me := s.publishers[p];
    if me.k < me.n {
      var rest;
      var s1 := Step(w, s, Advance(p));
      if me.k + 1 < me.n {
        rest, t := ReleaseAlone(w, s1, p);
      } else {
        rest, t := FinishAlone(w, s1, p);
      }
      StepFirst(w, s, p, Advance(p), rest, t);
      acts := [Advance(p)] + rest;
    } else {
      acts, t := FinishAlone(w, s, p);
    }
  }

  lemma OfferMirrors(w: Wiring, messages: seq<seq<Message>>, q: nat, e: Event, f: FanOut, m: Message)
    requires q < |w.caps| == |messages| && Mirrors(f.queues, messages) && Matches(e, m)
    ensures Mirrors(Offer(q, w.caps, e, f).queues,
                    if |messages[q]| < w.caps[q] then messages[q := messages[q] + [m]] else messages)
    ensures Offer(q, w.caps, e, f).accepted == f.accepted + if |messages[q]| < w.caps[q] then 1 else 0
  {
  }

  /** The sends, one step each, against the fan-out loop. */
  lemma {:induction false} SendAlone(w: Wiring, s: State, p: nat, e: Event, f: FanOut)
      returns (acts: seq<Action>, t: State)
    requires WiringOk(w) && Sized(w, s) && p < |s.publishers| && s.publishers[p].Sending?
             && s.publishers[p].slot < BLOCKS
    requires Mirrors(f.queues, s.queues)
    requires var me := s.publishers[p];
             && me.n == |w.subs| && me.i <= |w.subs| && f.accepted == me.accepted <= me.i
             && e.topic == TOPIC_FRAME_READY && e.frame == Descriptor(me.slot)
             && s.pool[me.slot].inUse && s.pool[me.slot].refCount == me.n > 0
    ensures Alone(w, s, p, acts, t)
    ensures var me := s.publishers[p];
            var r := OfferAll(w.subs[me.i..], w.caps, e, f);
            && Mirrors(r.queues, t.queues) && r.accepted <= |w.subs|
            && t.pool == s.pool[me.slot := if r.accepted == 0 then ZERO_BLOCK
                                           else s.pool[me.slot].(refCount := r.accepted)]
    decreases |w.subs| - s.publishers[p].i
  {
    var me := s.publishers[p];
    var a := Advance(p);
    var rest;
    var s1 := Step(w, s, a);
    if me.i < |w.subs| {
      var q := w.subs[me.i];
      OfferMirrors(w, s.queues, q, e, f, FrameReady(me.slot, me.gen));
      assert w.subs[me.i..][1..] == w.subs[me.i + 1..];
      rest, t := SendAlone(w, s1, p, e, Offer(q, w.caps, e, f));
    } else {
      rest, t := ReleaseAlone(w, s1, p);
    }
    StepFirst(w, s, p, a, rest, t);
    acts := [a] + rest;
  }

  /** The block after the call: counted to the queues that accepted its pointer, or free again. */
  function Settled(b: Block, accepted: nat): Block {
    if accepted == 0 then ZERO_BLOCK else b.(refCount := accepted)
  }

  /** What publisher `p` has allocated and not yet announced, and the event that will announce it. */
  predicate Prepared(w: Wiring, s: State, p: nat, slot: nat, e: Event, f: FanOut)
    requires WiringOk(w)
  {
    && Sized(w, s) && p < |s.publishers| && slot < BLOCKS && s.pool[slot].inUse && s.pool[slot].refCount == 1
    && Mirrors(f.queues, s.queues) && f.accepted == 0
    && e.topic == TOPIC_FRAME_READY && e.frame == Descriptor(slot)
  }

  /** From reading the subscriber count on. */
  lemma AnnounceAlone(w: Wiring, s: State, p: nat, slot: nat, e: Event, f: FanOut) returns (acts: seq<Action>, t: State)
    requires WiringOk(w) && Prepared(w, s, p, slot, e, f)
    requires s.publishers[p].Writing? && s.publishers[p].slot == slot && s.publishers[p].stage == 4
             && s.publishers[p].gen < |s.frames|
    ensures Alone(w, s, p, acts, t)
    ensures var r := OfferAll(w.subs, w.caps, e, f);
            Mirrors(r.queues, t.queues) && t.pool == s.pool[slot := Settled(s.pool[slot], r.accepted)]
  {
    var a := Advance(p);
    var s1 := Step(w, s, a);
    var s2 := Step(w, s1, a);
    var rest;
    if |w.subs| == 0 {
      rest, t := [], s2;
      assert Executes(w, s2, [], s2);
    } else {
      assert w.subs[0..] == w.subs;
      rest, t := SendAlone(w, s2, p, e, f);
    }
    StepFirst(w, s1, p, a, rest, t);
    StepFirst(w, s, p, a, [a] + rest, t);
    acts := [a] + ([a] + rest);
  }

  /** From filling in the descriptor on, one field a step. */
  lemma {:induction false} WriteAlone(w: Wiring, s: State, p: nat, slot: nat, e: Event, f: FanOut)
      returns (acts: seq<Action>, t: State)
    requires WiringOk(w) && Prepared(w, s, p, slot, e, f)
    requires s.publishers[p].Writing? && s.publishers[p].slot == slot && s.publishers[p].stage <= 4
             && s.publishers[p].gen < |s.frames|
    requires s.pool[slot].payload == Partly(s.frames[s.publishers[p].gen], s.publishers[p].stage)
    ensures Alone(w, s, p, acts, t)
    ensures var r := OfferAll(w.subs, w.caps, e, f);
            var full := s.pool[slot].(payload := Partly(s.frames[s.publishers[p].gen], 4));
            Mirrors(r.queues, t.queues) && t.pool == s.pool[slot := Settled(full, r.accepted)]
    decreases 4 - s.publishers[p].stage
  {
    if s.publishers[p].stage == 4 {
      acts, t := AnnounceAlone(w, s, p, slot, e, f);
    } else {
      var rest;
      rest, t := WriteAlone(w, Step(w, s, Advance(p)), p, slot, e, f);
      StepFirst(w, s, p, Advance(p), rest, t);
      acts := [Advance(p)] + rest;
    }
  }

  /** A call of publishFrameReady during which nobody else moves runs to its end, and leaves pool and
      queues as the sequential code does: nothing changed if no block was free; otherwise the queues
      as the fan-out leaves them, and the block taken counted to exactly the queues that accepted it. */
  lemma PublishAloneRefines(w: Wiring, publishers: nat, s: State, p: nat, sequence: nat,
                            stats: Stats, queues: seq<seq<Event>>, dropCount: nat, e: Event)
    returns (acts: seq<Action>, t: State)
    requires WiringOk(w) && Reachable(w, publishers, s) && p < |s.publishers| && s.publishers[p].Idle?
             && Mirrors(queues, s.queues)
    requires e.topic == TOPIC_FRAME_READY && e.frame == Descriptor(FirstFree(s.pool))
    ensures Sized(w, s) && Alone(w, s, p, acts, t) && acts != [] && acts[0] == Start(p, sequence)
    ensures var slot := FirstFree(s.pool);
            var r := Published(Topic(w.subs, stats), w.caps, queues, dropCount, e);
            if slot == BLOCKS then t == s
            else Mirrors(r.queues, t.queues)
                 && t.pool == if r.accepted == 0 then s.pool
                              else s.pool[slot := Block(FrameFor(sequence), true, r.accepted)]
  {
    ReachableInv(w, publishers, s);
    var slot := FirstFree(s.pool);
    var a := Start(p, sequence);
    var s1 := Step(w, s, a);
    var rest;
    if slot == BLOCKS {
      rest, t := [], s;
      assert Executes(w, s, [], s);
    } else {
      assert BlockOk(s.pool[slot], Refs(s, slot));
      var f := FanOut(queues, stats.(published := Increment(stats.published), subscribers := |w.subs|),
                      dropCount, 0, true);
      rest, t := WriteAlone(w, s1, p, slot, e, f);
    }
    StepFirst(w, s, p, a, rest, t);
    acts := [a] + rest;
  }

  // ---- The method itself ----

  /** `t` is `s` after events of other topics have been sent, and nothing else. */
  ghost predicate OthersSent(w: Wiring, s: State, acts: seq<Action>, t: State)
    requires WiringOk(w)
  {
    Executes(w, s, acts, t) && (forall k :: 0 <= k < |acts| ==> acts[k].OtherSend?) && t == s.(queues := t.queues)
  }

  /** The fan-out of an event of another topic, one send each. */
  lemma {:induction false} OthersFanOut(w: Wiring, s: State, subs: seq<nat>, e: Event, f: FanOut)
      returns (acts: seq<Action>, t: State)
    requires WiringOk(w) && Sized(w, s) && Mirrors(f.queues, s.queues) && e.topic != TOPIC_FRAME_READY
    requires Fits(subs, w.caps, f.queues)
    ensures OthersSent(w, s, acts, t) && Mirrors(OfferAll(subs, w.caps, e, f).queues, t.queues)
    decreases |subs|
  {
    if subs == [] {
      acts, t := [], s;
    } else {
      var q := subs[0];
      OfferMirrors(w, s.queues, q, e, f, OtherTopic);
      if |s.queues[q]| < w.caps[q] {
        var a := OtherSend(q);
        var rest;
        rest, t := OthersFanOut(w, Step(w, s, a), subs[1..], e, Offer(q, w.caps, e, f));
        acts := [a] + rest;
        assert acts[1..] == rest;
      } else {
        acts, t := OthersFanOut(w, s, subs[1..], e, Offer(q, w.caps, e, f));
      }
    }
  }

  /** Steps of a call by publisher `p`: its own, and sends of events of other topics. */
  predicate StepsOf(p: nat, sequence: nat, acts: seq<Action>) {
    && acts != [] && acts[0] == Start(p, sequence)
    && forall k :: 0 <= k < |acts| ==> acts[k].OtherSend? || ((acts[k].Start? || acts[k].Advance?) && acts[k].p == p)
  }

  /** With no block free, the call reports a fault instead. */
  lemma FaultAsRun(w: Wiring, s: State, p: nat, sequence: nat, topic: Topic, queues: seq<seq<Event>>, dropCount: nat,
                   e: Event)
      returns (acts: seq<Action>, t: State)
    requires WiringOk(w) && Sized(w, s) && p < |s.publishers| && s.publishers[p].Idle? && FirstFree(s.pool) == BLOCKS
    requires Mirrors(queues, s.queues) && Fits(topic.subscribers, w.caps, queues) && e.topic != TOPIC_FRAME_READY
    ensures Executes(w, s, acts, t) && StepsOf(p, sequence, acts) && t == s.(queues := t.queues)
    ensures Mirrors(Published(topic, w.caps, queues, dropCount, e).queues, t.queues)
  {
    var f := FanOut(queues, topic.stats.(published := Increment(topic.stats.published),
                                         subscribers := |topic.subscribers|), dropCount, 0, true);
    var sends;
    sends, t := OthersFanOut(w, s, topic.subscribers, e, f);
    acts := [Start(p, sequence)] + sends;
    assert acts[1..] == sends;
  }

  lemma FrameAsRun(w: Wiring, publishers: nat, s: State, p: nat, sequence: nat, topic: Topic,
                   queues: seq<seq<Event>>, dropCount: nat, e: Event)
      returns (acts: seq<Action>, t: State)
    requires WiringOk(w) && Reachable(w, publishers, s) && p < |s.publishers| && s.publishers[p].Idle?
    requires |s.pool| == BLOCKS && FirstFree(s.pool) < BLOCKS && topic.subscribers == w.subs
    requires Mirrors(queues, s.queues)
    requires e.topic == TOPIC_FRAME_READY && e.frame == Descriptor(FirstFree(s.pool))
    ensures Executes(w, s, acts, t) && StepsOf(p, sequence, acts) && forall k :: 0 <= k < |acts| ==> !acts[k].OtherSend?
    ensures t.publishers == s.publishers && t.consumers == s.consumers
    ensures |queues| == |w.caps|
    ensures var r := Published(topic, w.caps, queues, dropCount, e);
            && Mirrors(r.queues, t.queues)
            && t.pool == if r.accepted == 0 then s.pool
                         else s.pool[FirstFree(s.pool) := Block(FrameFor(sequence), true, r.accepted)]
  {
    ReachableInv(w, publishers, s);
    acts, t := PublishAloneRefines(w, publishers, s, p, sequence, topic.stats, queues, dropCount, e);
    assert topic == Topic(w.subs, topic.stats) && s.publishers[p := FrameLifetime.Idle] == s.publishers;
  }

  /** The pool, the queues and the frame subscriptions of the publisher are those of a state of the machine. */
  ghost predicate Shows(pub: P.Publisher, w: Wiring, s: State)
    reads pub, pub.pool, pub.pool.blocks, pub.bus, pub.bus.topics, pub.bus.queues, pub.taskSequences
  {
    && pub.Valid() && s.pool == pub.pool.blocks[..] && Mirrors(pub.bus.queues[..], s.queues)
    && w.subs == pub.bus.topics[TOPIC_FRAME_READY].subscribers && w.caps == pub.bus.caps
  }

  /** The sequential method against the machine: whatever reachable state its pool and queues show, after the
      call they show a state that a run of the machine leads to, in which only the calling publisher has moved
      and is idle again, and, if no block was free, the fault report has been sent. */
  method PublishFrameReadyAsRun(pub: P.Publisher, sequence: nat, now: nat, ghost w: Wiring, ghost publishers: nat,
                                ghost s: State, ghost p: nat)
      returns (taken: Pointer, sent: nat, ghost acts: seq<Action>, ghost t: State)
    requires Shows(pub, w, s) && WiringOk(w) && Reachable(w, publishers, s)
    requires p < |s.publishers| && s.publishers[p].Idle?
    modifies pub.taskSequences, pub.bus, pub.bus.topics, pub.bus.queues, pub.pool.blocks
    ensures Shows(pub, w, t) && Executes(w, s, acts, t) && t.publishers == s.publishers && t.consumers == s.consumers
    ensures StepsOf(p, sequence, acts) && (taken != Null ==> forall k :: 0 <= k < |acts| ==> !acts[k].OtherSend?)
  {
    ghost var queues, dropCount, id := pub.bus.queues[..], pub.bus.dropCount, pub.bus.nextEventId;
    ghost var topics, sequences := pub.bus.topics[..], pub.taskSequences[..];
    ReachableInv(w, publishers, s);
    taken, sent := pub.PublishFrameReady(sequence, now);
    if taken == Null {
      ghost var e := P.SimpleEvent(TOPIC_SYSTEM_FAULT, TASK_ID_SENSOR_MANAGER, 1, now,
                                   Increment(sequences[TASK_ID_HEALTH_MANAGER]));
      acts, t := FaultAsRun(w, s, p, sequence, topics[TOPIC_SYSTEM_FAULT], queues, dropCount, Routed(e, id));
    } else {
      ghost var e := Routed(P.FrameReadyEvent(now, Increment(sequences[TASK_ID_SENSOR_MANAGER]), taken.slot), id);
      acts, t := FrameAsRun(w, publishers, s, p, sequence, topics[TOPIC_FRAME_READY], queues, dropCount, e);
    }
  }
}
