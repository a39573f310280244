/** What the frame protocol does not protect, and exactly when that matters. */
module FrameLimits {
  import opened Sums
  import opened PayloadPool
  import opened FrameLifetime
  import opened FrameSafety

  // ---- Publishers never share an allocation ----

  predicate GensOk(s: State) {
    && (forall p :: 0 <= p < |s.publishers| && !s.publishers[p].Idle? ==> s.publishers[p].gen < |s.frames|)
    && (forall p, r :: 0 <= p < r < |s.publishers| && !s.publishers[p].Idle? && !s.publishers[r].Idle?
          ==> s.publishers[p].gen != s.publishers[r].gen)
  }

  lemma StepKeepsGens(w: Wiring, s: State, a: Action)
    requires WiringOk(w) && Sized(w, s) && GensOk(s) && Enabled(w, s, a)
    ensures GensOk(Step(w, s, a))
  {
    if a.Advance? {
      var next := Step(w, s, a).publishers[a.p];
      assert next.Idle? || next.gen == s.publishers[a.p].gen;
    }
  }

  lemma {:induction false} RunKeepsGens(w: Wiring, s: State, acts: seq<Action>, t: State)
    requires WiringOk(w) && GensOk(s) && Executes(w, s, acts, t)
    ensures GensOk(t)
    decreases acts
  {
    if acts != [] {
      StepKeepsGens(w, s, acts[0]);
      RunKeepsGens(w, Step(w, s, acts[0]), acts[1..], t);
    }
  }

  lemma ReachableGens(w: Wiring, publishers: nat, t: State)
    requires WiringOk(w) && Reachable(w, publishers, t)
    ensures GensOk(t)
  {
    var acts :| Executes(w, Init(w, publishers), acts, t);
    RunKeepsGens(w, Init(w, publishers), acts, t);
  }

  // ---- The diagnostic line of publishFrameReady ----

  /** Some queue or consumer still has the pointer handed out for the allocation. */
  ghost predicate StillOut(s: State, slot: nat, gen: nat) {
    || (exists q, k :: 0 <= q < |s.queues| && 0 <= k < |s.queues[q]| && s.queues[q][k] == FrameReady(slot, gen))
    || (exists c :: 0 <= c < |s.consumers| && s.consumers[c].Holding?
                    && s.consumers[c].slot == slot && s.consumers[c].gen == gen)
  }

  /** A block in use is referred to by somebody. */
  lemma SomeReferrer(s: State, slot: nat)
    requires Refs(s, slot) > 0
    ensures || (exists q, k :: 0 <= q < |s.queues| && 0 <= k < |s.queues[q]|
                               && s.queues[q][k].FrameReady? && s.queues[q][k].slot == slot)
            || (exists c :: 0 <= c < |s.consumers| && s.consumers[c].Holding? && s.consumers[c].slot == slot)
            || (exists r :: 0 <= r < |s.publishers| && !s.publishers[r].Idle? && s.publishers[r].slot == slot
                            && Owed(s.publishers[r]) > 0)
  {
    if forall q :: 0 <= q < |s.queues| ==> QueueRefs(slot)(s.queues[q]) == 0 {
      SumZero(s.queues, QueueRefs(slot));
      if forall c :: 0 <= c < |s.consumers| ==> ConsumerRefs(slot)(s.consumers[c]) == 0 {
        SumZero(s.consumers, ConsumerRefs(slot));
        if forall r :: 0 <= r < |s.publishers| ==> PublisherRefs(slot)(s.publishers[r]) == 0 {
          SumZero(s.publishers, PublisherRefs(slot));
        }
      }
    } else {
      var q :| 0 <= q < |s.queues| && QueueRefs(slot)(s.queues[q]) > 0;
      if forall k :: 0 <= k < |s.queues[q]| ==> MessageRefs(slot)(s.queues[q][k]) == 0 {
        SumZero(s.queues[q], MessageRefs(slot));
      }
    }
  }

  lemma StillOutIsIntact(w: Wiring, s: State, slot: nat, gen: nat)
    requires Inv(w, s) && StillOut(s, slot, gen)
    ensures Intact(s, slot, gen)
  {
    if q, k :| 0 <= q < |s.queues| && 0 <= k < |s.queues[q]| && s.queues[q][k] == FrameReady(slot, gen) {
      assert MessageOk(s, s.queues[q][k]);
    } else {
      var c :| 0 <= c < |s.consumers| && s.consumers[c].Holding?
               && s.consumers[c].slot == slot && s.consumers[c].gen == gen;
      assert ConsumerOk(s, s.consumers[c]);
    }
  }

  /** An allocation whose publisher owes nothing any more lives only through queues and consumers. */
  lemma LiveIsStillOut(w: Wiring, s: State, p: nat)
    requires Inv(w, s) && GensOk(s) && p < |s.publishers| && s.publishers[p].Printing?
    requires Live(s, s.publishers[p].slot, s.publishers[p].gen)
    ensures StillOut(s, s.publishers[p].slot, s.publishers[p].gen)
  {
    var slot := s.publishers[p].slot;
    forall r | 0 <= r < |s.publishers| && !s.publishers[r].Idle? && s.publishers[r].slot == slot
      ensures Owed(s.publishers[r]) == 0
    {
      assert PublisherOk(w, s, s.publishers[r]);
    }
    assert BlockOk(s.pool[slot], Refs(s, slot));
    SomeReferrer(s, slot);
    if q, k :| 0 <= q < |s.queues| && 0 <= k < |s.queues[q]|
               && s.queues[q][k].FrameReady? && s.queues[q][k].slot == slot {
      assert MessageOk(s, s.queues[q][k]);
    } else if c :| 0 <= c < |s.consumers| && s.consumers[c].Holding? && s.consumers[c].slot == slot {
      assert ConsumerOk(s, s.consumers[c]);
    }
  }

  /** The diagnostic line reads the publisher's own frame exactly as long as some queue or consumer still
      has its pointer; from then on the block is wiped or belongs to another allocation. */
  lemma PrintReadsOwnFrameIff(w: Wiring, publishers: nat, t: State, p: nat)
    requires WiringOk(w) && Reachable(w, publishers, t) && p < |t.publishers| && t.publishers[p].Printing?
    ensures Sized(w, t) && t.publishers[p].slot < BLOCKS
    ensures var slot, gen := t.publishers[p].slot, t.publishers[p].gen;
            && (Intact(t, slot, gen) <==> StillOut(t, slot, gen))
            && (!StillOut(t, slot, gen) ==> t.pool[slot] == ZERO_BLOCK || t.genOf[slot] != gen)
  {
    ReachableInv(w, publishers, t);
    ReachableGens(w, publishers, t);
    var slot, gen := t.publishers[p].slot, t.publishers[p].gen;
    assert PublisherOk(w, t, t.publishers[p]);
    assert BlockOk(t.pool[slot], Refs(t, slot));
    if Live(t, slot, gen) {
      LiveIsStillOut(w, t, p);
    }
    if StillOut(t, slot, gen) {
      StillOutIsIntact(w, t, slot, gen);
    }
  }

  // ---- A run in which it reads a wiped block ----

  /** The state of a lone publisher and consumer with one frame under way and nothing queued. */
  function OneFrame(w: Wiring, contents: Payload, publisher: Publisher): State {
    Init(w, 1).(pool := Init(w, 1).pool[0 := Block(contents, true, 1)], publishers := [publisher],
                frames := [FrameFor(7)])
  }

  lemma OneFrameStep(w: Wiring, contents: Payload, publisher: Publisher, contents': Payload, publisher': Publisher)
    requires WiringOk(w) && |w.serves| == 1 && Reachable(w, 1, OneFrame(w, contents, publisher))
    requires publisher.Writing? || publisher.Counted?
    requires Enabled(w, OneFrame(w, contents, publisher), Advance(0))
    requires Step(w, OneFrame(w, contents, publisher), Advance(0)) == OneFrame(w, contents', publisher')
    ensures Reachable(w, 1, OneFrame(w, contents', publisher'))
  {
    ReachesThen(w, Init(w, 1), OneFrame(w, contents, publisher), Advance(0));
  }

  lemma OneFrameStarted(w: Wiring)
    requires WiringOk(w) && |w.serves| == 1
    ensures Reachable(w, 1, OneFrame(w, Partly(FrameFor(7), 0), Writing(0, 0, 0)))
  {
    var init := Init(w, 1);
    assert Executes(w, init, [], init);
    assert FirstFree(init.pool) == 0;
    ReachesThen(w, init, init, Start(0, 7));
    assert Step(w, init, Start(0, 7)) == OneFrame(w, Partly(FrameFor(7), 0), Writing(0, 0, 0));
  }

  /** A lone publisher on one single-slot queue, up to and including Pool_SetRefCount. */
  lemma OneFrameUpToSetCount(w: Wiring) returns (s: State)
    requires w == Wiring([0], [1], [0]) || w == Wiring([0], [1, 1], [0])
    ensures Reachable(w, 1, s) && s == OneFrame(w, FrameFor(7), Sending(0, 0, 0, 1, 0))
  {
    OneFrameStarted(w);
    var i := 0;
    while i < 4
      invariant i <= 4 && Reachable(w, 1, OneFrame(w, Partly(FrameFor(7), i), Writing(0, 0, i)))
    {
      OneFrameStep(w, Partly(FrameFor(7), i), Writing(0, 0, i), Partly(FrameFor(7), i + 1), Writing(0, 0, i + 1));
      i := i + 1;
    }
    OneFrameStep(w, FrameFor(7), Writing(0, 0, 4), FrameFor(7), Counted(0, 0, 1));
    OneFrameStep(w, FrameFor(7), Counted(0, 0, 1), FrameFor(7), Sending(0, 0, 0, 1, 0));
    s := OneFrame(w, FrameFor(7), Sending(0, 0, 0, 1, 0));
  }

  /** ... and on to its diagnostic line, with the frame still queued. */
  lemma OneFramePublished(w: Wiring) returns (s: State)
    requires w == Wiring([0], [1], [0])
    ensures Reachable(w, 1, s)
    ensures s == OneFrame(w, FrameFor(7), Printing(0, 0)).(queues := [[FrameReady(0, 0)]])
  {
    s := OneFrameUpToSetCount(w);
    var init := Init(w, 1);
    assert s.queues == [[]] && s.queues[0] + [FrameReady(0, 0)] == [FrameReady(0, 0)];
    ReachesThen(w, init, s, Advance(0));
    s := Step(w, s, Advance(0));
    ReachesThen(w, init, s, Advance(0));
    s := Step(w, s, Advance(0));
    ReachesThen(w, init, s, Advance(0));
    s := Step(w, s, Advance(0));
  }

  /** A ready consumer takes the frame at the head of its queue, reads it and frees it. */
  lemma ConsumeOne(w: Wiring, init: State, s: State, c: nat, slot: nat, gen: nat) returns (t: State)
    requires WiringOk(w) && Reaches(w, init, s) && Sized(w, s) && slot < BLOCKS
    requires c < |w.serves| && s.consumers[c] == Ready
    requires var queue := s.queues[w.serves[c]]; queue != [] && queue[0] == FrameReady(slot, gen)
    ensures Reaches(w, init, t)
    ensures var q := w.serves[c];
            t == s.(pool := AfterFree(s.pool, Descriptor(slot)), queues := s.queues[q := s.queues[q][1..]])
  {
    ReachesThen(w, init, s, Dequeue(c));
    var s1 := Step(w, s, Dequeue(c));
    ReachesThen(w, init, s1, Read(c));
    var s2 := Step(w, s1, Read(c));
    ReachesThen(w, init, s2, Read(c));
    var s3 := Step(w, s2, Read(c));
    ReachesThen(w, init, s3, Free(c));
    t := Step(w, s3, Free(c));
    assert t.consumers == s.consumers;
  }

  /** The publisher has given up its references when it prints: the block may already have been wiped. */
  lemma TrailingPrintIsUnprotected() returns (w: Wiring, t: State)
    ensures WiringOk(w) && Reachable(w, 1, t) && |t.pool| == BLOCKS && |t.publishers| == 1
    ensures t.publishers[0] == Printing(0, 0) && t.frames == [FrameFor(7)] && t.pool[0] == ZERO_BLOCK
  {
    w := Wiring([0], [1], [0]);
    var s := OneFramePublished(w);
    t := ConsumeOne(w, Init(w, 1), s, 0, 0, 0);
  }
}
