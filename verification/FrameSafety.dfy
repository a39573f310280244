/** Safety of the frame descriptors in every run, for any number of publishers and consumers. */
module FrameSafety {
  import opened Sums
  import opened PayloadPool
  import opened FrameLifetime

  /** A slot that is in use after the step was so before, for the same allocation and contents, and
      has gained no reference. */
  predicate StableAt(s: State, t: State, i: nat)
    requires i < |s.pool| && i < |t.pool| && i < |s.genOf| && i < |t.genOf|
  {
    t.pool[i].inUse ==>
      s.pool[i].inUse && t.pool[i].payload == s.pool[i].payload && t.genOf[i] == s.genOf[i]
      && t.pool[i].refCount <= s.pool[i].refCount
  }

  /** Nobody but publisher `p` refers to slot `x`. */
  ghost predicate OnlyOwner(s: State, p: nat, x: nat) {
    && (forall q, k :: 0 <= q < |s.queues| && 0 <= k < |s.queues[q]| ==> MessageRefs(x)(s.queues[q][k]) == 0)
    && (forall c :: 0 <= c < |s.consumers| ==> ConsumerRefs(x)(s.consumers[c]) == 0)
    && (forall r :: 0 <= r < |s.publishers| && r != p ==> PublisherRefs(x)(s.publishers[r]) == 0)
  }

  /** With exact counts, whatever is referred to is in use. */
  lemma ReferredInUse(s: State)
    requires |s.pool| == BLOCKS && CountsExact(s)
    ensures forall q, k ::
              0 <= q < |s.queues| && 0 <= k < |s.queues[q]| && s.queues[q][k].FrameReady?
              && s.queues[q][k].slot < BLOCKS
              ==> s.pool[s.queues[q][k].slot].inUse
    ensures forall c :: 0 <= c < |s.consumers| && !s.consumers[c].Ready? && s.consumers[c].slot < BLOCKS
                        ==> s.pool[s.consumers[c].slot].inUse
    ensures forall r ::
              0 <= r < |s.publishers| && !s.publishers[r].Idle? && s.publishers[r].slot < BLOCKS
              && Owed(s.publishers[r]) > 0
              ==> s.pool[s.publishers[r].slot].inUse
  {
    forall i | 0 <= i < BLOCKS
      ensures forall q, k :: 0 <= q < |s.queues| && 0 <= k < |s.queues[q]|
                ==> MessageRefs(i)(s.queues[q][k]) <= Refs(s, i)
      ensures forall c :: 0 <= c < |s.consumers| ==> ConsumerRefs(i)(s.consumers[c]) <= Refs(s, i)
      ensures forall r :: 0 <= r < |s.publishers| ==> PublisherRefs(i)(s.publishers[r]) <= Refs(s, i)
    {
      ReferrersCount(s, i);
    }
    forall q, k | 0 <= q < |s.queues| && 0 <= k < |s.queues[q]| && s.queues[q][k].FrameReady?
                  && s.queues[q][k].slot < BLOCKS
      ensures s.pool[s.queues[q][k].slot].inUse
    {
      assert MessageRefs(s.queues[q][k].slot)(s.queues[q][k]) == 1;
    }
    forall c | 0 <= c < |s.consumers| && !s.consumers[c].Ready? && s.consumers[c].slot < BLOCKS
      ensures s.pool[s.consumers[c].slot].inUse
    {
      assert ConsumerRefs(s.consumers[c].slot)(s.consumers[c]) == 1;
    }
    forall r | 0 <= r < |s.publishers| && !s.publishers[r].Idle? && s.publishers[r].slot < BLOCKS
               && Owed(s.publishers[r]) > 0
      ensures s.pool[s.publishers[r].slot].inUse
    {
      assert PublisherRefs(s.publishers[r].slot)(s.publishers[r]) == Owed(s.publishers[r]);
    }
  }

  /** Claims survive a step: everyone's but the acting publisher's when slot `x` is touched by its
      only owner, and all of them when no slot is exempt (`x == BLOCKS`). */
  lemma ClaimsCarry(w: Wiring, s: State, t: State, p: nat, x: nat)
    requires Inv(w, s) && Sized(w, t) && CountsExact(t)
    requires |s.frames| <= |t.frames| && t.frames[..|s.frames|] == s.frames
    requires forall i :: 0 <= i < BLOCKS && i != x ==> StableAt(s, t, i)
    requires x < BLOCKS ==> OnlyOwner(s, p, x)
    ensures forall q, k ::
              0 <= q < |s.queues| && 0 <= k < |s.queues[q]| && s.queues[q][k].FrameReady?
              && t.pool[s.queues[q][k].slot].inUse
              ==> MessageOk(t, s.queues[q][k])
    ensures forall c :: 0 <= c < |s.consumers| && !s.consumers[c].Ready? && t.pool[s.consumers[c].slot].inUse
                        ==> ConsumerOk(t, s.consumers[c])
    ensures forall r ::
              0 <= r < |s.publishers| && r != p
              && (Owed(s.publishers[r]) > 0 ==> t.pool[s.publishers[r].slot].inUse)
              ==> PublisherOk(w, t, s.publishers[r])
  {
    forall q, k | 0 <= q < |s.queues| && 0 <= k < |s.queues[q]| && s.queues[q][k].FrameReady?
                  && t.pool[s.queues[q][k].slot].inUse
      ensures MessageOk(t, s.queues[q][k])
    {
      var m := s.queues[q][k];
      assert MessageOk(s, m);
      assert MessageRefs(m.slot)(m) == 1;
      assert StableAt(s, t, m.slot);
    }
    forall c | 0 <= c < |s.consumers| && !s.consumers[c].Ready? && t.pool[s.consumers[c].slot].inUse
      ensures ConsumerOk(t, s.consumers[c])
    {
      assert ConsumerOk(s, s.consumers[c]);
      assert ConsumerRefs(s.consumers[c].slot)(s.consumers[c]) == 1;
      assert StableAt(s, t, s.consumers[c].slot);
    }
    forall r | 0 <= r < |s.publishers| && r != p && (Owed(s.publishers[r]) > 0 ==> t.pool[s.publishers[r].slot].inUse)
      ensures PublisherOk(w, t, s.publishers[r])
    {
      assert PublisherOk(w, s, s.publishers[r]);
      if Owed(s.publishers[r]) > 0 {
        assert PublisherRefs(s.publishers[r].slot)(s.publishers[r]) == Owed(s.publishers[r]);
        assert StableAt(s, t, s.publishers[r].slot);
        assert BlockOk(t.pool[s.publishers[r].slot], Refs(t, s.publishers[r].slot));
      }
    }
  }

  /** A step of publisher `p` that leaves queues and consumers alone keeps the invariant if it keeps
      the counts exact, its own claim, and every slot but one that only it refers to. */
  lemma PublisherStep(w: Wiring, s: State, t: State, p: nat, next: Publisher, x: nat)
    requires WiringOk(w) && Inv(w, s) && Sized(w, t) && p < |s.publishers|
    requires t.queues == s.queues && t.consumers == s.consumers && t.publishers == s.publishers[p := next]
    requires |s.frames| <= |t.frames| && t.frames[..|s.frames|] == s.frames
    requires forall i :: 0 <= i < BLOCKS && i != x ==> StableAt(s, t, i)
    requires x < BLOCKS ==> OnlyOwner(s, p, x)
    requires CountsExact(t) && PublisherOk(w, t, next)
    ensures Inv(w, t)
  {
    ReferredInUse(t);
    ClaimsCarry(w, s, t, p, x);
    forall q, k | 0 <= q < |t.queues| && 0 <= k < |t.queues[q]| ensures MessageOk(t, t.queues[q][k]) {
      assert MessageOk(s, s.queues[q][k]);
    }
    forall c | 0 <= c < |t.consumers| ensures ConsumerOk(t, t.consumers[c]) {
      assert ConsumerOk(s, s.consumers[c]);
    }
    forall r | 0 <= r < |t.publishers| ensures PublisherOk(w, t, t.publishers[r]) {
      assert r != p ==> PublisherOk(w, s, s.publishers[r]);
    }
  }

  lemma StartKeepsInv(w: Wiring, s: State, p: nat, sequence: nat)
    requires WiringOk(w) && Inv(w, s) && Enabled(w, s, Start(p, sequence))
    ensures Inv(w, StartStep(s, p, sequence))
  {
    var t := StartStep(s, p, sequence);
    var x := FirstFree(s.pool);
    if x < BLOCKS {
      var next := Writing(x, |s.frames|, 0);
      assert BlockOk(s.pool[x], Refs(s, x));
      assert PublisherRefs(x)(s.publishers[p]) == 0;
      SoleOwner(s, p, x);
      forall i | 0 <= i < BLOCKS ensures BlockOk(t.pool[i], Refs(t, i)) {
        assert BlockOk(s.pool[i], Refs(s, i));
        RefsSetPublisher(s, p, next, i);
        assert Refs(t, i) == Refs(SetPublisher(s, p, next), i);
      }
      PublisherStep(w, s, t, p, next, x);
    }
  }

  /** Steps of a publisher that touch the pool only through its own pointer. */
  lemma OwnSlotStep(w: Wiring, s: State, t: State, p: nat, b: Block, next: Publisher)
    requires WiringOk(w) && Inv(w, s) && p < |s.publishers| && !s.publishers[p].Idle?
    requires var x := s.publishers[p].slot;
             x < BLOCKS && Owed(s.publishers[p]) > 0
             && t == SetPublisher(s.(pool := s.pool[x := b]), p, next) && (next.Idle? || next.slot == x)
             && Refs(s, x) >= Owed(s.publishers[p])
             && BlockOk(b, Refs(s, x) - Owed(s.publishers[p]) + Owed(next))
             && ((b.inUse ==> StableAt(s, t, x)) || Refs(s, x) == Owed(s.publishers[p]))
    requires PublisherOk(w, t, next)
    ensures Inv(w, t)
  {
    var x := s.publishers[p].slot;
    assert PublisherRefs(x)(s.publishers[p]) == Owed(s.publishers[p]);
    forall i | 0 <= i < BLOCKS ensures BlockOk(t.pool[i], Refs(t, i)) {
      assert BlockOk(s.pool[i], Refs(s, i));
      RefsSetPublisher(s, p, next, i);
      assert Refs(t, i) == Refs(SetPublisher(s, p, next), i);
    }
    if Refs(s, x) == Owed(s.publishers[p]) {
      SoleOwner(s, p, x);
      PublisherStep(w, s, t, p, next, x);
    } else {
      PublisherStep(w, s, t, p, next, BLOCKS);
    }
  }

  lemma QuietStep(w: Wiring, s: State, p: nat, next: Publisher)
    requires WiringOk(w) && Inv(w, s) && p < |s.publishers| && !s.publishers[p].Idle?
    requires (next.Idle? || next.slot == s.publishers[p].slot) && Owed(next) == Owed(s.publishers[p])
    requires PublisherOk(w, s, next)
    ensures Inv(w, SetPublisher(s, p, next))
  {
    var t := SetPublisher(s, p, next);
    forall i | 0 <= i < BLOCKS ensures BlockOk(t.pool[i], Refs(t, i)) {
      assert BlockOk(s.pool[i], Refs(s, i));
      RefsSetPublisher(s, p, next, i);
    }
    PublisherStep(w, s, t, p, next, BLOCKS);
  }

  /** A refused send turns into a reference the publisher still owes; an accepted one into a queued
      pointer. Either way no block's total changes. */
  lemma SendKeepsCounts(w: Wiring, s: State, p: nat)
    requires WiringOk(w) && Inv(w, s) && Enabled(w, s, Advance(p)) && s.publishers[p].Sending?
    requires s.publishers[p].i < |w.subs| && |s.queues[w.subs[s.publishers[p].i]]| < w.caps[w.subs[s.publishers[p].i]]
    ensures CountsExact(AdvanceStep(w, s, p))
  {
    var t := AdvanceStep(w, s, p);
    var me := s.publishers[p];
    assert PublisherOk(w, s, me);
    var next := Sending(me.slot, me.gen, me.i + 1, me.n, me.accepted + 1);
    var q := w.subs[me.i];
    var m := FrameReady(me.slot, me.gen);
    var mid := SetQueue(s, q, s.queues[q] + [m]);
    assert t == SetPublisher(mid, p, next);
    forall i | 0 <= i < BLOCKS ensures BlockOk(t.pool[i], Refs(t, i)) {
      assert BlockOk(s.pool[i], Refs(s, i));
      RefsSend(s, q, m, i);
      RefsSetPublisher(mid, p, next, i);
    }
  }

  lemma SendKeepsInv(w: Wiring, s: State, p: nat)
    requires WiringOk(w) && Inv(w, s) && Enabled(w, s, Advance(p)) && s.publishers[p].Sending?
    requires s.publishers[p].i < |w.subs| && |s.queues[w.subs[s.publishers[p].i]]| < w.caps[w.subs[s.publishers[p].i]]
    ensures Inv(w, AdvanceStep(w, s, p))
  {
    var t := AdvanceStep(w, s, p);
    var me := s.publishers[p];
    assert PublisherOk(w, s, me);
    var q := w.subs[me.i];
    var m := FrameReady(me.slot, me.gen);
    SendKeepsCounts(w, s, p);
    ReferredInUse(t);
    ClaimsCarry(w, s, t, p, BLOCKS);
    forall r, k | 0 <= r < |t.queues| && 0 <= k < |t.queues[r]| ensures MessageOk(t, t.queues[r][k]) {
      if r == q && k == |s.queues[q]| {
        assert t.queues[r][k] == m;
      } else {
        assert t.queues[r][k] == s.queues[r][k];
        assert MessageOk(s, s.queues[r][k]);
      }
    }
    forall c | 0 <= c < |t.consumers| ensures ConsumerOk(t, t.consumers[c]) {
      assert ConsumerOk(s, s.consumers[c]);
    }
    forall r | 0 <= r < |t.publishers| ensures PublisherOk(w, t, t.publishers[r]) {
      assert r != p ==> PublisherOk(w, s, s.publishers[r]);
    }
  }

  /** What the invariant says of the block a publisher still owes references to. */
  lemma OwedBlock(w: Wiring, s: State, p: nat)
    requires Inv(w, s) && p < |s.publishers| && !s.publishers[p].Idle? && Owed(s.publishers[p]) > 0
    ensures s.publishers[p].slot < BLOCKS && PublisherOk(w, s, s.publishers[p])
    ensures BlockOk(s.pool[s.publishers[p].slot], Refs(s, s.publishers[p].slot))
    ensures Owed(s.publishers[p]) <= Refs(s, s.publishers[p].slot)
  {
    var x := s.publishers[p].slot;
    assert PublisherOk(w, s, s.publishers[p]);
    assert BlockOk(s.pool[x], Refs(s, x));
    ReferrersCount(s, x);
    assert PublisherRefs(x)(s.publishers[p]) == Owed(s.publishers[p]);
  }

  lemma WriteKeepsInv(w: Wiring, s: State, p: nat)
    requires WiringOk(w) && Inv(w, s) && Enabled(w, s, Advance(p))
    requires s.publishers[p].Writing? && s.publishers[p].stage < 4
    ensures Inv(w, AdvanceStep(w, s, p))
  {
    OwedBlock(w, s, p);
    var t := AdvanceStep(w, s, p);
    var me := s.publishers[p];
    OwnSlotStep(w, s, t, p, t.pool[me.slot], Writing(me.slot, me.gen, me.stage + 1));
  }

  lemma AbandonKeepsInv(w: Wiring, s: State, p: nat)
    requires WiringOk(w) && Inv(w, s) && Enabled(w, s, Advance(p)) && s.publishers[p].Abandoning?
    ensures Inv(w, AdvanceStep(w, s, p))
  {
    OwedBlock(w, s, p);
    OwnSlotStep(w, s, AdvanceStep(w, s, p), p, ZERO_BLOCK, Idle);
  }

  lemma SetCountKeepsInv(w: Wiring, s: State, p: nat)
    requires WiringOk(w) && Inv(w, s) && Enabled(w, s, Advance(p)) && s.publishers[p].Counted?
    ensures Inv(w, AdvanceStep(w, s, p))
  {
    OwedBlock(w, s, p);
    var t := AdvanceStep(w, s, p);
    var me := s.publishers[p];
    OwnSlotStep(w, s, t, p, t.pool[me.slot], Sending(me.slot, me.gen, 0, me.n, 0));
  }

  lemma ReleaseKeepsInv(w: Wiring, s: State, p: nat)
    requires WiringOk(w) && Inv(w, s) && Enabled(w, s, Advance(p))
    requires s.publishers[p].Releasing? && s.publishers[p].k < s.publishers[p].n
    ensures Inv(w, AdvanceStep(w, s, p))
  {
    OwedBlock(w, s, p);
    var t := AdvanceStep(w, s, p);
    var me := s.publishers[p];
    OwnSlotStep(w, s, t, p, t.pool[me.slot], Releasing(me.slot, me.gen, me.k + 1, me.n));
  }

  lemma WritingKeepsInv(w: Wiring, s: State, p: nat)
    requires WiringOk(w) && Inv(w, s) && Enabled(w, s, Advance(p)) && s.publishers[p].Writing?
    ensures Inv(w, AdvanceStep(w, s, p))
  {
    var me := s.publishers[p];
    assert PublisherOk(w, s, me);
    if me.stage < 4 {
      WriteKeepsInv(w, s, p);
    } else if |w.subs| == 0 {
      QuietStep(w, s, p, Abandoning(me.slot, me.gen));
    } else {
      QuietStep(w, s, p, Counted(me.slot, me.gen, |w.subs|));
    }
  }

  lemma SendingKeepsInv(w: Wiring, s: State, p: nat)
    requires WiringOk(w) && Inv(w, s) && Enabled(w, s, Advance(p)) && s.publishers[p].Sending?
    ensures Inv(w, AdvanceStep(w, s, p))
  {
    var me := s.publishers[p];
    if me.i >= |w.subs| {
      SentAllKeepsInv(w, s, p);
    } else if |s.queues[w.subs[me.i]]| < w.caps[w.subs[me.i]] {
      SendKeepsInv(w, s, p);
    } else {
      RefusedKeepsInv(w, s, p);
    }
  }

  lemma RefusedKeepsInv(w: Wiring, s: State, p: nat)
    requires WiringOk(w) && Inv(w, s) && Enabled(w, s, Advance(p)) && s.publishers[p].Sending?
    requires s.publishers[p].i < |w.subs| && |s.queues[w.subs[s.publishers[p].i]]| >= w.caps[w.subs[s.publishers[p].i]]
    ensures Inv(w, AdvanceStep(w, s, p))
  {
    var me := s.publishers[p];
    assert PublisherOk(w, s, me);
    var next := Sending(me.slot, me.gen, me.i + 1, me.n, me.accepted);
    assert AdvanceStep(w, s, p) == SetPublisher(s, p, next);
    QuietStep(w, s, p, next);
  }

  lemma SentAllKeepsInv(w: Wiring, s: State, p: nat)
    requires WiringOk(w) && Inv(w, s) && Enabled(w, s, Advance(p)) && s.publishers[p].Sending?
    requires s.publishers[p].i >= |w.subs|
    ensures Inv(w, AdvanceStep(w, s, p))
  {
    var me := s.publishers[p];
    assert PublisherOk(w, s, me);
    QuietStep(w, s, p, Releasing(me.slot, me.gen, me.accepted, me.n));
  }

  lemma ReleasingKeepsInv(w: Wiring, s: State, p: nat)
    requires WiringOk(w) && Inv(w, s) && Enabled(w, s, Advance(p)) && s.publishers[p].Releasing?
    ensures Inv(w, AdvanceStep(w, s, p))
  {
    var me := s.publishers[p];
    assert PublisherOk(w, s, me);
    if me.k < me.n {
      ReleaseKeepsInv(w, s, p);
    } else {
      QuietStep(w, s, p, Printing(me.slot, me.gen));
    }
  }

  lemma AdvanceKeepsInv(w: Wiring, s: State, p: nat)
    requires WiringOk(w) && Inv(w, s) && Enabled(w, s, Advance(p))
    ensures Inv(w, AdvanceStep(w, s, p))
  {
    match s.publishers[p] {
      case Writing(_, _, _) => WritingKeepsInv(w, s, p);
      case Abandoning(_, _) => AbandonKeepsInv(w, s, p);
      case Counted(_, _, _) => SetCountKeepsInv(w, s, p);
      case Sending(_, _, _, _, _) => SendingKeepsInv(w, s, p);
      case Releasing(_, _, _, _) => ReleasingKeepsInv(w, s, p);
      case Printing(_, _) => QuietStep(w, s, p, Idle);
    }
  }

  /** A step of consumer `c`, possibly taking one message off queue `q`. */
  lemma ConsumerStep(w: Wiring, s: State, t: State, c: nat)
    requires WiringOk(w) && Inv(w, s) && Sized(w, t) && CountsExact(t) && c < |s.consumers| == |t.consumers|
    requires t.publishers == s.publishers && t.frames == s.frames
    requires forall q :: 0 <= q < |s.queues|
               ==> t.queues[q] == s.queues[q] || (s.queues[q] != [] && t.queues[q] == s.queues[q][1..])
    requires forall i :: 0 <= i < BLOCKS ==> StableAt(s, t, i)
    requires forall d :: 0 <= d < |s.consumers| && d != c ==> t.consumers[d] == s.consumers[d]
    requires ConsumerOk(t, t.consumers[c])
    ensures Inv(w, t)
  {
    ReferredInUse(t);
    ClaimsCarry(w, s, t, |s.publishers|, BLOCKS);
    forall r, k | 0 <= r < |t.queues| && 0 <= k < |t.queues[r]| ensures MessageOk(t, t.queues[r][k]) {
      var k' := if t.queues[r] == s.queues[r] then k else k + 1;
      assert t.queues[r][k] == s.queues[r][k'];
      assert MessageOk(s, s.queues[r][k']);
    }
    forall d | 0 <= d < |t.consumers| ensures ConsumerOk(t, t.consumers[d]) {
      assert d != c ==> ConsumerOk(s, s.consumers[d]);
    }
    forall r | 0 <= r < |t.publishers| ensures PublisherOk(w, t, t.publishers[r]) {
      assert PublisherOk(w, s, s.publishers[r]);
    }
  }

  lemma DequeueKeepsInv(w: Wiring, s: State, c: nat)
    requires WiringOk(w) && Inv(w, s) && Enabled(w, s, Dequeue(c))
    ensures Inv(w, Step(w, s, Dequeue(c)))
  {
    var t := Step(w, s, Dequeue(c));
    var q := w.serves[c];
    var rest := SetQueue(s, q, s.queues[q][1..]);
    var m := s.queues[q][0];
    assert MessageOk(s, m);
    forall i | 0 <= i < BLOCKS ensures BlockOk(t.pool[i], Refs(t, i)) {
      assert BlockOk(s.pool[i], Refs(s, i));
      RefsReceive(s, q, i);
      if m.FrameReady? {
        RefsSetConsumer(rest, c, t.consumers[c], i);
      }
    }
    ConsumerStep(w, s, t, c);
  }

  lemma ReadKeepsInv(w: Wiring, s: State, c: nat)
    requires WiringOk(w) && Inv(w, s) && Enabled(w, s, Read(c))
    ensures Inv(w, Step(w, s, Read(c)))
  {
    var t := Step(w, s, Read(c));
    assert ConsumerOk(s, s.consumers[c]);
    forall i | 0 <= i < BLOCKS ensures BlockOk(t.pool[i], Refs(t, i)) {
      assert BlockOk(s.pool[i], Refs(s, i));
      RefsSetConsumer(s, c, t.consumers[c], i);
    }
    ConsumerStep(w, s, t, c);
  }

  lemma FreeKeepsInv(w: Wiring, s: State, c: nat)
    requires WiringOk(w) && Inv(w, s) && Enabled(w, s, Free(c))
    ensures Inv(w, Step(w, s, Free(c)))
  {
    var t := Step(w, s, Free(c));
    var x := s.consumers[c].slot;
    assert ConsumerOk(s, s.consumers[c]);
    forall i | 0 <= i < BLOCKS ensures BlockOk(t.pool[i], Refs(t, i)) {
      assert BlockOk(s.pool[i], Refs(s, i));
      RefsSetConsumer(s, c, Ready, i);
      assert Refs(t, i) == Refs(SetConsumer(s, c, Ready), i);
    }
    ConsumerStep(w, s, t, c);
  }

  lemma OtherSendKeepsInv(w: Wiring, s: State, q: nat)
    requires WiringOk(w) && Inv(w, s) && Enabled(w, s, OtherSend(q))
    ensures Inv(w, Step(w, s, OtherSend(q)))
  {
    var t := Step(w, s, OtherSend(q));
    forall i | 0 <= i < BLOCKS ensures BlockOk(t.pool[i], Refs(t, i)) {
      assert BlockOk(s.pool[i], Refs(s, i));
      RefsSend(s, q, OtherTopic, i);
    }
    forall r, k | 0 <= r < |t.queues| && 0 <= k < |t.queues[r]| ensures MessageOk(t, t.queues[r][k]) {
      assert t.queues[r][k] == OtherTopic || (k < |s.queues[r]| && t.queues[r][k] == s.queues[r][k]);
      assert k < |s.queues[r]| ==> MessageOk(s, s.queues[r][k]);
    }
    forall d | 0 <= d < |t.consumers| ensures ConsumerOk(t, t.consumers[d]) {
      assert ConsumerOk(s, s.consumers[d]);
    }
    forall r | 0 <= r < |t.publishers| ensures PublisherOk(w, t, t.publishers[r]) {
      assert PublisherOk(w, s, s.publishers[r]);
    }
  }

  lemma StepKeepsInv(w: Wiring, s: State, a: Action)
    requires WiringOk(w) && Inv(w, s) && Enabled(w, s, a)
    ensures Inv(w, Step(w, s, a))
  {
    match a {
      case Start(p, sequence) => StartKeepsInv(w, s, p, sequence);
      case Advance(p) => AdvanceKeepsInv(w, s, p);
      case OtherSend(q) => OtherSendKeepsInv(w, s, q);
      case Dequeue(c) => DequeueKeepsInv(w, s, c);
      case Read(c) => ReadKeepsInv(w, s, c);
      case Free(c) => FreeKeepsInv(w, s, c);
    }
  }

  lemma InitInv(w: Wiring, publishers: nat)
    requires WiringOk(w)
    ensures Inv(w, Init(w, publishers))
  {
    var s := Init(w, publishers);
    forall i | 0 <= i < BLOCKS ensures BlockOk(s.pool[i], Refs(s, i)) {
      SumZero(s.queues, QueueRefs(i));
      SumZero(s.consumers, ConsumerRefs(i));
      SumZero(s.publishers, PublisherRefs(i));
    }
  }

  lemma {:induction false} RunKeepsInv(w: Wiring, s: State, acts: seq<Action>, t: State)
    requires WiringOk(w) && Inv(w, s) && Executes(w, s, acts, t)
    ensures Inv(w, t)
    decreases acts
  {
    if acts != [] {
      StepKeepsInv(w, s, acts[0]);
      RunKeepsInv(w, Step(w, s, acts[0]), acts[1..], t);
    }
  }

  lemma ReachableInv(w: Wiring, publishers: nat, t: State)
    requires WiringOk(w) && Reachable(w, publishers, t)
    ensures Inv(w, t)
  {
    InitInv(w, publishers);
    var acts :| Executes(w, Init(w, publishers), acts, t);
    RunKeepsInv(w, Init(w, publishers), acts, t);
  }

  /** Some call in the run published this frame. */
  ghost predicate PublishedBy(f: Payload, acts: seq<Action>) {
    exists k :: 0 <= k < |acts| && acts[k].Start? && f == FrameFor(acts[k].sequence)
  }

  lemma PublishedLater(f: Payload, acts: seq<Action>)
    requires acts != [] && PublishedBy(f, acts[1..])
    ensures PublishedBy(f, acts)
  {
    var k :| 0 <= k < |acts[1..]| && acts[1..][k].Start? && f == FrameFor(acts[1..][k].sequence);
    assert acts[k + 1] == acts[1..][k];
  }

  lemma StepFrames(w: Wiring, s: State, a: Action)
    requires WiringOk(w) && Sized(w, s) && Enabled(w, s, a)
    ensures var t := Step(w, s, a); t.frames == s.frames || (a.Start? && t.frames == s.frames + [FrameFor(a.sequence)])
  {
  }

  lemma {:induction false} FramesInRun(w: Wiring, s: State, acts: seq<Action>, t: State)
    requires WiringOk(w) && Executes(w, s, acts, t)
    ensures |s.frames| <= |t.frames| && t.frames[..|s.frames|] == s.frames
    ensures forall g :: |s.frames| <= g < |t.frames| ==> PublishedBy(t.frames[g], acts)
    decreases acts
  {
    if acts != [] {
      var next := Step(w, s, acts[0]);
      StepFrames(w, s, acts[0]);
      FramesInRun(w, next, acts[1..], t);
      forall g | |s.frames| <= g < |t.frames| ensures PublishedBy(t.frames[g], acts) {
        if g < |next.frames| {
          assert t.frames[..|next.frames|][g] == FrameFor(acts[0].sequence);
        } else {
          PublishedLater(t.frames[g], acts);
        }
      }
    }
  }

  // ---- Main results ----

  /** The fields a consumer has read are what publishFrameReady writes for the sequence number of one
      call made earlier in the run. */
  lemma ConsumerReadsAPublishedFrame(w: Wiring, publishers: nat, acts: seq<Action>, t: State, c: nat)
      returns (frame: Payload)
    requires WiringOk(w) && Executes(w, Init(w, publishers), acts, t)
    requires c < |t.consumers| && !t.consumers[c].Ready?
    ensures PublishedBy(frame, acts) && t.consumers[c].seen == Seen(frame, t.consumers[c].known)
    ensures var seen, known := t.consumers[c].seen, t.consumers[c].known;
            exists k :: 0 <= k < |acts| && acts[k].Start?
                        && (known > 0 ==> seen.sequence == acts[k].sequence)
                        && (known > 1 ==> seen.frameSize == 1920 * 1080 * 2)
                        && (known > 2 ==> seen.framePtr == if acts[k].sequence % 2 == 1 then DMA_FRAME_A
                                                           else DMA_FRAME_B)
  {
    assert Reachable(w, publishers, t);
    ConsumerSeesItsFrame(w, publishers, t, c);
    FramesInRun(w, Init(w, publishers), acts, t);
    frame := t.frames[t.consumers[c].gen];
  }

  /** In every reachable state each block's reference count is exactly the number of pointers to it
      that are queued, held by a consumer, or owed by a publisher; and an unreferenced block is wiped. */
  lemma RefCountIsOutstandingReferences(w: Wiring, publishers: nat, t: State, slot: nat)
    requires WiringOk(w) && Reachable(w, publishers, t) && slot < BLOCKS
    ensures |t.pool| == BLOCKS && t.pool[slot].refCount == Refs(t, slot) <= 255
    ensures t.pool[slot].inUse <==> Refs(t, slot) > 0
    ensures !t.pool[slot].inUse ==> t.pool[slot] == ZERO_BLOCK
  {
    ReachableInv(w, publishers, t);
    assert BlockOk(t.pool[slot], Refs(t, slot));
  }

  /** From taking a FRAME_READY pointer off a queue until its own Pool_Free, a consumer's block is in
      use, belongs to the allocation the pointer was published for, and holds that allocation's frame;
      the fields it has read are that frame's. No recycling of blocks can come in between. */
  lemma ConsumerSeesItsFrame(w: Wiring, publishers: nat, t: State, c: nat)
    requires WiringOk(w) && Reachable(w, publishers, t)
    requires c < |t.consumers| && !t.consumers[c].Ready?
    ensures |t.pool| == |t.genOf| == BLOCKS && Intact(t, t.consumers[c].slot, t.consumers[c].gen)
    ensures t.consumers[c].seen == Seen(t.frames[t.consumers[c].gen], t.consumers[c].known)
  {
    ReachableInv(w, publishers, t);
    assert ConsumerOk(t, t.consumers[c]);
  }

  /** A descriptor being filled in is visible to nobody but the publisher filling it in. */
  lemma UnpublishedIsPrivate(w: Wiring, publishers: nat, t: State, p: nat)
    requires WiringOk(w) && Reachable(w, publishers, t)
    requires p < |t.publishers| && (t.publishers[p].Writing? || t.publishers[p].Counted?)
    ensures OnlyOwner(t, p, t.publishers[p].slot)
  {
    ReachableInv(w, publishers, t);
    var x := t.publishers[p].slot;
    assert PublisherOk(w, t, t.publishers[p]);
    assert BlockOk(t.pool[x], Refs(t, x));
    assert PublisherRefs(x)(t.publishers[p]) == 1;
    SoleOwner(t, p, x);
  }

  /** Pool_Alloc fails exactly when every block has an outstanding reference. */
  lemma AllocFailsIffAllReferenced(w: Wiring, publishers: nat, t: State)
    requires WiringOk(w) && Reachable(w, publishers, t)
    ensures FirstFree(t.pool) == BLOCKS <==> forall slot :: 0 <= slot < BLOCKS ==> Refs(t, slot) > 0
  {
    ReachableInv(w, publishers, t);
    assert forall slot :: 0 <= slot < BLOCKS ==> BlockOk(t.pool[slot], Refs(t, slot));
  }
}
