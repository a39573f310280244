/**
  The life of a zero-copy frame descriptor, as a transition system.

  Any number of publishers run publishFrameReady (app_tasks.c) and any number of consumers run the
  FRAME_READY branch of the storage, cloud and logger tasks, each on a queue of its own. One step is
  one critical section, one queue operation or one access to a descriptor through its pointer, so every
  interleaving of those is a run. The queues also carry events of other topics, which come and go at any moment.

  `frames`, `genOf` and the `gen` components are history: allocation number g is the one whose frame
  is frames[g], and they record which allocation a pointer was handed out for. The program has only
  the slot.
*/
module FrameLifetime {
  import opened Sums
  import opened PayloadPool

  const FRAME_BYTES: nat := 1920 * 1080 * 2
  const DMA_FRAME_A: nat := 1
  const DMA_FRAME_B: nat := 2

  /** The subscriber slots of FRAME_READY, as queue numbers, the capacity of each queue, and the queue
      each consumer takes from. */
  datatype Wiring = Wiring(subs: seq<nat>, caps: seq<nat>, serves: seq<nat>)

  predicate WiringOk(w: Wiring) {
    && |w.subs| <= 255 && (forall k :: 0 <= k < |w.subs| ==> w.subs[k] < |w.caps|)
    && (forall c :: 0 <= c < |w.serves| ==> w.serves[c] < |w.caps|)
  }

  datatype Message = OtherTopic | FrameReady(slot: nat, gen: nat)

  datatype Publisher =
    | Idle
    | Writing(slot: nat, gen: nat, stage: nat)
    | Abandoning(slot: nat, gen: nat)
    | Counted(slot: nat, gen: nat, n: nat)
    | Sending(slot: nat, gen: nat, i: nat, n: nat, accepted: nat)
    | Releasing(slot: nat, gen: nat, k: nat, n: nat)
    | Printing(slot: nat, gen: nat)

  datatype Consumer =
    | Ready
    | Holding(slot: nat, gen: nat, known: nat, seen: Payload)

  datatype State = State(
    pool: seq<Block>,
    queues: seq<seq<Message>>,
    publishers: seq<Publisher>,
    consumers: seq<Consumer>,
    genOf: seq<nat>,
    frames: seq<Payload>)

  datatype Action =
    | Start(p: nat, sequence: nat)
    | Advance(p: nat)
    | OtherSend(q: nat)
    | Dequeue(c: nat)
    | Read(c: nat)
    | Free(c: nat)

  function Init(w: Wiring, publishers: nat): State {
    State(seq(BLOCKS, i => ZERO_BLOCK), seq(|w.caps|, q => []), seq(publishers, p => Idle),
          seq(|w.serves|, c => Ready), seq(BLOCKS, i => 0), [])
  }

  /** The descriptor contents publishFrameReady is about to write for a sequence number. */
  function FrameFor(sequence: nat): Payload {
    Payload(if sequence % 2 == 1 then DMA_FRAME_A else DMA_FRAME_B, FRAME_BYTES, sequence, 1)
  }

  /** A zeroed descriptor after the first `stage` of the four field assignments. */
  function Partly(f: Payload, stage: nat): Payload {
    Payload(if stage > 0 then f.framePtr else 0, if stage > 1 then f.frameSize else 0,
            if stage > 2 then f.sequence else 0, if stage > 3 then f.sourceId else 0)
  }

  /** What a consumer knows of a descriptor after `known` of its field accesses. It prints the sequence
      number and the size, and the logger the pointer too. */
  function Seen(f: Payload, known: nat): Payload {
    Payload(if known > 2 then f.framePtr else 0, if known > 1 then f.frameSize else 0,
            if known > 0 then f.sequence else 0, 0)
  }

  predicate Sized(w: Wiring, s: State) {
    |s.pool| == BLOCKS && |s.genOf| == BLOCKS && |s.queues| == |w.caps| && |s.consumers| == |w.serves|
  }

  predicate Enabled(w: Wiring, s: State, a: Action)
    requires WiringOk(w) && Sized(w, s)
  {
    match a
    case Start(p, _) => p < |s.publishers| && s.publishers[p].Idle?
    case Advance(p) => p < |s.publishers| && !s.publishers[p].Idle?
                       && s.publishers[p].slot < BLOCKS
                       && (s.publishers[p].Writing? ==> s.publishers[p].gen < |s.frames|)
    case OtherSend(q) => q < |s.queues| && |s.queues[q]| < w.caps[q]
    case Dequeue(c) => c < |s.consumers| && s.consumers[c].Ready? && s.queues[w.serves[c]] != []
    case Read(c) => c < |s.consumers| && s.consumers[c].Holding? && s.consumers[c].slot < BLOCKS
                    && s.consumers[c].known < 3
    case Free(c) => c < |s.consumers| && s.consumers[c].Holding? && s.consumers[c].known >= 2
  }

  function SetPublisher(s: State, p: nat, next: Publisher): State
    requires p < |s.publishers|
  {
    s.(publishers := s.publishers[p := next])
  }

  function SetConsumer(s: State, c: nat, next: Consumer): State
    requires c < |s.consumers|
  {
    s.(consumers := s.consumers[c := next])
  }

  function SetQueue(s: State, q: nat, next: seq<Message>): State
    requires q < |s.queues|
  {
    s.(queues := s.queues[q := next])
  }

  function StartStep(s: State, p: nat, sequence: nat): State
    requires |s.pool| == BLOCKS && |s.genOf| == BLOCKS && p < |s.publishers|
  {
    var slot := FirstFree(s.pool);
    if slot == BLOCKS then s
    else SetPublisher(s.(pool := AfterAlloc(s.pool), genOf := s.genOf[slot := |s.frames|],
                         frames := s.frames + [FrameFor(sequence)]),
                      p, Writing(slot, |s.frames|, 0))
  }

  /** The next statement of publisher `p`, in the order of publishFrameReady. */
  function AdvanceStep(w: Wiring, s: State, p: nat): State
    requires WiringOk(w) && Sized(w, s) && Enabled(w, s, Advance(p))
  {
    match s.publishers[p]
    case Idle => s
    case Writing(slot, gen, stage) =>
      if stage < 4 then
        var written := s.pool[slot].(payload := WriteField(s.pool[slot].payload, s.frames[gen], stage));
        SetPublisher(s.(pool := s.pool[slot := written]), p, Writing(slot, gen, stage + 1))
      else if |w.subs| == 0 then SetPublisher(s, p, Abandoning(slot, gen))
      else SetPublisher(s, p, Counted(slot, gen, |w.subs|))
    case Abandoning(slot, gen) =>
      SetPublisher(s.(pool := AfterFree(s.pool, Descriptor(slot))), p, Idle)
    case Counted(slot, gen, n) =>
      SetPublisher(s.(pool := AfterSetRefCount(s.pool, Descriptor(slot), n)), p, Sending(slot, gen, 0, n, 0))
    case Sending(slot, gen, i, n, accepted) =>
      if i >= |w.subs| then SetPublisher(s, p, Releasing(slot, gen, accepted, n))
      else
        var q := w.subs[i];
        if |s.queues[q]| < w.caps[q]
        then SetPublisher(SetQueue(s, q, s.queues[q] + [FrameReady(slot, gen)]), p,
                          Sending(slot, gen, i + 1, n, accepted + 1))
        else SetPublisher(s, p, Sending(slot, gen, i + 1, n, accepted))
    case Releasing(slot, gen, k, n) =>
      if k < n then SetPublisher(s.(pool := AfterFree(s.pool, Descriptor(slot))), p, Releasing(slot, gen, k + 1, n))
      else SetPublisher(s, p, Printing(slot, gen))
    case Printing(slot, gen) => SetPublisher(s, p, Idle)
  }

  function WriteField(d: Payload, f: Payload, stage: nat): Payload {
    match stage
    case 0 => d.(framePtr := f.framePtr)
    case 1 => d.(frameSize := f.frameSize)
    case 2 => d.(sequence := f.sequence)
    case _ => d.(sourceId := f.sourceId)
  }

  function ReadField(seen: Payload, d: Payload, known: nat): Payload {
    match known
    case 0 => seen.(sequence := d.sequence)
    case 1 => seen.(frameSize := d.frameSize)
    case _ => seen.(framePtr := d.framePtr)
  }

  function Step(w: Wiring, s: State, a: Action): State
    requires WiringOk(w) && Sized(w, s) && Enabled(w, s, a)
  {
    match a
    case Start(p, sequence) => StartStep(s, p, sequence)
    case Advance(p) => AdvanceStep(w, s, p)
    case OtherSend(q) => SetQueue(s, q, s.queues[q] + [OtherTopic])
    case Dequeue(c) =>
      var q := w.serves[c];
      var rest := SetQueue(s, q, s.queues[q][1..]);
      (match s.queues[q][0]
       case OtherTopic => rest
       case FrameReady(slot, gen) => SetConsumer(rest, c, Holding(slot, gen, 0, ZERO_PAYLOAD)))
    case Read(c) =>
      var me := s.consumers[c];
      SetConsumer(s, c, me.(known := me.known + 1, seen := ReadField(me.seen, s.pool[me.slot].payload, me.known)))
    case Free(c) =>
      SetConsumer(s.(pool := AfterFree(s.pool, Descriptor(s.consumers[c].slot))), c, Ready)
  }

  /** `t` is reached from `s` by performing `acts` in order. */
  ghost predicate Executes(w: Wiring, s: State, acts: seq<Action>, t: State)
    requires WiringOk(w)
    decreases acts
  {
    if acts == [] then s == t
    else Sized(w, s) && Enabled(w, s, acts[0]) && Executes(w, Step(w, s, acts[0]), acts[1..], t)
  }

  ghost predicate Reaches(w: Wiring, s: State, t: State)
    requires WiringOk(w)
  {
    exists acts: seq<Action> :: Executes(w, s, acts, t)
  }

  /** `t` occurs in some run of the system. */
  ghost predicate Reachable(w: Wiring, publishers: nat, t: State)
    requires WiringOk(w)
  {
    Reaches(w, Init(w, publishers), t)
  }

  lemma {:induction false} ExecutesThen(w: Wiring, s: State, acts: seq<Action>, t: State, a: Action)
    requires WiringOk(w) && Executes(w, s, acts, t) && Sized(w, t) && Enabled(w, t, a)
    ensures Executes(w, s, acts + [a], Step(w, t, a))
    decreases acts
  {
    if acts == [] {
      assert acts + [a] == [a];
      assert Executes(w, Step(w, t, a), [], Step(w, t, a));
    } else {
      assert (acts + [a])[1..] == acts[1..] + [a];
      ExecutesThen(w, Step(w, s, acts[0]), acts[1..], t, a);
    }
  }

  lemma ReachesThen(w: Wiring, s: State, t: State, a: Action)
    requires WiringOk(w) && Reaches(w, s, t) && Sized(w, t) && Enabled(w, t, a)
    ensures Reaches(w, s, Step(w, t, a))
  {
    var acts :| Executes(w, s, acts, t);
    ExecutesThen(w, s, acts, t, a);
  }

  // ---- References ----

  function MessageRefs(slot: nat): Message -> nat {
    (m: Message) => if m.FrameReady? && m.slot == slot then 1 else 0
  }

  function QueueRefs(slot: nat): seq<Message> -> nat {
    (q: seq<Message>) => Sum(q, MessageRefs(slot))
  }

  function ConsumerRefs(slot: nat): Consumer -> nat {
    (c: Consumer) => if !c.Ready? && c.slot == slot then 1 else 0
  }

  /** References the publisher still owes: its first one, then the sends not yet attempted plus
      the refused sends not yet freed. */
  function Owed(p: Publisher): nat {
    match p
    case Idle => 0
    case Writing(_, _, _) => 1
    case Abandoning(_, _) => 1
    case Counted(_, _, _) => 1
    case Sending(_, _, _, n, accepted) => if accepted < n then n - accepted else 0
    case Releasing(_, _, k, n) => if k < n then n - k else 0
    case Printing(_, _) => 0
  }

  function PublisherRefs(slot: nat): Publisher -> nat {
    (p: Publisher) => if !p.Idle? && p.slot == slot then Owed(p) else 0
  }

  function Refs(s: State, slot: nat): nat {
    Sum(s.queues, QueueRefs(slot)) + Sum(s.consumers, ConsumerRefs(slot)) + Sum(s.publishers, PublisherRefs(slot))
  }

  // ---- The invariant ----

  predicate BlockOk(b: Block, refs: nat) {
    b.refCount == refs && b.refCount < 256 && b.inUse == (refs > 0) && (!b.inUse ==> b == ZERO_BLOCK)
  }

  /** The pointer to `slot` handed out for allocation `gen` still names that allocation. */
  predicate Live(s: State, slot: nat, gen: nat)
    requires |s.pool| == BLOCKS && |s.genOf| == BLOCKS
  {
    slot < BLOCKS && gen < |s.frames| && s.pool[slot].inUse && s.genOf[slot] == gen
  }

  /** ... and its descriptor holds exactly what the publisher wrote for that allocation. */
  predicate Intact(s: State, slot: nat, gen: nat)
    requires |s.pool| == BLOCKS && |s.genOf| == BLOCKS
  {
    Live(s, slot, gen) && s.pool[slot].payload == s.frames[gen]
  }

  predicate PublisherOk(w: Wiring, s: State, p: Publisher)
    requires |s.pool| == BLOCKS && |s.genOf| == BLOCKS
  {
    match p
    case Idle => true
    case Writing(slot, gen, stage) =>
      Live(s, slot, gen) && s.pool[slot].refCount == 1 && stage <= 4
      && s.pool[slot].payload == Partly(s.frames[gen], stage)
    case Abandoning(slot, gen) => Intact(s, slot, gen) && s.pool[slot].refCount == 1
    case Counted(slot, gen, n) => Intact(s, slot, gen) && s.pool[slot].refCount == 1 && n == |w.subs| > 0
    case Sending(slot, gen, i, n, accepted) =>
      slot < BLOCKS && accepted <= i <= n == |w.subs| && (accepted < n ==> Intact(s, slot, gen))
    case Releasing(slot, gen, k, n) => slot < BLOCKS && k <= n && (k < n ==> Intact(s, slot, gen))
    case Printing(slot, _) => slot < BLOCKS
  }

  predicate ConsumerOk(s: State, c: Consumer)
    requires |s.pool| == BLOCKS && |s.genOf| == BLOCKS
  {
    match c
    case Ready => true
    case Holding(slot, gen, known, seen) => Intact(s, slot, gen) && known <= 3 && seen == Seen(s.frames[gen], known)
  }

  predicate MessageOk(s: State, m: Message)
    requires |s.pool| == BLOCKS && |s.genOf| == BLOCKS
  {
    m.FrameReady? ==> Intact(s, m.slot, m.gen)
  }

  ghost predicate CountsExact(s: State)
    requires |s.pool| == BLOCKS
  {
    forall i :: 0 <= i < BLOCKS ==> BlockOk(s.pool[i], Refs(s, i))
  }

  ghost predicate ClaimsHold(w: Wiring, s: State)
    requires |s.pool| == BLOCKS && |s.genOf| == BLOCKS
  {
    && (forall q, k :: 0 <= q < |s.queues| && 0 <= k < |s.queues[q]| ==> MessageOk(s, s.queues[q][k]))
    && (forall c :: 0 <= c < |s.consumers| ==> ConsumerOk(s, s.consumers[c]))
    && (forall p :: 0 <= p < |s.publishers| ==> PublisherOk(w, s, s.publishers[p]))
  }

  ghost predicate Inv(w: Wiring, s: State) {
    && Sized(w, s)
    && (forall q :: 0 <= q < |s.queues| ==> |s.queues[q]| <= w.caps[q])
    && CountsExact(s)
    && ClaimsHold(w, s)
  }

  // ---- How references move ----

  lemma RefsSetPublisher(s: State, p: nat, next: Publisher, slot: nat)
    requires p < |s.publishers|
    ensures Refs(SetPublisher(s, p, next), slot) + PublisherRefs(slot)(s.publishers[p])
         == Refs(s, slot) + PublisherRefs(slot)(next)
  {
    SumUpdate(s.publishers, PublisherRefs(slot), p, next);
  }

  lemma RefsSetConsumer(s: State, c: nat, next: Consumer, slot: nat)
    requires c < |s.consumers|
    ensures Refs(SetConsumer(s, c, next), slot) + ConsumerRefs(slot)(s.consumers[c])
         == Refs(s, slot) + ConsumerRefs(slot)(next)
  {
    SumUpdate(s.consumers, ConsumerRefs(slot), c, next);
  }

  lemma RefsSend(s: State, q: nat, m: Message, slot: nat)
    requires q < |s.queues|
    ensures Refs(SetQueue(s, q, s.queues[q] + [m]), slot) == Refs(s, slot) + MessageRefs(slot)(m)
  {
    SumUpdate(s.queues, QueueRefs(slot), q, s.queues[q] + [m]);
    SumAppend(s.queues[q], MessageRefs(slot), m);
  }

  lemma RefsReceive(s: State, q: nat, slot: nat)
    requires q < |s.queues| && s.queues[q] != []
    ensures Refs(SetQueue(s, q, s.queues[q][1..]), slot) + MessageRefs(slot)(s.queues[q][0]) == Refs(s, slot)
  {
    SumUpdate(s.queues, QueueRefs(slot), q, s.queues[q][1..]);
  }

  lemma MessageCounts(s: State, q: nat, k: nat, slot: nat)
    requires q < |s.queues| && k < |s.queues[q]|
    ensures MessageRefs(slot)(s.queues[q][k]) <= Sum(s.queues, QueueRefs(slot))
  {
    SumAt(s.queues[q], MessageRefs(slot), k);
    SumAt(s.queues, QueueRefs(slot), q);
  }

  /** Nobody but publisher `p` refers to a slot whose every reference `p` owes. */
  lemma SoleOwner(s: State, p: nat, slot: nat)
    requires p < |s.publishers| && PublisherRefs(slot)(s.publishers[p]) == Refs(s, slot)
    ensures forall q, k :: 0 <= q < |s.queues| && 0 <= k < |s.queues[q]| ==> MessageRefs(slot)(s.queues[q][k]) == 0
    ensures forall c :: 0 <= c < |s.consumers| ==> ConsumerRefs(slot)(s.consumers[c]) == 0
    ensures forall r :: 0 <= r < |s.publishers| && r != p ==> PublisherRefs(slot)(s.publishers[r]) == 0
  {
    SumAt(s.publishers, PublisherRefs(slot), p);
    forall q, k | 0 <= q < |s.queues| && 0 <= k < |s.queues[q]| ensures MessageRefs(slot)(s.queues[q][k]) == 0 {
      MessageCounts(s, q, k, slot);
    }
    forall c | 0 <= c < |s.consumers| ensures ConsumerRefs(slot)(s.consumers[c]) == 0 {
      SumAt(s.consumers, ConsumerRefs(slot), c);
    }
    forall r | 0 <= r < |s.publishers| && r != p ensures PublisherRefs(slot)(s.publishers[r]) == 0 {
      if r < p { SumAtTwo(s.publishers, PublisherRefs(slot), r, p); }
      else { SumAtTwo(s.publishers, PublisherRefs(slot), p, r); }
    }
  }

  /** Every referrer is counted, so in a state with exact counts the block it refers to is in use. */
  lemma ReferrersCount(s: State, slot: nat)
    ensures forall q, k :: 0 <= q < |s.queues| && 0 <= k < |s.queues[q]|
              ==> MessageRefs(slot)(s.queues[q][k]) <= Refs(s, slot)
    ensures forall c :: 0 <= c < |s.consumers| ==> ConsumerRefs(slot)(s.consumers[c]) <= Refs(s, slot)
    ensures forall r :: 0 <= r < |s.publishers| ==> PublisherRefs(slot)(s.publishers[r]) <= Refs(s, slot)
  {
    forall q, k | 0 <= q < |s.queues| && 0 <= k < |s.queues[q]|
      ensures MessageRefs(slot)(s.queues[q][k]) <= Refs(s, slot)
    {
      MessageCounts(s, q, k, slot);
    }
    forall c | 0 <= c < |s.consumers| ensures ConsumerRefs(slot)(s.consumers[c]) <= Refs(s, slot) {
      SumAt(s.consumers, ConsumerRefs(slot), c);
    }
    forall r | 0 <= r < |s.publishers| ensures PublisherRefs(slot)(s.publishers[r]) <= Refs(s, slot) {
      SumAt(s.publishers, PublisherRefs(slot), r);
    }
  }
}
