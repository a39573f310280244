/**
  The fault manager (fault_manager.c): debouncing, the device state, and the ring of recent faults. Tick
  counts wrap at a modulus that stays symbolic; the lemmas compare them with true time.
*/
module FaultManager {
  import opened Common
  import opened EventBus
  import opened Ticks

  const DEPTH: nat := 8
  const DEBOUNCE_TICKS: nat := 2000

  datatype Severity = Info | Warning | Error | Critical

  datatype DeviceState = Booting | Normal | Degraded | Fault | Recovery

  datatype Record = Record(timestamp: nat, topic: nat, code: nat, severity: Severity)

  const NO_RECORD := Record(0, 0, 0, Info)

  function Classify(topic: nat, code: nat): Severity {
    if topic == TOPIC_SYSTEM_FAULT then Critical
    else if topic == TOPIC_SECURITY_EVENT then Error
    else if topic == TOPIC_POWER_EVENT || topic == TOPIC_THRESHOLD_CROSSED then (if code != 0 then Warning else Info)
    else if topic == TOPIC_NETWORK_STATUS then (if code != 0 then Info else Warning)
    else Info
  }

  function StateFor(s: Severity): DeviceState {
    match s
    case Critical => Fault
    case Error => Fault
    case Warning => Degraded
    case Info => Normal
  }

  // ---- The manager ----

  /** The manager's variables, as one value. */
  datatype Memory = Memory(history: seq<Record>, next: nat, state: DeviceState, lastTopic: nat, lastCode: nat,
                           lastTick: nat)

  function AtStart(): Memory {
    Memory(seq(DEPTH, i => NO_RECORD), 0, Booting, TOPIC_MAX, 0, 0)
  }

  predicate Debounced(m: Memory, topic: nat, code: nat, now: nat, modulus: nat)
    requires modulus > 0
  {
    topic == m.lastTopic && code == m.lastCode && Elapsed(now, m.lastTick, modulus) < DEBOUNCE_TICKS
  }

  function Handled(m: Memory, topic: nat, code: nat, now: nat, modulus: nat): Memory
    requires m.next < |m.history| == DEPTH && modulus > 0
  {
    var severity := Classify(topic, code);
    if Debounced(m, topic, code, now, modulus) then m
    else if severity.Info? then Memory(m.history, m.next, Normal, topic, code, now)
    else Memory(m.history[m.next := Record(now, topic, code, severity)], (m.next + 1) % DEPTH,
                StateFor(severity), topic, code, now)
  }

  /** The step from `m` to `after` sets the state and puts the record into the next slot of the ring. */
  predicate Recorded(m: Memory, after: Memory, state: DeviceState, r: Record)
    requires m.next < |m.history|
  {
    after.state == state && after.history == m.history[m.next := r] && after.next == (m.next + 1) % 8
  }

  /** What an accepted event with this topic and first payload byte does, case by case. */
  predicate Reacts(m: Memory, after: Memory, topic: nat, code: nat, now: nat)
    requires m.next < |m.history|
  {
    && after.lastTopic == topic && after.lastCode == code && after.lastTick == now
    && if topic == TOPIC_SYSTEM_FAULT then Recorded(m, after, Fault, Record(now, topic, code, Critical))
       else if topic == TOPIC_SECURITY_EVENT then Recorded(m, after, Fault, Record(now, topic, code, Error))
       else if || (topic == TOPIC_POWER_EVENT && code != 0)
               || (topic == TOPIC_THRESHOLD_CROSSED && code != 0)
               || (topic == TOPIC_NETWORK_STATUS && code == 0)
       then Recorded(m, after, Degraded, Record(now, topic, code, Warning))
       else after.state == Normal && after.history == m.history && after.next == m.next
  }

  class Manager {
    const modulus: nat
    const history: array<Record>
    var next: nat
    var state: DeviceState
    var lastTopic: nat
    var lastCode: nat
    var lastTick: nat

    ghost predicate Valid()
      reads this
    {
      next < history.Length == DEPTH && modulus > 0
    }

    ghost function Contents(): Memory
      reads this, history
    {
      Memory(history[..], next, state, lastTopic, lastCode, lastTick)
    }

    constructor (modulus: nat)
      requires modulus > 0
      ensures Valid() && this.modulus == modulus && fresh(history) && Contents() == AtStart()
    {
      this.modulus := modulus;
      history := new Record[DEPTH](i => NO_RECORD);
      next := 0;
      state := Booting;
      lastTopic := TOPIC_MAX;
      lastCode := 0;
      lastTick := 0;
    }

    method HandleEvent(e: Event, now: nat) returns (accepted: bool, outState: DeviceState)
      requires Valid()
      modifies this, history
      ensures Valid()
      ensures Contents() == Handled(old(Contents()), e.topic, e.p0, now, modulus)
      ensures accepted == !Debounced(old(Contents()), e.topic, e.p0, now, modulus)
      ensures outState == Contents().state
      ensures if accepted then Reacts(old(Contents()), Contents(), e.topic, e.p0, now)
              else Contents() == old(Contents())
    {
      var severity := Classify(e.topic, e.p0);
      accepted := true;
      if e.topic == lastTopic && e.p0 == lastCode && Elapsed(now, lastTick, modulus) < DEBOUNCE_TICKS {
        accepted := false;
      } else {
        lastTopic := e.topic;
        lastCode := e.p0;
        lastTick := now;
        state := StateFor(severity);
        if severity != Info {
          history[next] := Record(now, e.topic, e.p0, severity);
          next := (next + 1) % DEPTH;
        }
      }
      outState := state;
    }

    method GetState() returns (s: DeviceState)
      ensures s == Contents().state
    {
      s := state;
    }

    /** Slots in ring order, the unused ones as zero records. */
    method GetHistory(out: array?<Record>, maxRecords: nat) returns (count: nat)
      requires Valid() && out != history
      requires out != null ==> out.Length >= maxRecords || out.Length >= DEPTH
      modifies out
      ensures Contents() == old(Contents())
      ensures count == if out == null then 0 else if maxRecords < DEPTH then maxRecords else DEPTH
      ensures out != null ==> out[..] == Contents().history[..count] + old(out[..])[count..]
    {
      count := if maxRecords < DEPTH then maxRecords else DEPTH;
      if out == null {
        return 0;
      }
      var i := 0;
      while i < count
        invariant i <= count
        invariant forall j :: 0 <= j < i ==> out[j] == history[j]
        invariant forall j :: i <= j < out.Length ==> out[j] == old(out[j])
      {
        out[i] := history[i];
        i := i + 1;
      }
    }
  }

  // ---- What it makes of a whole history of arrivals ----

  /** An event reaching the manager at a true time, of which the tick count is the residue. */
  datatype Arrival = Arrival(topic: nat, code: nat, time: nat)

  function AfterAll(arrivals: seq<Arrival>, modulus: nat): (m: Memory)
    requires modulus > 0
    ensures m.next < |m.history| == DEPTH
  {
    if arrivals == [] then AtStart()
    else
      var a := arrivals[|arrivals| - 1];
      Handled(AfterAll(arrivals[..|arrivals| - 1], modulus), a.topic, a.code, a.time % modulus, modulus)
  }

  /** What the manager compares an arrival with: the last one it accepted. */
  function LastOf(accepted: seq<Arrival>): Arrival {
    if accepted == [] then Arrival(TOPIC_MAX, 0, 0) else accepted[|accepted| - 1]
  }

  predicate Repeats(last: Arrival, a: Arrival) {
    a.topic == last.topic && a.code == last.code
  }

  predicate Suppressed(last: Arrival, a: Arrival, modulus: nat)
    requires modulus > 0
  {
    Repeats(last, a) && Elapsed(a.time, last.time, modulus) < DEBOUNCE_TICKS
  }

  function Accepted(arrivals: seq<Arrival>, modulus: nat): seq<Arrival>
    requires modulus > 0
  {
    if arrivals == [] then []
    else
      var before, a := Accepted(arrivals[..|arrivals| - 1], modulus), arrivals[|arrivals| - 1];
      if Suppressed(LastOf(before), a, modulus) then before else before + [a]
  }

  /** The faults among accepted arrivals, oldest first. */
  function Faults(accepted: seq<Arrival>, modulus: nat): seq<Record>
    requires modulus > 0
  {
    if accepted == [] then []
    else
      var before, a := Faults(accepted[..|accepted| - 1], modulus), accepted[|accepted| - 1];
      var severity := Classify(a.topic, a.code);
      if severity.Info? then before else before + [Record(a.time % modulus, a.topic, a.code, severity)]
  }

  /** Slot j holds the newest fault whose number is j modulo 8, or nothing if there is none. */
  predicate RingHolds(history: seq<Record>, faults: seq<Record>)
    requires |history| == DEPTH
  {
    && (forall i :: 0 <= i < |faults| && |faults| - DEPTH <= i ==> history[i % DEPTH] == faults[i])
    && (forall j :: |faults| <= j < DEPTH ==> history[j] == NO_RECORD)
  }

  /** `m` stands for the accepted arrivals: the state and the debounce memory are those of the last one
      (booting before the first), and the ring holds the last eight faults among them. */
  predicate Represents(m: Memory, accepted: seq<Arrival>, modulus: nat)
    requires modulus > 0 && |m.history| == DEPTH
  {
    var last, faults := LastOf(accepted), Faults(accepted, modulus);
    && m.state == (if accepted == [] then Booting else StateFor(Classify(last.topic, last.code)))
    && m.lastTopic == last.topic && m.lastCode == last.code && m.lastTick == last.time % modulus
    && m.next == |faults| % DEPTH && RingHolds(m.history, faults)
  }

  lemma NextSlot(n: nat, i: nat)
    requires n < i + DEPTH && i < n
    ensures i % DEPTH != n % DEPTH
  {
  }

  lemma RingTakes(history: seq<Record>, faults: seq<Record>, r: Record)
    requires |history| == DEPTH && RingHolds(history, faults)
    ensures RingHolds(history[|faults| % DEPTH := r], faults + [r])
  {
    var after := history[|faults| % DEPTH := r];
    forall i | 0 <= i < |faults| + 1 && |faults| + 1 - DEPTH <= i ensures after[i % DEPTH] == (faults + [r])[i] {
      if i < |faults| {
        NextSlot(|faults|, i);
      }
    }
  }

  lemma AcceptingRepresents(m: Memory, before: seq<Arrival>, a: Arrival, modulus: nat)
    requires modulus > 0 && |m.history| == DEPTH && m.next < DEPTH && Represents(m, before, modulus)
    requires !Debounced(m, a.topic, a.code, a.time % modulus, modulus)
    ensures Represents(Handled(m, a.topic, a.code, a.time % modulus, modulus), before + [a], modulus)
  {
    assert (before + [a])[..|before|] == before;
    var severity := Classify(a.topic, a.code);
    if !severity.Info? {
      RingTakes(m.history, Faults(before, modulus), Record(a.time % modulus, a.topic, a.code, severity));
    }
  }

  lemma ArrivalRepresents(m: Memory, before: seq<Arrival>, a: Arrival, modulus: nat)
    requires modulus > 0 && m.next < |m.history| == DEPTH && Represents(m, before, modulus)
    ensures var after := if Suppressed(LastOf(before), a, modulus) then before else before + [a];
            Represents(Handled(m, a.topic, a.code, a.time % modulus, modulus), after, modulus)
  {
    ElapsedIsDistance(a.time, LastOf(before).time, modulus);
    assert Debounced(m, a.topic, a.code, a.time % modulus, modulus) == Suppressed(LastOf(before), a, modulus);
    if !Suppressed(LastOf(before), a, modulus) {
      AcceptingRepresents(m, before, a, modulus);
    }
  }

  /** The manager refines a list: after any arrivals at all, its variables represent the accepted ones. */
  lemma {:induction false} RefinesList(arrivals: seq<Arrival>, modulus: nat)
    requires modulus > 0
    ensures Represents(AfterAll(arrivals, modulus), Accepted(arrivals, modulus), modulus)
  {
    if arrivals != [] {
      var init, a := arrivals[..|arrivals| - 1], arrivals[|arrivals| - 1];
      RefinesList(init, modulus);
      ArrivalRepresents(AfterAll(init, modulus), Accepted(init, modulus), a, modulus);
    }
  }

  lemma SlotFrom(n: nat, k: nat)
    requires n >= DEPTH && k < DEPTH
    ensures (n - DEPTH + k) % DEPTH == if n % DEPTH + k < DEPTH then n % DEPTH + k else n % DEPTH + k - DEPTH
  {
  }

  lemma FullRingInOrder(history: seq<Record>, next: nat, faults: seq<Record>)
    requires |history| == DEPTH <= |faults| && RingHolds(history, faults) && next == |faults| % DEPTH
    ensures history[next..] + history[..next] == faults[|faults| - DEPTH..]
  {
    var n, ordered := |faults|, history[next..] + history[..next];
    forall k | 0 <= k < DEPTH ensures ordered[k] == faults[n - DEPTH..][k] {
      SlotFrom(n, k);
      assert history[(n - DEPTH + k) % DEPTH] == faults[n - DEPTH + k];
    }
  }

  lemma FillingRingInOrder(history: seq<Record>, faults: seq<Record>)
    requires |history| == DEPTH > |faults| && RingHolds(history, faults)
    ensures history == faults + seq(DEPTH - |faults|, i => NO_RECORD)
  {
    forall i | 0 <= i < |faults| ensures history[i] == faults[i] {
      assert i % DEPTH == i;
    }
  }

  /** Read from the write position on, the ring is exactly the last eight faults, oldest first; before
      there are eight, its first slots are all the faults there were and the others are zero. */
  lemma RingInOrder(arrivals: seq<Arrival>, modulus: nat)
    requires modulus > 0
    ensures var m, faults := AfterAll(arrivals, modulus), Faults(Accepted(arrivals, modulus), modulus);
            if |faults| < DEPTH then m.history == faults + seq(DEPTH - |faults|, i => NO_RECORD)
            else m.history[m.next..] + m.history[..m.next] == faults[|faults| - DEPTH..]
  {
    RefinesList(arrivals, modulus);
    var m, faults := AfterAll(arrivals, modulus), Faults(Accepted(arrivals, modulus), modulus);
    if |faults| < DEPTH {
      FillingRingInOrder(m.history, faults);
    } else {
      FullRingInOrder(m.history, m.next, faults);
    }
  }

  /** The manager leaves booting with the first accepted arrival for good, and never enters recovery. */
  lemma StatesSeen(arrivals: seq<Arrival>, modulus: nat)
    requires modulus > 0
    ensures AfterAll(arrivals, modulus).state != Recovery
    ensures AfterAll(arrivals, modulus).state == Booting <==> Accepted(arrivals, modulus) == []
  {
    RefinesList(arrivals, modulus);
  }

  /** Whatever faults came before, an accepted arrival that is no fault brings the state back to normal. */
  lemma AnyInfoClearsFault(arrivals: seq<Arrival>, a: Arrival, modulus: nat)
    requires modulus > 0 && !Suppressed(LastOf(Accepted(arrivals, modulus)), a, modulus)
    ensures AfterAll(arrivals + [a], modulus).state == Normal <==> Classify(a.topic, a.code) == Info
  {
    assert (arrivals + [a])[..|arrivals|] == arrivals;
    RefinesList(arrivals + [a], modulus);
  }

  /** After any arrivals, whatever they were, an accepted one leaves the state and the newest record of its own
      topic and code: an outage of the network, not its return; a power event or crossed threshold only while it
      lasts; and a suppressed one leaves everything as it was. */
  lemma NextReacts(arrivals: seq<Arrival>, a: Arrival, modulus: nat)
    requires modulus > 0
    ensures var m, after := AfterAll(arrivals, modulus), AfterAll(arrivals + [a], modulus);
            if Suppressed(LastOf(Accepted(arrivals, modulus)), a, modulus) then after == m
            else Reacts(m, after, a.topic, a.code, a.time % modulus)
  {
    assert (arrivals + [a])[..|arrivals|] == arrivals;
    RefinesList(arrivals, modulus);
    ElapsedIsDistance(a.time, LastOf(Accepted(arrivals, modulus)).time, modulus);
  }

  // ---- Debouncing in true time ----

  predicate Ordered(arrivals: seq<Arrival>) {
    forall i, j :: 0 <= i < j < |arrivals| ==> arrivals[i].time <= arrivals[j].time
  }

  lemma OrderedWith(before: seq<Arrival>, arrivals: seq<Arrival>, last: nat)
    requires Ordered(before) && Ordered(arrivals) && last < |arrivals|
    requires forall k :: 0 <= k < |before| ==> before[k] in arrivals[..last]
    ensures Ordered(before + [arrivals[last]])
  {
    assert forall k :: 0 <= k < |before| ==> before[k].time <= arrivals[last].time;
  }

  lemma {:induction false} AcceptedOrdered(arrivals: seq<Arrival>, modulus: nat)
    requires modulus > 0 && Ordered(arrivals)
    ensures Ordered(Accepted(arrivals, modulus))
    ensures forall k :: 0 <= k < |Accepted(arrivals, modulus)| ==> Accepted(arrivals, modulus)[k] in arrivals
  {
    if arrivals != [] {
      var init := arrivals[..|arrivals| - 1];
      AcceptedOrdered(init, modulus);
      OrderedWith(Accepted(init, modulus), arrivals, |init|);
    }
  }

  /** Two arrivals accepted one after the other with equal topic and code are at least 2000 ticks of true
      time apart, however often the tick counter wrapped. */
  lemma {:induction false} AcceptedRepeatsAreApart(arrivals: seq<Arrival>, modulus: nat, k: nat)
    requires modulus > 0 && Ordered(arrivals) && k + 1 < |Accepted(arrivals, modulus)|
    requires Repeats(Accepted(arrivals, modulus)[k], Accepted(arrivals, modulus)[k + 1])
    ensures Accepted(arrivals, modulus)[k + 1].time >= Accepted(arrivals, modulus)[k].time + DEBOUNCE_TICKS
  {
    var init, a := arrivals[..|arrivals| - 1], arrivals[|arrivals| - 1];
    var before := Accepted(init, modulus);
    if k + 1 < |before| {
      AcceptedRepeatsAreApart(init, modulus, k);
    } else {
      AcceptedOrdered(arrivals, modulus);
      ElapsedIsDistance(a.time, before[k].time, modulus);
    }
  }

  /** The distance of a repeat can be told from the tick counter: less than a turn of it has passed, or
      what is left of the turns is itself no less than the debounce time. */
  predicate Distinguishable(last: Arrival, a: Arrival, modulus: nat)
    requires modulus > 0 && last.time <= a.time
  {
    var d := a.time - last.time;
    Repeats(last, a) ==> d < modulus || d % modulus >= DEBOUNCE_TICKS
  }

  lemma LastIsEarlier(arrivals: seq<Arrival>, a: Arrival, accepted: seq<Arrival>)
    requires Ordered(arrivals + [a]) && forall x :: x in accepted ==> x in arrivals
    ensures LastOf(accepted).time <= a.time
  {
    if accepted != [] {
      var last := accepted[|accepted| - 1];
      assert last in accepted;
      var i :| 0 <= i < |arrivals| && arrivals[i] == last;
      assert (arrivals + [a])[i] == arrivals[i] && (arrivals + [a])[|arrivals|] == a;
    }
  }

  lemma OrderedInit(arrivals: seq<Arrival>, a: Arrival)
    requires Ordered(arrivals + [a])
    ensures Ordered(arrivals)
  {
    assert forall i :: 0 <= i < |arrivals| ==> (arrivals + [a])[i] == arrivals[i];
  }

  lemma SuppressedIffTrulyRecent(last: Arrival, a: Arrival, modulus: nat)
    requires modulus >= DEBOUNCE_TICKS && last.time <= a.time
    ensures (Suppressed(last, a, modulus) <==> TrulyRecent(last, a)) <==> Distinguishable(last, a, modulus)
  {
    ElapsedIsDistance(a.time, last.time, modulus);
  }

  /** After any arrivals, a repeat of the last accepted one is suppressed exactly when it is really less
      than 2000 ticks after it, if and only if the distance can be told from the counter. */
  lemma SuppressedIffRecent(arrivals: seq<Arrival>, a: Arrival, modulus: nat)
    requires modulus >= DEBOUNCE_TICKS && Ordered(arrivals + [a]) && Repeats(LastOf(Accepted(arrivals, modulus)), a)
    ensures LastOf(Accepted(arrivals, modulus)).time <= a.time
    ensures (Accepted(arrivals + [a], modulus) == Accepted(arrivals, modulus)
             <==> a.time - LastOf(Accepted(arrivals, modulus)).time < DEBOUNCE_TICKS)
            <==> Distinguishable(LastOf(Accepted(arrivals, modulus)), a, modulus)
  {
    var last := LastOf(Accepted(arrivals, modulus));
    OrderedInit(arrivals, a);
    AcceptedOrdered(arrivals, modulus);
    LastIsEarlier(arrivals, a, Accepted(arrivals, modulus));
    NotAcceptedIffSuppressed(arrivals, a, modulus);
    SuppressedIffTrulyRecent(last, a, modulus);
  }

  lemma NotAcceptedIffSuppressed(arrivals: seq<Arrival>, a: Arrival, modulus: nat)
    requires modulus > 0
    ensures Accepted(arrivals + [a], modulus) == Accepted(arrivals, modulus)
            <==> Suppressed(LastOf(Accepted(arrivals, modulus)), a, modulus)
  {
    assert (arrivals + [a])[..|arrivals|] == arrivals;
    var before := Accepted(arrivals, modulus);
    assert |before + [a]| != |before|;
  }

  // ---- Whole runs against debouncing in true time ----

  predicate TrulyRecent(last: Arrival, a: Arrival) {
    Repeats(last, a) && a.time - last.time < DEBOUNCE_TICKS
  }

  /** What debouncing is for: the arrivals that are not within 2000 ticks of the last accepted like one. */
  function AcceptedInTruth(arrivals: seq<Arrival>): seq<Arrival> {
    if arrivals == [] then []
    else
      var before, a := AcceptedInTruth(arrivals[..|arrivals| - 1]), arrivals[|arrivals| - 1];
      if TrulyRecent(LastOf(before), a) then before else before + [a]
  }

  lemma {:induction false} TruthInArrivals(arrivals: seq<Arrival>)
    ensures forall x :: x in AcceptedInTruth(arrivals) ==> x in arrivals
  {
    if arrivals != [] {
      TruthInArrivals(arrivals[..|arrivals| - 1]);
    }
  }

  /** The manager has accepted of the first `k` arrivals what it should have. */
  predicate RightSoFar(arrivals: seq<Arrival>, modulus: nat, k: nat)
    requires modulus > 0 && k <= |arrivals|
  {
    Accepted(arrivals[..k], modulus) == AcceptedInTruth(arrivals[..k])
  }

  predicate DistinguishableAt(arrivals: seq<Arrival>, modulus: nat, k: nat)
    requires modulus > 0 && k < |arrivals|
  {
    var last := LastOf(AcceptedInTruth(arrivals[..k]));
    last.time <= arrivals[k].time && Distinguishable(last, arrivals[k], modulus)
  }

  lemma RightStep(arrivals: seq<Arrival>, modulus: nat, k: nat)
    requires modulus >= DEBOUNCE_TICKS && Ordered(arrivals) && k < |arrivals| && RightSoFar(arrivals, modulus, k)
    ensures RightSoFar(arrivals, modulus, k + 1) <==> DistinguishableAt(arrivals, modulus, k)
  {
    var before, a := arrivals[..k], arrivals[k];
    assert arrivals[..k + 1] == before + [a] && (before + [a])[..k] == before;
    assert Ordered(before + [a]);
    TruthInArrivals(before);
    LastIsEarlier(before, a, AcceptedInTruth(before));
    SuppressedIffTrulyRecent(LastOf(AcceptedInTruth(before)), a, modulus);
  }

  lemma {:induction false} RightUpTo(arrivals: seq<Arrival>, modulus: nat, n: nat)
    requires modulus >= DEBOUNCE_TICKS && Ordered(arrivals) && n <= |arrivals|
    requires forall k :: 0 <= k < n ==> DistinguishableAt(arrivals, modulus, k)
    ensures forall k :: 0 <= k <= n ==> RightSoFar(arrivals, modulus, k)
    decreases n
  {
    if n > 0 {
      RightUpTo(arrivals, modulus, n - 1);
      RightStep(arrivals, modulus, n - 1);
    }
  }

  /** Over a whole run the manager accepts, at every point, exactly what debouncing in true time would, if
      and only if every repeat can be told from the counter. */
  lemma RightIffDistinguishable(arrivals: seq<Arrival>, modulus: nat)
    requires modulus >= DEBOUNCE_TICKS && Ordered(arrivals)
    ensures (forall k :: 0 <= k <= |arrivals| ==> RightSoFar(arrivals, modulus, k))
            <==> (forall k :: 0 <= k < |arrivals| ==> DistinguishableAt(arrivals, modulus, k))
  {
    if forall k :: 0 <= k <= |arrivals| ==> RightSoFar(arrivals, modulus, k) {
      forall k | 0 <= k < |arrivals| ensures DistinguishableAt(arrivals, modulus, k) {
        assert RightSoFar(arrivals, modulus, k) && RightSoFar(arrivals, modulus, k + 1);
        RightStep(arrivals, modulus, k);
      }
    } else if forall k :: 0 <= k < |arrivals| ==> DistinguishableAt(arrivals, modulus, k) {
      RightUpTo(arrivals, modulus, |arrivals|);
    }
  }

  /** The first arrival of all is accepted, as its topic is not the one remembered from the start. */
  lemma FirstAccepted(a: Arrival, modulus: nat)
    requires modulus > 0 && a.topic < TOPIC_MAX
    ensures Accepted([a], modulus) == [a] && AcceptedInTruth([a]) == [a]
  {
    var one := [a];
    assert one[..|one| - 1] == [] && !Repeats(LastOf([]), a);
    assert Accepted(one[..|one| - 1], modulus) == [] && AcceptedInTruth(one[..|one| - 1]) == [];
    assert [] + one == one;
  }

  /** A run in which it goes wrong: the same fault again, exactly one turn of the counter later, is lost. */
  lemma LateRepeatIsLost(topic: nat, code: nat, time: nat, modulus: nat) returns (arrivals: seq<Arrival>)
    requires modulus >= DEBOUNCE_TICKS && topic < TOPIC_MAX
    ensures arrivals == [Arrival(topic, code, time), Arrival(topic, code, time + modulus)] && Ordered(arrivals)
    ensures Accepted(arrivals, modulus) == arrivals[..1] && AcceptedInTruth(arrivals) == arrivals
  {
    var a, b := Arrival(topic, code, time), Arrival(topic, code, time + modulus);
    arrivals := [a, b];
    assert arrivals[..1] == [a] && [a] + [b] == arrivals;
    FirstAccepted(a, modulus);
    ElapsedOfTurn(time, modulus);
  }

  /** Only the last accepted arrival is remembered: a run in which no arrival repeats the one just before
      it, such as A, B, A, B, is accepted whole, however fast it comes. */
  lemma {:induction false} AlternationIsNeverDebounced(arrivals: seq<Arrival>, modulus: nat)
    requires modulus > 0 && (arrivals != [] ==> arrivals[0].topic < TOPIC_MAX)
    requires forall k :: 0 < k < |arrivals| ==> !Repeats(arrivals[k - 1], arrivals[k])
    ensures Accepted(arrivals, modulus) == arrivals
  {
    if arrivals != [] {
      var init, a := arrivals[..|arrivals| - 1], arrivals[|arrivals| - 1];
      AlternationIsNeverDebounced(init, modulus);
      assert arrivals == init + [a];
      if init != [] {
        assert LastOf(init) == arrivals[|arrivals| - 2];
      }
    }
  }
}
