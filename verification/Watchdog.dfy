/**
  The watchdog (watchdog_task.c): draining heartbeats, checking every task against the timeout with wrapping
  tick subtraction, raising alarms and re-arming; and what that amounts to in true time.
*/
module Watchdog {
  import opened Common
  import opened PayloadPool
  import opened EventBus
  import opened Ticks

  const TIMEOUT: nat := 8000

  // ---- One round, in ticks ----

  /** Heartbeats taken from the queue in order; ids of no known task are ignored. */
  function Drained(seen: seq<nat>, beats: seq<Event>): (r: seq<nat>)
    ensures |r| == |seen|
    decreases |beats|
  {
    if beats == [] then seen
    else
      var before, e := Drained(seen, beats[..|beats| - 1]), beats[|beats| - 1];
      if e.p0 < |seen| then before[e.p0 := e.timestamp] else before
  }

  /** What draining leaves for a task: the stamp of the last heartbeat whose first payload byte is its id, or
      what was there if there is none. */
  lemma {:induction false} DrainedIsLast(seen: seq<nat>, beats: seq<Event>, task: nat, k: nat)
    requires task < |seen| && k <= |beats| && forall j :: k <= j < |beats| ==> beats[j].p0 != task
    ensures Drained(seen, beats)[task] == Drained(seen, beats[..k])[task]
    ensures k == 0 ==> Drained(seen, beats)[task] == seen[task]
    ensures k > 0 && beats[k - 1].p0 == task ==> Drained(seen, beats)[task] == beats[k - 1].timestamp
    decreases |beats|
  {
    if k == |beats| {
      assert beats[..k] == beats;
    } else {
      var init := beats[..|beats| - 1];
      assert init[..k] == beats[..k];
      DrainedIsLast(seen, init, task, k);
    }
  }

  predicate Overdue(seen: nat, now: nat, modulus: nat)
    requires modulus > 0
  {
    Elapsed(now, seen, modulus) > TIMEOUT
  }

  /** The array once the tasks below `n` have been checked, each against its own stamp. */
  function SweptBelow(seen: seq<nat>, now: nat, modulus: nat, n: nat): (r: seq<nat>)
    requires modulus > 0
    ensures |r| == |seen|
  {
    seq(|seen|, i requires 0 <= i < |seen| => if i < n && Overdue(seen[i], now, modulus) then now else seen[i])
  }

  function Swept(seen: seq<nat>, now: nat, modulus: nat): (r: seq<nat>)
    requires modulus > 0
    ensures |r| == |seen|
  {
    SweptBelow(seen, now, modulus, |seen|)
  }

  lemma SweptStep(seen: seq<nat>, now: nat, modulus: nat, n: nat)
    requires modulus > 0 && n < |seen|
    ensures var r := SweptBelow(seen, now, modulus, n);
            && r[n] == seen[n]
            && SweptBelow(seen, now, modulus, n + 1) == if Overdue(seen[n], now, modulus) then r[n := now] else r
  {
  }

  function Alarm(task: nat, now: nat): Event {
    Event(TOPIC_SYSTEM_FAULT, now, 0, 0, 0, 0, task, 0, 0, Null)
  }

  /** The alarms for the tasks below `n`, in the order of their ids. */
  function Alarms(seen: seq<nat>, now: nat, modulus: nat, n: nat): seq<Event>
    requires modulus > 0 && n <= |seen|
  {
    if n == 0 then []
    else Alarms(seen, now, modulus, n - 1) + (if Overdue(seen[n - 1], now, modulus) then [Alarm(n - 1, now)] else [])
  }

  lemma {:induction false} AlarmTopics(seen: seq<nat>, now: nat, modulus: nat, n: nat)
    requires modulus > 0 && n <= |seen|
    ensures forall k :: 0 <= k < |Alarms(seen, now, modulus, n)|
              ==> Alarms(seen, now, modulus, n)[k].topic == TOPIC_SYSTEM_FAULT
  {
    if n > 0 {
      AlarmTopics(seen, now, modulus, n - 1);
    }
  }

  // ---- What the alarms say ----

  /** The ids of the overdue tasks below `n`, in order. */
  function Stalled(seen: seq<nat>, now: nat, modulus: nat, n: nat): seq<nat>
    requires modulus > 0 && n <= |seen|
  {
    if n == 0 then []
    else Stalled(seen, now, modulus, n - 1) + (if Elapsed(now, seen[n - 1], modulus) > 8000 then [n - 1] else [])
  }

  predicate Rising(ids: seq<nat>) {
    forall j, k :: 0 <= j < k < |ids| ==> ids[j] < ids[k]
  }

  lemma RisingWith(ids: seq<nat>, id: nat)
    requires Rising(ids) && forall x :: x in ids ==> x < id
    ensures Rising(ids + [id])
  {
    assert forall k :: 0 <= k < |ids| ==> ids[k] in ids;
  }

  /** Exactly the tasks whose timer has run for more than 8000 ticks, each once, in rising order. */
  lemma {:induction false} StalledAreOverdue(seen: seq<nat>, now: nat, modulus: nat, n: nat)
    requires modulus > 0 && n <= |seen|
    ensures var stalled := Stalled(seen, now, modulus, n);
            && (forall task :: task in stalled <==> 0 <= task < n && Elapsed(now, seen[task], modulus) > 8000)
            && Rising(stalled)
  {
    if n > 0 {
      StalledAreOverdue(seen, now, modulus, n - 1);
      RisingWith(Stalled(seen, now, modulus, n - 1), n - 1);
    }
  }

  /** There is one alarm per stalled task, and it names the task in the first payload byte. */
  lemma {:induction false} AlarmsNameTheStalled(seen: seq<nat>, now: nat, modulus: nat, n: nat)
    requires modulus > 0 && n <= |seen|
    ensures var alarms, stalled := Alarms(seen, now, modulus, n), Stalled(seen, now, modulus, n);
            && |alarms| == |stalled|
            && forall k :: 0 <= k < |alarms| ==>
                 alarms[k] == Event(TOPIC_SYSTEM_FAULT, now, 0, 0, 0, 0, stalled[k], 0, 0, Null)
  {
    if n > 0 {
      AlarmsNameTheStalled(seen, now, modulus, n - 1);
    }
  }

  /** What a check puts into a queue that `before` shows, subscribed to faults as `subs` says: the report of each
      stalled task, in order and with the next ids, as far as there is room. */
  function Reports(subs: seq<nat>, caps: seq<nat>, before: seq<seq<Event>>, nextEventId: nat, q: nat,
                   stalled: seq<nat>, now: nat): seq<Event>
    requires q < |caps| == |before|
  {
    seq(Taken(subs, caps, before, q, |stalled|), k requires 0 <= k < |stalled| =>
      Event(TOPIC_SYSTEM_FAULT, now, (nextEventId + k) % U32, 0, 0, 0, stalled[k], 0, 0, Null))
  }

  lemma QueueAfterAlarms(b: Contents, caps: seq<nat>, seen: seq<nat>, now: nat, modulus: nat, n: nat, q: nat)
    requires BusOk(b, caps) && b.nextEventId < U32 && modulus > 0 && n <= |seen| && q < |caps|
    requires Occurrences(b.topics[TOPIC_SYSTEM_FAULT].subscribers, q) <= 1
    ensures Alarmed(b, caps, seen, now, modulus, n).queues[q]
            == b.queues[q] + Reports(b.topics[TOPIC_SYSTEM_FAULT].subscribers, caps, b.queues, b.nextEventId, q,
                                     Stalled(seen, now, modulus, n), now)
  {
    AlarmTopics(seen, now, modulus, n);
    AlarmsNameTheStalled(seen, now, modulus, n);
    PublishAllInOrder(b, caps, Alarms(seen, now, modulus, n), TOPIC_SYSTEM_FAULT, q);
  }

  /** The bus after the alarms have been published on it, in order. */
  function Alarmed(b: Contents, caps: seq<nat>, seen: seq<nat>, now: nat, modulus: nat, n: nat): Contents
    requires BusOk(b, caps) && modulus > 0 && n <= |seen|
  {
    AlarmTopics(seen, now, modulus, n);
    AfterPublishAll(b, caps, Alarms(seen, now, modulus, n))
  }

  lemma AlarmedStep(b: Contents, caps: seq<nat>, seen: seq<nat>, now: nat, modulus: nat, n: nat)
    requires BusOk(b, caps) && modulus > 0 && n < |seen|
    ensures var before := Alarmed(b, caps, seen, now, modulus, n);
            && BusOk(before, caps)
            && Alarmed(b, caps, seen, now, modulus, n + 1)
               == if Overdue(seen[n], now, modulus) then AfterPublish(before, caps, Alarm(n, now)) else before
  {
    var alarms := Alarms(seen, now, modulus, n);
    AlarmTopics(seen, now, modulus, n);
    AlarmTopics(seen, now, modulus, n + 1);
    assert (alarms + [Alarm(n, now)])[..|alarms|] == alarms && alarms + [] == alarms;
  }

  class Monitor {
    const modulus: nat
    const lastSeen: array<nat>
    const bus: Bus
    const queue: nat

    ghost predicate Valid()
      reads this, bus, bus.topics, bus.queues
    {
      lastSeen.Length == TASK_ID_MAX && modulus > 0 && bus.Valid() && queue < |bus.caps|
    }

    constructor (modulus: nat, now: nat, bus: Bus, queue: nat)
      requires modulus > 0 && bus.Valid() && queue < |bus.caps|
      ensures Valid() && this.modulus == modulus && this.bus == bus && this.queue == queue && fresh(lastSeen)
      ensures lastSeen[..] == seq(TASK_ID_MAX, i => now)
    {
      this.modulus := modulus;
      this.lastSeen := new nat[TASK_ID_MAX](i => now);
      this.bus := bus;
      this.queue := queue;
    }

    method Drain()
      requires Valid()
      modifies bus.queues, lastSeen
      ensures Valid() && lastSeen[..] == Drained(old(lastSeen[..]), old(bus.queues[queue]))
      ensures bus.queues[..] == old(bus.queues[..])[queue := []]
    {
      ghost var beats, n := bus.queues[queue], 0;
      var more, e := bus.QueueReceive(queue);
      while more
        invariant Valid() && n <= |beats| && more == (n < |beats|)
        invariant more ==> e == beats[n]
        invariant bus.queues[..] == old(bus.queues[..])[queue := if more then beats[n + 1..] else []]
        invariant lastSeen[..] == Drained(old(lastSeen[..]), beats[..n])
        decreases |beats| - n
      {
        assert beats[..n + 1][..n] == beats[..n];
        if e.p0 < TASK_ID_MAX {
          lastSeen[e.p0] := e.timestamp;
        }
        n := n + 1;
        assert n < |beats| ==> beats[n..][0] == beats[n] && beats[n..][1..] == beats[n + 1..];
        more, e := bus.QueueReceive(queue);
      }
      assert beats[..n] == beats;
    }

    /** The check of one task. */
    method CheckTask(i: nat, now: nat)
      requires Valid() && i < TASK_ID_MAX
      modifies bus, bus.topics, bus.queues, lastSeen
      ensures Valid() && BusOk(old(bus.State()), bus.caps)
      ensures if Overdue(old(lastSeen[i]), now, modulus) then
                bus.State() == AfterPublish(old(bus.State()), bus.caps, Alarm(i, now))
                && lastSeen[..] == old(lastSeen[..])[i := now]
              else bus.State() == old(bus.State()) && lastSeen[..] == old(lastSeen[..])
      ensures Overdue(old(lastSeen[i]), now, modulus) ==>
                OnlyAdds(old(bus.queues[..]), bus.queues[..],
                         Event(TOPIC_SYSTEM_FAULT, now, old(bus.nextEventId), 0, 0, 0, i, 0, 0, Null))
    {
      assert BusOk(bus.State(), bus.caps);
      PublishOnlyAdds(bus.topics[TOPIC_SYSTEM_FAULT], bus.caps, bus.queues[..], bus.dropCount,
                      Routed(Alarm(i, now), bus.nextEventId));
      var elapsed := Elapsed(now, lastSeen[i], modulus);
      if elapsed > TIMEOUT {
        var _, _ := bus.PublishWithCount(Alarm(i, now));
        lastSeen[i] := now;
      }
    }

    method Sweep(now: nat)
      requires Valid()
      modifies bus, bus.topics, bus.queues, lastSeen
      ensures Valid() && lastSeen[..] == Swept(old(lastSeen[..]), now, modulus)
      ensures BusOk(old(bus.State()), bus.caps)
      ensures bus.State() == Alarmed(old(bus.State()), bus.caps, old(lastSeen[..]), now, modulus, TASK_ID_MAX)
    {
      ghost var seen, before := lastSeen[..], bus.State();
      assert BusOk(before, bus.caps) && SweptBelow(seen, now, modulus, 0) == seen;
      var i := 0;
      while i < TASK_ID_MAX
        invariant i <= TASK_ID_MAX && Valid()
        invariant lastSeen[..] == SweptBelow(seen, now, modulus, i)
        invariant bus.State() == Alarmed(before, bus.caps, seen, now, modulus, i)
      {
        AlarmedStep(before, bus.caps, seen, now, modulus, i);
        SweptStep(seen, now, modulus, i);
        assert lastSeen[i] == lastSeen[..][i];
        CheckTask(i, now);
        i := i + 1;
      }
    }

    /** One turn of the endless loop. */
    method Check(now: nat)
      requires Valid()
      modifies bus, bus.topics, bus.queues, lastSeen
      ensures Valid()
      ensures var seen := Drained(old(lastSeen[..]), old(bus.queues[queue]));
              var drained := old(bus.State()).(queues := old(bus.queues[..])[queue := []]);
              && lastSeen[..] == Swept(seen, now, modulus) && BusOk(drained, bus.caps)
              && bus.State() == Alarmed(drained, bus.caps, seen, now, modulus, TASK_ID_MAX)
      ensures var seen := Drained(old(lastSeen[..]), old(bus.queues[queue]));
              var before, subs := old(bus.queues[..])[queue := []], old(bus.topics[TOPIC_SYSTEM_FAULT]).subscribers;
              forall q :: 0 <= q < |bus.caps| && Occurrences(subs, q) <= 1 ==>
                bus.queues[q] == before[q] + Reports(subs, bus.caps, before, old(bus.nextEventId), q,
                                                     Stalled(seen, now, modulus, TASK_ID_MAX), now)
    {
      Drain();
      ghost var seen, b := lastSeen[..], bus.State();
      Sweep(now);
      forall q | 0 <= q < |bus.caps| && Occurrences(b.topics[TOPIC_SYSTEM_FAULT].subscribers, q) <= 1
        ensures bus.queues[q] == b.queues[q] + Reports(b.topics[TOPIC_SYSTEM_FAULT].subscribers, bus.caps, b.queues,
                                                       b.nextEventId, q, Stalled(seen, now, modulus, TASK_ID_MAX), now)
      {
        QueueAfterAlarms(b, bus.caps, seen, now, modulus, TASK_ID_MAX, q);
        assert bus.queues[q] == bus.State().queues[q];
      }
    }
  }

  /** Alarms are raised for exactly the overdue tasks. */
  lemma {:induction false} AlarmIffOverdue(seen: seq<nat>, now: nat, modulus: nat, n: nat, task: nat)
    requires modulus > 0 && n <= |seen|
    ensures Alarm(task, now) in Alarms(seen, now, modulus, n) <==> task < n && Overdue(seen[task], now, modulus)
  {
    if n > 0 {
      AlarmIffOverdue(seen, now, modulus, n - 1, task);
    }
  }

  // ---- Whole runs, in true time ----

  datatype Beat = Beat(task: nat, time: nat)

  /** A round: the heartbeats that arrived since the last check, and the time of this one. */
  datatype Round = Round(beats: seq<Beat>, check: nat)

  function Heartbeats(beats: seq<Beat>, modulus: nat): seq<Event>
    requires modulus > 0
  {
    seq(|beats|, k requires 0 <= k < |beats| =>
      Event(TOPIC_HEARTBEAT, beats[k].time % modulus, 0, 0, 0, beats[k].task, beats[k].task, 0, 0, Null))
  }

  /** The watchdog's array after some rounds, in ticks. */
  function Machine(start: nat, rounds: seq<Round>, modulus: nat): (r: seq<nat>)
    requires modulus > 0
    ensures |r| == TASK_ID_MAX
    decreases |rounds|, 1
  {
    if rounds == [] then seq(TASK_ID_MAX, i => start % modulus)
    else Swept(Pending(start, rounds, modulus), rounds[|rounds| - 1].check % modulus, modulus)
  }

  /** The array in the last round, between drain and sweep. */
  function Pending(start: nat, rounds: seq<Round>, modulus: nat): (r: seq<nat>)
    requires modulus > 0 && rounds != []
    ensures |r| == TASK_ID_MAX
    decreases |rounds|, 0
  {
    Drained(Machine(start, rounds[..|rounds| - 1], modulus), Heartbeats(rounds[|rounds| - 1].beats, modulus))
  }

  // ---- The same in true time, task by task ----

  /** When the task last gave a sign of life, counting the beats given. */
  function LastSign(sign: nat, beats: seq<Beat>, task: nat): nat
    decreases |beats|
  {
    if beats == [] then sign
    else
      var b := beats[|beats| - 1];
      if b.task == task then b.time else LastSign(sign, beats[..|beats| - 1], task)
  }

  /** When the task's timer last started: at start-up, its last beat, or the last alarm for it. */
  function Since(start: nat, rounds: seq<Round>, task: nat): nat
    decreases |rounds|, 2
  {
    if rounds == [] then start
    else if Late(start, rounds, task) then rounds[|rounds| - 1].check
    else BeforeCheck(start, rounds, task)
  }

  function BeforeCheck(start: nat, rounds: seq<Round>, task: nat): nat
    requires rounds != []
    decreases |rounds|, 0
  {
    LastSign(Since(start, rounds[..|rounds| - 1], task), rounds[|rounds| - 1].beats, task)
  }

  /** The last round finds the task silent for longer than the timeout. */
  predicate Late(start: nat, rounds: seq<Round>, task: nat)
    requires rounds != []
    decreases |rounds|, 1
  {
    rounds[|rounds| - 1].check > BeforeCheck(start, rounds, task) + TIMEOUT
  }

  function LastCheck(start: nat, rounds: seq<Round>): nat {
    if rounds == [] then start else rounds[|rounds| - 1].check
  }

  /** Checks are at most `period` apart; beats carry times between the checks, in order. */
  predicate WellTimed(start: nat, rounds: seq<Round>, period: nat)
    decreases |rounds|
  {
    rounds == [] ||
    var init, r := rounds[..|rounds| - 1], rounds[|rounds| - 1];
    && WellTimed(start, init, period)
    && LastCheck(start, init) <= r.check <= LastCheck(start, init) + period
    && (forall k :: 0 <= k < |r.beats| ==> LastCheck(start, init) <= r.beats[k].time <= r.check)
    && (forall j, k :: 0 <= j < k < |r.beats| ==> r.beats[j].time <= r.beats[k].time)
  }

  lemma {:induction false} LastSignBetween(sign: nat, beats: seq<Beat>, task: nat, low: nat, high: nat)
    requires sign <= high && forall k :: 0 <= k < |beats| ==> low <= beats[k].time <= high
    ensures sign <= low ==> sign <= LastSign(sign, beats, task)
    ensures LastSign(sign, beats, task) <= high
  {
    if beats != [] {
      LastSignBetween(sign, beats[..|beats| - 1], task, low, high);
    }
  }

  /** After every check, each timer has run for at most the timeout. */
  lemma {:induction false} TimersRecent(start: nat, rounds: seq<Round>, period: nat, task: nat)
    requires WellTimed(start, rounds, period)
    ensures Since(start, rounds, task) <= LastCheck(start, rounds) <= Since(start, rounds, task) + TIMEOUT
  {
    if rounds != [] {
      var init, r := rounds[..|rounds| - 1], rounds[|rounds| - 1];
      TimersRecent(start, init, period, task);
      LastSignBetween(Since(start, init, task), r.beats, task, LastCheck(start, init), r.check);
    }
  }

  lemma {:induction false} DrainKeepsSigns(seen: seq<nat>, sign: nat, beats: seq<Beat>, modulus: nat, task: nat)
    requires modulus > 0 && task < |seen| && seen[task] == sign % modulus
    ensures Drained(seen, Heartbeats(beats, modulus))[task] == LastSign(sign, beats, task) % modulus
  {
    if beats != [] {
      var init := beats[..|beats| - 1];
      assert Heartbeats(beats, modulus)[..|beats| - 1] == Heartbeats(init, modulus);
      DrainKeepsSigns(seen, sign, init, modulus, task);
    }
  }

  /** Checked often enough for the width of the tick counter, the array holds exactly the true times the
      timers started, and modular subtraction gives the true time elapsed. */
  lemma {:induction false} MachineTellsTrueTime(start: nat, rounds: seq<Round>, period: nat, modulus: nat, task: nat)
    requires WellTimed(start, rounds, period) && TIMEOUT + period < modulus && task < TASK_ID_MAX
    ensures Machine(start, rounds, modulus)[task] == Since(start, rounds, task) % modulus
    ensures rounds != [] ==>
              var r := rounds[|rounds| - 1];
              Elapsed(r.check % modulus, Pending(start, rounds, modulus)[task], modulus)
              == r.check - BeforeCheck(start, rounds, task)
    decreases |rounds|
  {
    if rounds != [] {
      var init, r := rounds[..|rounds| - 1], rounds[|rounds| - 1];
      MachineTellsTrueTime(start, init, period, modulus, task);
      DrainKeepsSigns(Machine(start, init, modulus), Since(start, init, task), r.beats, modulus, task);
      TimersRecent(start, init, period, task);
      LastSignBetween(Since(start, init, task), r.beats, task, LastCheck(start, init), r.check);
      ElapsedIsDistance(r.check, BeforeCheck(start, rounds, task), modulus);
    }
  }

  /** The last round publishes a fault that names the task. */
  ghost predicate Raised(start: nat, rounds: seq<Round>, modulus: nat, task: nat)
    requires modulus > 0 && rounds != []
  {
    var now := rounds[|rounds| - 1].check % modulus;
    var alarms := Alarms(Pending(start, rounds, modulus), now, modulus, TASK_ID_MAX);
    exists k :: 0 <= k < |alarms| && alarms[k].topic == TOPIC_SYSTEM_FAULT && alarms[k].p0 == task
  }

  lemma RaisedIffLate(start: nat, rounds: seq<Round>, period: nat, modulus: nat, task: nat)
    requires WellTimed(start, rounds, period) && TIMEOUT + period < modulus && task < TASK_ID_MAX && rounds != []
    ensures Raised(start, rounds, modulus, task) <==> Late(start, rounds, task)
  {
    MachineTellsTrueTime(start, rounds, period, modulus, task);
    var seen, now := Pending(start, rounds, modulus), rounds[|rounds| - 1].check % modulus;
    AlarmsNameTheStalled(seen, now, modulus, TASK_ID_MAX);
    StalledAreOverdue(seen, now, modulus, TASK_ID_MAX);
    var stalled := Stalled(seen, now, modulus, TASK_ID_MAX);
    assert forall k :: 0 <= k < |stalled| ==> stalled[k] in stalled;
    if task in stalled {
      var k :| 0 <= k < |stalled| && stalled[k] == task;
      assert Alarms(seen, now, modulus, TASK_ID_MAX)[k].p0 == task;
    }
  }

  // ---- When alarms are raised ----

  lemma {:induction false} WellTimedPrefix(start: nat, rounds: seq<Round>, period: nat, n: nat)
    requires WellTimed(start, rounds, period) && n <= |rounds|
    ensures WellTimed(start, rounds[..n], period)
    ensures n > 0 ==> rounds[n - 1].check <= LastCheck(start, rounds)
    decreases |rounds|
  {
    if n == |rounds| {
      assert rounds[..n] == rounds;
    } else {
      var init := rounds[..|rounds| - 1];
      WellTimedPrefix(start, init, period, n);
      assert init[..n] == rounds[..n];
    }
  }

  predicate HeardIn(beats: seq<Beat>, task: nat, time: int) {
    exists k :: 0 <= k < |beats| && beats[k].task == task && beats[k].time >= time
  }

  /** Start-up, a heartbeat or an alarm for the task, at `time` or later. */
  ghost predicate Heard(start: nat, rounds: seq<Round>, modulus: nat, task: nat, time: int)
    requires modulus > 0
    decreases |rounds|
  {
    if rounds == [] then start >= time
    else
      var r := rounds[|rounds| - 1];
      || Heard(start, rounds[..|rounds| - 1], modulus, task, time)
      || HeardIn(r.beats, task, time)
      || (Raised(start, rounds, modulus, task) && r.check >= time)
  }

  lemma {:induction false} LastSignIffHeard(sign: nat, beats: seq<Beat>, task: nat, time: int)
    requires forall k :: 0 <= k < |beats| ==> sign <= beats[k].time
    requires forall j, k :: 0 <= j < k < |beats| ==> beats[j].time <= beats[k].time
    ensures LastSign(sign, beats, task) >= time <==> sign >= time || HeardIn(beats, task, time)
  {
    if beats != [] {
      var init, b := beats[..|beats| - 1], beats[|beats| - 1];
      LastSignIffHeard(sign, init, task, time);
      if b.task != task && HeardIn(beats, task, time) {
        var k :| 0 <= k < |beats| && beats[k].task == task && beats[k].time >= time;
        assert init[k] == beats[k];
      } else if HeardIn(init, task, time) {
        var k :| 0 <= k < |init| && init[k].task == task && init[k].time >= time;
        assert beats[k] == init[k];
      }
    }
  }

  lemma {:induction false} SinceIffHeard(start: nat, rounds: seq<Round>, period: nat, modulus: nat, task: nat,
      time: int)
    requires WellTimed(start, rounds, period) && TIMEOUT + period < modulus && task < TASK_ID_MAX
    ensures Since(start, rounds, task) >= time <==> Heard(start, rounds, modulus, task, time)
    decreases |rounds|
  {
    if rounds != [] {
      BeforeCheckIffHeard(start, rounds, period, modulus, task, time);
      RaisedIffLate(start, rounds, period, modulus, task);
      TimersRecent(start, rounds, period, task);
    }
  }

  lemma {:induction false} BeforeCheckIffHeard(start: nat, rounds: seq<Round>, period: nat, modulus: nat, task: nat,
      time: int)
    requires WellTimed(start, rounds, period) && TIMEOUT + period < modulus && task < TASK_ID_MAX && rounds != []
    ensures BeforeCheck(start, rounds, task) >= time
            <==> Heard(start, rounds[..|rounds| - 1], modulus, task, time)
                 || HeardIn(rounds[|rounds| - 1].beats, task, time)
    decreases |rounds|, 0
  {
    var init, r := rounds[..|rounds| - 1], rounds[|rounds| - 1];
    SinceIffHeard(start, init, period, modulus, task, time);
    TimersRecent(start, init, period, task);
    LastSignIffHeard(Since(start, init, task), r.beats, task, time);
  }

  /** An alarm is raised at a check exactly when there was no sign of life of the task, no start-up,
      heartbeat or earlier alarm, in the last 8000 ms before it. */
  lemma RaisedIffSilent(start: nat, rounds: seq<Round>, period: nat, modulus: nat, task: nat)
    requires WellTimed(start, rounds, period) && TIMEOUT + period < modulus && task < TASK_ID_MAX && rounds != []
    ensures var init, r := rounds[..|rounds| - 1], rounds[|rounds| - 1];
            Raised(start, rounds, modulus, task)
            <==> !Heard(start, init, modulus, task, r.check - TIMEOUT) && !HeardIn(r.beats, task, r.check - TIMEOUT)
  {
    RaisedIffLate(start, rounds, period, modulus, task);
    BeforeCheckIffHeard(start, rounds, period, modulus, task, rounds[|rounds| - 1].check - TIMEOUT);
  }

  // ---- The detection window ----

  /** Round `n` publishes an alarm for the task. */
  ghost predicate RaisedAt(start: nat, rounds: seq<Round>, modulus: nat, task: nat, n: nat)
    requires modulus > 0 && n < |rounds|
  {
    Raised(start, rounds[..n + 1], modulus, task)
  }

  predicate LateAt(start: nat, rounds: seq<Round>, task: nat, n: nat)
    requires n < |rounds|
  {
    Late(start, rounds[..n + 1], task)
  }

  lemma RaisedAtIffLateAt(start: nat, rounds: seq<Round>, period: nat, modulus: nat, task: nat, n: nat)
    requires WellTimed(start, rounds, period) && TIMEOUT + period < modulus && task < TASK_ID_MAX && n < |rounds|
    ensures RaisedAt(start, rounds, modulus, task, n) == LateAt(start, rounds, task, n)
  {
    WellTimedPrefix(start, rounds, period, n + 1);
    RaisedIffLate(start, rounds[..n + 1], period, modulus, task);
  }

  lemma LateAtOfPrefix(start: nat, rounds: seq<Round>, task: nat, k: nat)
    requires k <= |rounds|
    ensures forall m :: 0 <= m < k ==> LateAt(start, rounds[..k], task, m) == LateAt(start, rounds, task, m)
    ensures k > 0 ==> LateAt(start, rounds, task, k - 1) == Late(start, rounds[..k], task)
  {
    forall m | 0 <= m < k ensures LateAt(start, rounds[..k], task, m) == LateAt(start, rounds, task, m) {
      assert rounds[..k][..m + 1] == rounds[..m + 1];
    }
  }

  /** No heartbeat of the task from round `j` on. */
  predicate QuietFrom(rounds: seq<Round>, task: nat, j: nat) {
    forall n, b :: j <= n < |rounds| && b in rounds[n].beats ==> b.task != task
  }

  lemma {:induction false} QuietKeepsSign(sign: nat, beats: seq<Beat>, task: nat)
    requires forall b :: b in beats ==> b.task != task
    ensures LastSign(sign, beats, task) == sign
  {
    if beats != [] {
      QuietKeepsSign(sign, beats[..|beats| - 1], task);
    }
  }

  lemma QuietRound(start: nat, rounds: seq<Round>, task: nat, j: nat)
    requires j < |rounds| && QuietFrom(rounds, task, j)
    ensures BeforeCheck(start, rounds, task) == Since(start, rounds[..|rounds| - 1], task)
    ensures QuietFrom(rounds[..|rounds| - 1], task, j)
  {
    QuietKeepsSign(Since(start, rounds[..|rounds| - 1], task), rounds[|rounds| - 1].beats, task);
  }

  /** Until the timeout has passed, a silent task's timer runs on and nothing is reported. */
  lemma {:induction false} QuietUntil(start: nat, rounds: seq<Round>, period: nat, task: nat, j: nat)
    requires WellTimed(start, rounds, period) && j <= |rounds| && QuietFrom(rounds, task, j)
    requires j < |rounds| ==> LastCheck(start, rounds) <= Since(start, rounds[..j], task) + TIMEOUT
    ensures Since(start, rounds, task) == Since(start, rounds[..j], task)
    ensures forall m :: j <= m < |rounds| ==> !LateAt(start, rounds, task, m)
    decreases |rounds|
  {
    if j == |rounds| {
      assert rounds[..j] == rounds;
    } else {
      var init := rounds[..|rounds| - 1];
      assert init[..j] == rounds[..j];
      QuietRound(start, rounds, task, j);
      QuietUntil(start, init, period, task, j);
      assert rounds[..|rounds|] == rounds;
      LateAtOfPrefix(start, rounds, task, |init|);
    }
  }

  lemma {:induction false} LateInTime(start: nat, rounds: seq<Round>, period: nat, task: nat, j: nat) returns (n: nat)
    requires WellTimed(start, rounds, period) && j <= |rounds| && QuietFrom(rounds, task, j)
    requires LastCheck(start, rounds) > Since(start, rounds[..j], task) + TIMEOUT
    ensures j <= n < |rounds| && LateAt(start, rounds, task, n)
    ensures var t := Since(start, rounds[..j], task); t + TIMEOUT < rounds[n].check <= t + TIMEOUT + period
    ensures forall m :: j <= m < n ==> !LateAt(start, rounds, task, m)
    decreases |rounds|
  {
    WellTimedPrefix(start, rounds, period, j);
    assert rounds[..|rounds|] == rounds;
    TimersRecent(start, rounds[..j], period, task);
    var init := rounds[..|rounds| - 1];
    assert init[..j] == rounds[..j];
    QuietRound(start, rounds, task, j);
    LateAtOfPrefix(start, rounds, task, |init|);
    if j < |init| && LastCheck(start, init) > Since(start, rounds[..j], task) + TIMEOUT {
      n := LateInTime(start, init, period, task, j);
    } else {
      QuietUntil(start, init, period, task, j);
      n := |init|;
    }
  }

  /** A task silent since `t` is reported: once a check has come more than 8000 ms after `t`, some check in
      (t + 8000, t + 8000 + period] raised its alarm, and no check before that did. */
  lemma SilenceReportedInTime(start: nat, rounds: seq<Round>, period: nat, modulus: nat, task: nat, j: nat)
      returns (n: nat)
    requires WellTimed(start, rounds, period) && TIMEOUT + period < modulus && task < TASK_ID_MAX
    requires j <= |rounds| && QuietFrom(rounds, task, j)
    requires LastCheck(start, rounds) > Since(start, rounds[..j], task) + TIMEOUT
    ensures j <= n < |rounds| && RaisedAt(start, rounds, modulus, task, n)
    ensures var t := Since(start, rounds[..j], task); t + TIMEOUT < rounds[n].check <= t + TIMEOUT + period
    ensures forall m :: j <= m < n ==> !RaisedAt(start, rounds, modulus, task, m)
  {
    n := LateInTime(start, rounds, period, task, j);
    forall m | j <= m <= n ensures RaisedAt(start, rounds, modulus, task, m) == LateAt(start, rounds, task, m) {
      RaisedAtIffLateAt(start, rounds, period, modulus, task, m);
    }
  }

  lemma {:induction false} SinceGrows(start: nat, rounds: seq<Round>, period: nat, task: nat, m: nat)
    requires WellTimed(start, rounds, period) && m <= |rounds|
    ensures Since(start, rounds[..m], task) <= Since(start, rounds, task)
    decreases |rounds|, 2
  {
    if m == |rounds| {
      assert rounds[..m] == rounds;
    } else {
      LaterTimer(start, rounds, period, task, m);
      TimersRecent(start, rounds, period, task);
    }
  }

  lemma LaterTimer(start: nat, rounds: seq<Round>, period: nat, task: nat, m: nat)
    requires WellTimed(start, rounds, period) && m < |rounds|
    ensures Since(start, rounds[..m], task) <= BeforeCheck(start, rounds, task)
    decreases |rounds|, 1
  {
    var init, r := rounds[..|rounds| - 1], rounds[|rounds| - 1];
    assert init[..m] == rounds[..m];
    SinceGrows(start, init, period, task, m);
    TimersRecent(start, init, period, task);
    LastSignBetween(Since(start, init, task), r.beats, task, LastCheck(start, init), r.check);
  }

  lemma LateTwice(start: nat, rounds: seq<Round>, period: nat, task: nat, m: nat)
    requires WellTimed(start, rounds, period) && m + 1 < |rounds| && LateAt(start, rounds, task, m)
             && Late(start, rounds, task)
    ensures LastCheck(start, rounds) > rounds[m].check + TIMEOUT
  {
    LaterTimer(start, rounds, period, task, m + 1);
  }

  lemma LateTwiceAt(start: nat, rounds: seq<Round>, period: nat, task: nat, m: nat, n: nat)
    requires WellTimed(start, rounds, period) && m < n < |rounds| && LateAt(start, rounds, task, m)
             && LateAt(start, rounds, task, n)
    ensures rounds[n].check > rounds[m].check + TIMEOUT
  {
    var run := rounds[..n + 1];
    WellTimedPrefix(start, rounds, period, n + 1);
    LateAtOfPrefix(start, rounds, task, n + 1);
    assert LateAt(start, run, task, m) && Late(start, run, task);
    LateTwice(start, run, period, task, m);
  }

  /** Two alarms for one task are more than 8000 ms apart. */
  lemma AlarmsAreApart(start: nat, rounds: seq<Round>, period: nat, modulus: nat, task: nat, m: nat, n: nat)
    requires WellTimed(start, rounds, period) && TIMEOUT + period < modulus && task < TASK_ID_MAX
    requires m < n < |rounds| && RaisedAt(start, rounds, modulus, task, m) && RaisedAt(start, rounds, modulus, task, n)
    ensures rounds[n].check > rounds[m].check + TIMEOUT
  {
    RaisedAtIffLateAt(start, rounds, period, modulus, task, m);
    RaisedAtIffLateAt(start, rounds, period, modulus, task, n);
    LateTwiceAt(start, rounds, period, task, m, n);
  }
}
