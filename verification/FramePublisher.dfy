/** publishFrameReady (app_tasks.c) run to completion on the pool and the bus. */
module FramePublisher {
  import opened Common
  import opened Sums
  import opened PayloadPool
  import opened EventBus
  import FrameLifetime

  const PRIORITY_NORMAL: nat := 1
  const PRIORITY_HIGH: nat := 2

  function MakeEvent(topic: nat, source: nat, priority: nat, now: nat, sequence: nat): Event {
    Event(topic, now, 0, sequence, priority, source, 0, 0, 0, Null)
  }

  /** The two events publishFrameReady can publish, before the bus gives them an id. */
  function FrameReadyEvent(now: nat, taskSequence: nat, slot: nat): Event {
    MakeEvent(TOPIC_FRAME_READY, TASK_ID_SENSOR_MANAGER, PRIORITY_HIGH, now, taskSequence).(frame := Descriptor(slot))
  }

  function SimpleEvent(topic: nat, value0: nat, value1: nat, now: nat, taskSequence: nat): Event {
    MakeEvent(topic, TASK_ID_HEALTH_MANAGER, PRIORITY_NORMAL, now, taskSequence).(p0 := value0, p1 := value1)
  }

  class Publisher {
    const pool: Pool
    const bus: Bus
    const taskSequences: array<nat>

    ghost predicate Valid()
      reads this, pool, pool.blocks, bus, bus.topics, bus.queues, taskSequences
    {
      pool.Valid() && bus.Valid() && taskSequences.Length == TASK_ID_MAX
      && forall i :: 0 <= i < TASK_ID_MAX ==> taskSequences[i] < U32
    }

    constructor (pool: Pool, bus: Bus)
      requires pool.Valid() && bus.Valid()
      ensures Valid() && this.pool == pool && this.bus == bus && fresh(taskSequences)
    {
      this.pool := pool;
      this.bus := bus;
      this.taskSequences := new nat[TASK_ID_MAX](i => 0);
    }

    method NextEvent(topic: nat, source: nat, priority: nat, now: nat) returns (e: Event)
      requires taskSequences.Length == TASK_ID_MAX && source < TASK_ID_MAX
      modifies taskSequences
      ensures taskSequences[..] == old(taskSequences[..])[source := Increment(old(taskSequences[source]))]
      ensures e == MakeEvent(topic, source, priority, now, taskSequences[source])
      ensures e == Event(topic, now, 0, taskSequences[source], priority, source, 0, 0, 0, Null)
    {
      taskSequences[source] := Increment(taskSequences[source]);
      e := MakeEvent(topic, source, priority, now, taskSequences[source]);
    }

    /** publishSimple: a status event in the health manager's name. */
    method PublishSimple(topic: nat, value0: nat, value1: nat, now: nat)
      requires Valid() && topic < TOPIC_MAX
      modifies taskSequences, bus, bus.topics, bus.queues
      ensures Valid()
      ensures var n := Increment(old(taskSequences[TASK_ID_HEALTH_MANAGER]));
              var e := SimpleEvent(topic, value0, value1, now, n);
              var r := Published(old(bus.topics[topic]), bus.caps, old(bus.queues[..]), old(bus.dropCount),
                                 Routed(e, old(bus.nextEventId)));
              && taskSequences[..] == old(taskSequences[..])[TASK_ID_HEALTH_MANAGER := n]
              && bus.queues[..] == r.queues && bus.dropCount == r.dropCount
              && bus.topics[..] == old(bus.topics[..])[topic := old(bus.topics[topic]).(stats := r.stats)]
              && bus.nextEventId == Increment(old(bus.nextEventId))
      ensures OnlyAdds(old(bus.queues[..]), bus.queues[..],
                       Event(topic, now, old(bus.nextEventId), taskSequences[TASK_ID_HEALTH_MANAGER], PRIORITY_NORMAL,
                             TASK_ID_HEALTH_MANAGER, value0, value1, 0, Null))
    {
      var e := NextEvent(topic, TASK_ID_HEALTH_MANAGER, PRIORITY_NORMAL, now);
      PublishOnlyAdds(bus.topics[topic], bus.caps, bus.queues[..], bus.dropCount,
                      Routed(e.(p0 := value0, p1 := value1), bus.nextEventId));
      var _, _ := bus.PublishWithCount(e.(p0 := value0, p1 := value1));
    }

    /** Frees the references of the sends that were refused. */
    method FreeRefused(frame: Pointer, sentCount: nat, subscriberCount: nat)
      requires pool.Valid() && frame.Descriptor? && frame.slot < BLOCKS
      requires sentCount <= subscriberCount && 0 < subscriberCount
      requires pool.blocks[frame.slot].inUse && pool.blocks[frame.slot].refCount == subscriberCount
      modifies pool.blocks
      ensures pool.Valid()
      ensures pool.blocks[..] == old(pool.blocks[..])[frame.slot :=
                if sentCount == 0 then ZERO_BLOCK else old(pool.blocks[frame.slot]).(refCount := sentCount)]
    {
      var i := sentCount;
      ghost var b := pool.blocks[frame.slot];
      while i < subscriberCount
        invariant sentCount <= i <= subscriberCount && pool.Valid()
        invariant pool.blocks[..] == old(pool.blocks[..])[frame.slot :=
                    if subscriberCount + sentCount == i then ZERO_BLOCK
                    else b.(refCount := subscriberCount + sentCount - i)]
      {
        pool.Free(frame);
        i := i + 1;
      }
    }

    /** Publishes the descriptor and frees the references of the sends that were refused. */
    method SendFrame(frame: Pointer, subscriberCount: nat, now: nat) returns (sent: nat)
      requires Valid() && frame.Descriptor? && frame.slot < BLOCKS
      requires subscriberCount == |bus.topics[TOPIC_FRAME_READY].subscribers| > 0
      requires pool.blocks[frame.slot].inUse && pool.blocks[frame.slot].refCount == subscriberCount
      modifies taskSequences, bus, bus.topics, bus.queues, pool.blocks
      ensures Valid()
      ensures pool.blocks[..] == old(pool.blocks[..])[frame.slot :=
                if sent == 0 then ZERO_BLOCK else old(pool.blocks[frame.slot]).(refCount := sent)]
      ensures var n := Increment(old(taskSequences[TASK_ID_SENSOR_MANAGER]));
              var r := Published(old(bus.topics[TOPIC_FRAME_READY]), bus.caps, old(bus.queues[..]), old(bus.dropCount),
                                 Routed(FrameReadyEvent(now, n, frame.slot), old(bus.nextEventId)));
              && sent == r.accepted && bus.queues[..] == r.queues && bus.dropCount == r.dropCount
              && bus.topics[..]
                 == old(bus.topics[..])[TOPIC_FRAME_READY := old(bus.topics[TOPIC_FRAME_READY]).(stats := r.stats)]
              && bus.nextEventId == Increment(old(bus.nextEventId))
              && taskSequences[..] == old(taskSequences[..])[TASK_ID_SENSOR_MANAGER := n]
      ensures OnlyAdds(old(bus.queues[..]), bus.queues[..],
                       Event(TOPIC_FRAME_READY, now, old(bus.nextEventId), taskSequences[TASK_ID_SENSOR_MANAGER],
                             PRIORITY_HIGH, TASK_ID_SENSOR_MANAGER, 0, 0, 0, frame))
      ensures Sum(bus.queues[..], Length()) == Sum(old(bus.queues[..]), Length()) + sent
    {
      var evt := NextEvent(TOPIC_FRAME_READY, TASK_ID_SENSOR_MANAGER, PRIORITY_HIGH, now);
      ghost var stats := bus.topics[TOPIC_FRAME_READY].stats;
      ghost var before := FanOut(bus.queues[..],
                                 stats.(published := Increment(stats.published), subscribers := subscriberCount),
                                 bus.dropCount, 0, true);
      FanOutConserves(bus.topics[TOPIC_FRAME_READY].subscribers, bus.caps,
                      Routed(evt.(frame := frame), bus.nextEventId), before);
      PublishOnlyAdds(bus.topics[TOPIC_FRAME_READY], bus.caps, bus.queues[..], bus.dropCount,
                      Routed(evt.(frame := frame), bus.nextEventId));
      var _, sentCount := bus.PublishWithCount(evt.(frame := frame));
      sent := sentCount;
      FreeRefused(frame, sentCount, subscriberCount);
    }

    /** From reading the subscriber count on, with a descriptor that has been filled in. */
    method Announce(frame: Pointer, now: nat) returns (sent: nat)
      requires Valid() && frame.Descriptor? && frame.slot < BLOCKS
      requires pool.blocks[frame.slot].inUse && pool.blocks[frame.slot].refCount == 1
      modifies taskSequences, bus, bus.topics, bus.queues, pool.blocks
      ensures Valid()
      ensures pool.blocks[..] == old(pool.blocks[..])[frame.slot :=
                if sent == 0 then ZERO_BLOCK else old(pool.blocks[frame.slot]).(refCount := sent)]
      ensures if |old(bus.topics[TOPIC_FRAME_READY]).subscribers| == 0 then
                sent == 0 && bus.queues[..] == old(bus.queues[..]) && bus.topics[..] == old(bus.topics[..])
                && bus.dropCount == old(bus.dropCount) && bus.nextEventId == old(bus.nextEventId)
                && taskSequences[..] == old(taskSequences[..])
              else
                var n := Increment(old(taskSequences[TASK_ID_SENSOR_MANAGER]));
                var r := Published(old(bus.topics[TOPIC_FRAME_READY]), bus.caps, old(bus.queues[..]),
                                   old(bus.dropCount),
                                   Routed(FrameReadyEvent(now, n, frame.slot), old(bus.nextEventId)));
                && sent == r.accepted && bus.queues[..] == r.queues && bus.dropCount == r.dropCount
                && bus.topics[..]
                   == old(bus.topics[..])[TOPIC_FRAME_READY := old(bus.topics[TOPIC_FRAME_READY]).(stats := r.stats)]
                && bus.nextEventId == Increment(old(bus.nextEventId))
                && taskSequences[..] == old(taskSequences[..])[TASK_ID_SENSOR_MANAGER := n]
      ensures OnlyAdds(old(bus.queues[..]), bus.queues[..],
                       Event(TOPIC_FRAME_READY, now, old(bus.nextEventId), taskSequences[TASK_ID_SENSOR_MANAGER],
                             PRIORITY_HIGH, TASK_ID_SENSOR_MANAGER, 0, 0, 0, frame))
      ensures Sum(bus.queues[..], Length()) == Sum(old(bus.queues[..]), Length()) + sent
    {
      sent := 0;
      var subscriberCount := bus.GetSubscriberCount(TOPIC_FRAME_READY);
      if subscriberCount == 0 {
        pool.Free(frame);
        return;
      }
      pool.SetRefCount(frame, subscriberCount);
      sent := SendFrame(frame, subscriberCount, now);
    }

    /** With no consumer running meanwhile, the call leaves the block it took counted to exactly the
        number of queues that accepted the pointer (or free again if none did), every other block as
        it was, and the queues as the fan-out specifies. */
    method PublishFrameReady(sequence: nat, now: nat) returns (taken: Pointer, sent: nat)
      requires Valid()
      modifies taskSequences, bus, bus.topics, bus.queues, pool.blocks
      ensures Valid()
      ensures taken == Null <==> FirstFree(old(pool.blocks[..])) == BLOCKS
      ensures taken != Null ==> taken == Descriptor(FirstFree(old(pool.blocks[..])))
      ensures pool.blocks[..] == if taken == Null || sent == 0 then old(pool.blocks[..])
                                 else old(pool.blocks[..])[taken.slot :=
                                        Block(FrameLifetime.FrameFor(sequence), true, sent)]
      ensures if taken != Null && |old(bus.topics[TOPIC_FRAME_READY]).subscribers| == 0 then
                sent == 0 && bus.queues[..] == old(bus.queues[..]) && bus.topics[..] == old(bus.topics[..])
                && bus.dropCount == old(bus.dropCount) && bus.nextEventId == old(bus.nextEventId)
                && taskSequences[..] == old(taskSequences[..])
              else
                var topic := if taken == Null then TOPIC_SYSTEM_FAULT else TOPIC_FRAME_READY;
                var source := if taken == Null then TASK_ID_HEALTH_MANAGER else TASK_ID_SENSOR_MANAGER;
                var n := Increment(old(taskSequences[source]));
                var e := if taken == Null then SimpleEvent(TOPIC_SYSTEM_FAULT, TASK_ID_SENSOR_MANAGER, 1, now, n)
                         else FrameReadyEvent(now, n, taken.slot);
                var r := Published(old(bus.topics[topic]), bus.caps, old(bus.queues[..]), old(bus.dropCount),
                                   Routed(e, old(bus.nextEventId)));
                sent == (if taken == Null then 0 else r.accepted) && bus.queues[..] == r.queues
                && bus.topics[..] == old(bus.topics[..])[topic := old(bus.topics[topic]).(stats := r.stats)]
                && bus.dropCount == r.dropCount && bus.nextEventId == Increment(old(bus.nextEventId))
                && taskSequences[..] == old(taskSequences[..])[source := n]
      ensures taken != Null ==> OnlyAdds(old(bus.queues[..]), bus.queues[..],
                Event(TOPIC_FRAME_READY, now, old(bus.nextEventId), taskSequences[TASK_ID_SENSOR_MANAGER],
                      PRIORITY_HIGH, TASK_ID_SENSOR_MANAGER, 0, 0, 0, taken))
      ensures taken != Null && sent > 0 ==>
                var d := pool.blocks[taken.slot].payload;
                && d.framePtr == (if sequence % 2 == 1 then FrameLifetime.DMA_FRAME_A else FrameLifetime.DMA_FRAME_B)
                && d.frameSize == 1920 * 1080 * 2 && d.sequence == sequence && d.sourceId == 1
      ensures taken != Null ==> Sum(bus.queues[..], Length()) == Sum(old(bus.queues[..]), Length()) + sent
      ensures taken == Null ==> OnlyAdds(old(bus.queues[..]), bus.queues[..],
                Event(TOPIC_SYSTEM_FAULT, now, old(bus.nextEventId), taskSequences[TASK_ID_HEALTH_MANAGER],
                      PRIORITY_NORMAL, TASK_ID_HEALTH_MANAGER, TASK_ID_SENSOR_MANAGER, 1, 0, Null))
    {
      sent := 0;
      taken := pool.Alloc();
      if taken == Null {
        PublishSimple(TOPIC_SYSTEM_FAULT, TASK_ID_SENSOR_MANAGER, 1, now);
        return;
      }
      var frame := taken.slot;
      pool.blocks[frame] := pool.blocks[frame].(payload := FrameLifetime.FrameFor(sequence));
      sent := Announce(taken, now);
    }
  }
}
