/** The subscriptions made before the scheduler runs (main.c, watchdog_task.c, app_tasks.c). */
module AppWiring {
  import opened Common
  import opened EventBus
  import L = FrameLifetime
  import D = FrameDraining

  const LOGGER: nat := 0
  const STORAGE: nat := 1
  const CLOUD: nat := 2
  const CONFIG: nat := 3
  const HEALTH: nat := 4
  const WATCHDOG: nat := 5

  /** The topics each queue is subscribed to, by number and in the order of the calls. */
  const STORAGE_TOPICS: seq<nat> :=
    [TOPIC_SENSOR_READING, TOPIC_THRESHOLD_CROSSED, TOPIC_SYSTEM_FAULT, TOPIC_SECURITY_EVENT,
     TOPIC_ACTUATOR_STATUS, TOPIC_DIAGNOSTIC_REPORT, TOPIC_FRAME_READY]
  const CLOUD_TOPICS: seq<nat> :=
    [TOPIC_SENSOR_READING, TOPIC_DEVICE_STATUS, TOPIC_SYSTEM_FAULT, TOPIC_DIAGNOSTIC_REPORT,
     TOPIC_ACTUATOR_STATUS, TOPIC_ACTUATOR_COMMAND, TOPIC_NETWORK_STATUS, TOPIC_FRAME_READY]
  const CONFIG_TOPICS: seq<nat> := [TOPIC_CONFIG_UPDATE]
  const HEALTH_TOPICS: seq<nat> :=
    [TOPIC_SYSTEM_FAULT, TOPIC_THRESHOLD_CROSSED, TOPIC_NETWORK_STATUS, TOPIC_POWER_EVENT,
     TOPIC_DIAGNOSTIC_REPORT, TOPIC_SECURITY_EVENT]

  predicate Distinct(topics: seq<nat>) {
    forall i, j :: 0 <= i < j < |topics| ==> topics[i] != topics[j]
  }

  function One(wanted: bool, q: nat): seq<nat> {
    if wanted then [q] else []
  }

  /** The slots of a topic after the logger's subscription and those of the lists of four queues. */
  function SlotsWith(before: seq<nat>, topic: nat, storage: seq<nat>, cloud: seq<nat>, config: seq<nat>,
                     health: seq<nat>): seq<nat>
  {
    before + One(topic != TOPIC_HEARTBEAT, LOGGER) + One(topic in storage, STORAGE) + One(topic in cloud, CLOUD)
    + One(topic in config, CONFIG) + One(topic in health, HEALTH)
  }

  /** The slots of a topic after AppTasks_Start. */
  function Slots(before: seq<nat>, topic: nat): seq<nat> {
    SlotsWith(before, topic, STORAGE_TOPICS, CLOUD_TOPICS, CONFIG_TOPICS, HEALTH_TOPICS)
  }

  method SubscribeLogger(bus: Bus)
    requires bus.Valid() && LOGGER < |bus.caps|
    requires forall t :: 0 <= t < TOPIC_MAX && t != TOPIC_HEARTBEAT
               ==> |bus.topics[t].subscribers| < MAX_SUBSCRIBERS_PER_TOPIC
    modifies bus.topics
    ensures bus.Valid()
    ensures forall t :: 0 <= t < TOPIC_MAX ==>
              bus.topics[t].subscribers == old(bus.topics[t]).subscribers + One(t != TOPIC_HEARTBEAT, LOGGER)
  {
    var topic := 0;
    while topic < TOPIC_MAX
      invariant topic <= TOPIC_MAX && bus.Valid()
      invariant forall t :: 0 <= t < topic ==>
                  bus.topics[t].subscribers == old(bus.topics[t]).subscribers + One(t != TOPIC_HEARTBEAT, LOGGER)
      invariant forall t :: topic <= t < TOPIC_MAX ==> bus.topics[t] == old(bus.topics[t])
    {
      if topic != TOPIC_HEARTBEAT {
        var _ := bus.Subscribe(topic, LOGGER);
      }
      topic := topic + 1;
    }
  }

  method SubscribeEach(bus: Bus, topics: seq<nat>, q: nat)
    requires bus.Valid() && q < |bus.caps| && Distinct(topics)
    requires forall i :: 0 <= i < |topics| ==> topics[i] < TOPIC_MAX
    requires forall t :: 0 <= t < TOPIC_MAX && t in topics ==> |bus.topics[t].subscribers| < MAX_SUBSCRIBERS_PER_TOPIC
    modifies bus.topics
    ensures bus.Valid()
    ensures forall t :: 0 <= t < TOPIC_MAX
              ==> bus.topics[t].subscribers == old(bus.topics[t]).subscribers + One(t in topics, q)
  {
    var i := 0;
    while i < |topics|
      invariant i <= |topics| && bus.Valid()
      invariant forall t :: 0 <= t < TOPIC_MAX ==>
                  bus.topics[t].subscribers == old(bus.topics[t]).subscribers + One(t in topics[..i], q)
    {
      assert topics[..i + 1] == topics[..i] + [topics[i]];
      var _ := bus.Subscribe(topics[i], q);
      i := i + 1;
    }
    assert topics[..i] == topics;
  }

  predicate TopicList(topics: seq<nat>) {
    Distinct(topics) && forall i :: 0 <= i < |topics| ==> topics[i] < TOPIC_MAX
  }

  method SubscribeLists(bus: Bus, storage: seq<nat>, cloud: seq<nat>, config: seq<nat>, health: seq<nat>)
    requires bus.Valid() && |bus.caps| > HEALTH && TopicList(storage) && TopicList(cloud) && TopicList(config)
             && TopicList(health)
    requires forall t :: 0 <= t < TOPIC_MAX ==>
               |SlotsWith(bus.topics[t].subscribers, t, storage, cloud, config, health)| <= MAX_SUBSCRIBERS_PER_TOPIC
    modifies bus.topics
    ensures bus.Valid()
    ensures forall t :: 0 <= t < TOPIC_MAX ==>
              bus.topics[t].subscribers == SlotsWith(old(bus.topics[t]).subscribers, t, storage, cloud, config, health)
  {
    SubscribeLogger(bus);
    SubscribeEach(bus, storage, STORAGE);
    SubscribeEach(bus, cloud, CLOUD);
    SubscribeEach(bus, config, CONFIG);
    SubscribeEach(bus, health, HEALTH);
  }

  /** AppTasks_Start: with room for them, all its subscriptions succeed. */
  method SubscribeAll(bus: Bus)
    requires bus.Valid() && |bus.caps| > HEALTH
    requires forall t :: 0 <= t < TOPIC_MAX ==> |Slots(bus.topics[t].subscribers, t)| <= MAX_SUBSCRIBERS_PER_TOPIC
    modifies bus.topics
    ensures bus.Valid()
    ensures forall t :: 0 <= t < TOPIC_MAX ==> bus.topics[t].subscribers == Slots(old(bus.topics[t]).subscribers, t)
  {
    SubscribeLists(bus, STORAGE_TOPICS, CLOUD_TOPICS, CONFIG_TOPICS, HEALTH_TOPICS);
  }

  // ---- Who hears what in the application, in the order of the calls ----

  predicate WiredLow(topics: seq<Topic>)
    requires |topics| == TOPIC_MAX
  {
    && topics[TOPIC_TEMP_UPDATE].subscribers == [LOGGER]
    && topics[TOPIC_BUTTON_PRESS].subscribers == [LOGGER]
    && topics[TOPIC_SYSTEM_FAULT].subscribers == [LOGGER, STORAGE, CLOUD, HEALTH]
    && topics[TOPIC_HEARTBEAT].subscribers == [WATCHDOG]
    && topics[TOPIC_SENSOR_READING].subscribers == [LOGGER, STORAGE, CLOUD]
    && topics[TOPIC_THRESHOLD_CROSSED].subscribers == [LOGGER, STORAGE, HEALTH]
  }

  predicate WiredMiddle(topics: seq<Topic>)
    requires |topics| == TOPIC_MAX
  {
    && topics[TOPIC_DEVICE_STATUS].subscribers == [LOGGER, CLOUD]
    && topics[TOPIC_CONFIG_UPDATE].subscribers == [LOGGER, CONFIG]
    && topics[TOPIC_COMMAND_RECEIVED].subscribers == [LOGGER]
    && topics[TOPIC_ACTUATOR_COMMAND].subscribers == [LOGGER, CLOUD]
    && topics[TOPIC_ACTUATOR_STATUS].subscribers == [LOGGER, STORAGE, CLOUD]
    && topics[TOPIC_STORAGE_LOG].subscribers == [LOGGER]
  }

  predicate WiredHigh(topics: seq<Topic>)
    requires |topics| == TOPIC_MAX
  {
    && topics[TOPIC_NETWORK_STATUS].subscribers == [LOGGER, CLOUD, HEALTH]
    && topics[TOPIC_DIAGNOSTIC_REPORT].subscribers == [LOGGER, STORAGE, CLOUD, HEALTH]
    && topics[TOPIC_POWER_EVENT].subscribers == [LOGGER, HEALTH]
    && topics[TOPIC_OTA_EVENT].subscribers == [LOGGER]
    && topics[TOPIC_SECURITY_EVENT].subscribers == [LOGGER, STORAGE, HEALTH]
    && topics[TOPIC_FRAME_READY].subscribers == [LOGGER, STORAGE, CLOUD]
  }

  predicate Wired(topics: seq<Topic>) {
    |topics| == TOPIC_MAX && WiredLow(topics) && WiredMiddle(topics) && WiredHigh(topics)
  }

  /** Start-up in the order of main: the bus, the watchdog, the application. Only the watchdog hears
      heartbeats, and the descriptor of a frame goes to three queues: the logger's, the storage task's
      and the cloud task's, once each. */
  method StartUp(caps: seq<nat>) returns (bus: Bus)
    requires |caps| > WATCHDOG
    ensures bus.Valid() && bus.caps == caps
    ensures forall t :: 0 <= t < TOPIC_MAX && t != TOPIC_HEARTBEAT ==> bus.topics[t].subscribers == Slots([], t)
    ensures bus.topics[TOPIC_HEARTBEAT].subscribers == [WATCHDOG]
    ensures bus.topics[TOPIC_FRAME_READY].subscribers == [LOGGER, STORAGE, CLOUD]
    ensures Wired(bus.topics[..])
    ensures forall q :: Occurrences(bus.topics[TOPIC_SYSTEM_FAULT].subscribers, q) <= 1
  {
    bus := new Bus(caps);
    var _ := bus.Subscribe(TOPIC_HEARTBEAT, WATCHDOG);
    SubscribeAll(bus);
    assert Slots([], TOPIC_FRAME_READY) == [LOGGER, STORAGE, CLOUD];
    assert forall t :: 0 <= t < TOPIC_MAX ==> bus.topics[..][t] == bus.topics[t];
    SlotsAreWired(bus.topics[..]);
    FaultsHeardOnce();
  }

  predicate FromLists(topics: seq<Topic>) {
    && |topics| == TOPIC_MAX && topics[TOPIC_HEARTBEAT].subscribers == [WATCHDOG]
    && forall t :: 0 <= t < TOPIC_MAX && t != TOPIC_HEARTBEAT ==> topics[t].subscribers == Slots([], t)
  }

  lemma LowFromLists(topics: seq<Topic>)
    requires FromLists(topics)
    ensures WiredLow(topics)
  {
  }

  lemma MiddleFromLists(topics: seq<Topic>)
    requires FromLists(topics)
    ensures WiredMiddle(topics)
  {
  }

  lemma HighFromLists(topics: seq<Topic>)
    requires FromLists(topics)
    ensures WiredHigh(topics)
  {
  }

  lemma SlotsAreWired(topics: seq<Topic>)
    requires FromLists(topics)
    ensures Wired(topics)
  {
    LowFromLists(topics);
    MiddleFromLists(topics);
    HighFromLists(topics);
  }

  lemma {:induction false} DistinctHearOnce(subs: seq<nat>, q: nat)
    requires Distinct(subs)
    ensures Occurrences(subs, q) == if q in subs then 1 else 0
  {
    if subs != [] {
      assert subs == [subs[0]] + subs[1..];
      DistinctHearOnce(subs[1..], q);
    }
  }

  /** No queue gets a fault twice, so what Watchdog.Monitor.Check says of queues subscribed at most once is said
      of every queue. */
  lemma FaultsHeardOnce()
    ensures forall q :: Occurrences([LOGGER, STORAGE, CLOUD, HEALTH], q) <= 1
  {
    forall q ensures Occurrences([LOGGER, STORAGE, CLOUD, HEALTH], q) <= 1 {
      DistinctHearOnce([LOGGER, STORAGE, CLOUD, HEALTH], q);
    }
  }

  /** The application's wiring for frames: each of the three queues is emptied by a task of its own, so by
      FrameDraining.DrainsIffServed its pool can always be drained. */
  lemma FrameQueuesServed(caps: seq<nat>)
    requires |caps| > WATCHDOG
    ensures var w := L.Wiring(Slots([], TOPIC_FRAME_READY), caps, [LOGGER, STORAGE, CLOUD]);
            L.WiringOk(w) && D.Served(w)
  {
    var w := L.Wiring(Slots([], TOPIC_FRAME_READY), caps, [LOGGER, STORAGE, CLOUD]);
    assert w.subs == [LOGGER, STORAGE, CLOUD];
  }
}
