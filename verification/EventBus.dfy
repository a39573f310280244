/** The topic-based event bus (event_bus.c): subscriptions, fan-out and statistics. */
module EventBus {
  import opened Common
  import opened Sums
  import opened PayloadPool

  const MAX_SUBSCRIBERS_PER_TOPIC: nat := 6

  /** The routed event. Of the 16 payload bytes, the model keeps the three that consumers print and
      the descriptor pointer that FRAME_READY packs into them. */
  datatype Event = Event(topic: nat, timestamp: nat, eventId: nat, sequence: nat, priority: nat,
                         sourceTask: nat, p0: nat, p1: nat, p2: nat, frame: Pointer)

  datatype Stats = Stats(published: nat, delivered: nat, dropped: nat, subscribers: nat, maxQueueDepth: nat)

  /** One registry entry. `subscribers` lists the queue handles of the occupied slots. */
  datatype Topic = Topic(subscribers: seq<nat>, stats: Stats)

  const EMPTY_TOPIC := Topic([], Stats(0, 0, 0, 0, 0))

  function Increment(n: nat): nat {
    (n + 1) % U32
  }

  // ---- Fan-out as a function ----

  /** What the fan-out loop has built up so far. */
  datatype FanOut = FanOut(queues: seq<seq<Event>>, stats: Stats, dropCount: nat, accepted: nat, ok: bool)

  predicate Fits(subs: seq<nat>, caps: seq<nat>, queues: seq<seq<Event>>) {
    |queues| == |caps| && forall k :: 0 <= k < |subs| ==> subs[k] < |caps|
  }

  /** Offering the event to one slot's queue without waiting. */
  function Offer(q: nat, caps: seq<nat>, e: Event, f: FanOut): (r: FanOut)
    requires q < |f.queues| == |caps|
    ensures |r.queues| == |f.queues|
  {
    if |f.queues[q]| < caps[q] then
      var depth := |f.queues[q]| + 1;
      f.(queues := f.queues[q := f.queues[q] + [e]],
         stats := f.stats.(delivered := Increment(f.stats.delivered),
                           maxQueueDepth := if depth > f.stats.maxQueueDepth
                                            then depth % 256 else f.stats.maxQueueDepth),
         accepted := f.accepted + 1)
    else
      f.(stats := f.stats.(dropped := Increment(f.stats.dropped)), dropCount := Increment(f.dropCount), ok := false)
  }

  function OfferAll(subs: seq<nat>, caps: seq<nat>, e: Event, f: FanOut): (r: FanOut)
    requires Fits(subs, caps, f.queues)
    ensures |r.queues| == |f.queues|
  {
    if subs == [] then f else OfferAll(subs[1..], caps, e, Offer(subs[0], caps, e, f))
  }

  function Routed(e: Event, nextEventId: nat): Event {
    if e.eventId == 0 then e.(eventId := nextEventId) else e
  }

  /** A whole publish, from the topic's entry, the queues and the drop count as it finds them. */
  function Published(t: Topic, caps: seq<nat>, queues: seq<seq<Event>>, dropCount: nat, e: Event): (r: FanOut)
    requires Fits(t.subscribers, caps, queues)
    ensures |r.queues| == |queues|
  {
    OfferAll(t.subscribers, caps, e,
             FanOut(queues, t.stats.(published := Increment(t.stats.published), subscribers := |t.subscribers|),
                    dropCount, 0, true))
  }

  /** The bus as one value. */
  datatype Contents = Contents(topics: seq<Topic>, queues: seq<seq<Event>>, dropCount: nat, nextEventId: nat)

  predicate BusOk(b: Contents, caps: seq<nat>) {
    |b.topics| == TOPIC_MAX && |b.queues| == |caps|
    && forall t :: 0 <= t < TOPIC_MAX ==> Fits(b.topics[t].subscribers, caps, b.queues)
  }

  function AfterPublish(b: Contents, caps: seq<nat>, e: Event): (r: Contents)
    requires BusOk(b, caps) && e.topic < TOPIC_MAX
    ensures BusOk(r, caps)
  {
    var f := Published(b.topics[e.topic], caps, b.queues, b.dropCount, Routed(e, b.nextEventId));
    Contents(b.topics[e.topic := b.topics[e.topic].(stats := f.stats)], f.queues, f.dropCount,
             if e.eventId == 0 then Increment(b.nextEventId) else b.nextEventId)
  }

  /** Several events, published one after the other. */
  function AfterPublishAll(b: Contents, caps: seq<nat>, es: seq<Event>): (r: Contents)
    requires BusOk(b, caps) && forall i :: 0 <= i < |es| ==> es[i].topic < TOPIC_MAX
    ensures BusOk(r, caps)
    decreases |es|
  {
    if es == [] then b else AfterPublish(AfterPublishAll(b, caps, es[..|es| - 1]), caps, es[|es| - 1])
  }

  function AfterSubscribe(t: Topic, q: nat): Topic {
    if |t.subscribers| >= MAX_SUBSCRIBERS_PER_TOPIC then t
    else Topic(t.subscribers + [q], t.stats.(subscribers := |t.subscribers| + 1))
  }

  // ---- The bus itself ----

  class Bus {
    const topics: array<Topic>
    /** Contents of every queue, oldest first, and how many events each may hold. */
    const queues: array<seq<Event>>
    const caps: seq<nat>
    var dropCount: nat
    var nextEventId: nat

    ghost predicate Valid()
      reads this, topics, queues
    {
      && topics.Length == TOPIC_MAX && queues.Length == |caps|
      && dropCount < U32 && nextEventId < U32
      && (forall q :: 0 <= q < queues.Length ==> |queues[q]| <= caps[q])
      && (forall t :: 0 <= t < TOPIC_MAX ==>
            |topics[t].subscribers| <= MAX_SUBSCRIBERS_PER_TOPIC && Fits(topics[t].subscribers, caps, queues[..]))
    }

    ghost function State(): Contents
      reads this, topics, queues
    {
      Contents(topics[..], queues[..], dropCount, nextEventId)
    }

    constructor (caps: seq<nat>)
      ensures Valid() && fresh(topics) && fresh(queues) && this.caps == caps
      ensures topics[..] == seq(TOPIC_MAX, t => EMPTY_TOPIC) && queues[..] == seq(|caps|, q => [])
      ensures dropCount == 0 && nextEventId == 1
    {
      topics := new Topic[TOPIC_MAX](t => EMPTY_TOPIC);
      queues := new seq<Event>[|caps|](q => []);
      this.caps := caps;
      dropCount := 0;
      nextEventId := 1;
    }

    method Subscribe(topic: nat, rxQueue: nat) returns (ok: bool)
      requires Valid() && topic < TOPIC_MAX && rxQueue < queues.Length
      modifies topics
      ensures Valid() && topics[..] == old(topics[..])[topic := AfterSubscribe(old(topics[topic]), rxQueue)]
      ensures ok == (|old(topics[topic]).subscribers| < MAX_SUBSCRIBERS_PER_TOPIC)
      ensures var t, subs := old(topics[topic]), old(topics[topic]).subscribers;
              topics[topic] == if ok then Topic(subs + [rxQueue], t.stats.(subscribers := |subs| + 1)) else t
    {
      var entry := topics[topic];
      if |entry.subscribers| >= MAX_SUBSCRIBERS_PER_TOPIC {
        return false;
      }
      entry := entry.(subscribers := entry.subscribers + [rxQueue]);
      topics[topic] := entry.(stats := entry.stats.(subscribers := |entry.subscribers|));
      return true;
    }

    /** xQueueSend with a zero timeout. */
    method QueueSend(q: nat, e: Event) returns (ok: bool)
      requires queues.Length == |caps| && q < queues.Length
      modifies queues
      ensures ok == (|old(queues[q])| < caps[q])
      ensures queues[..] == if ok then old(queues[..])[q := old(queues[q]) + [e]] else old(queues[..])
    {
      ok := |queues[q]| < caps[q];
      if ok {
        queues[q] := queues[q] + [e];
      }
    }

    /** xQueueReceive with a zero timeout. */
    method QueueReceive(q: nat) returns (received: bool, e: Event)
      requires queues.Length == |caps| && q < queues.Length
      modifies queues
      ensures received == (old(queues[q]) != [])
      ensures if received then e == old(queues[q])[0] && queues[..] == old(queues[..])[q := old(queues[q])[1..]]
              else queues[..] == old(queues[..])
    {
      received := queues[q] != [];
      if received {
        e := queues[q][0];
        queues[q] := queues[q][1..];
      } else {
        e := Event(0, 0, 0, 0, 0, 0, 0, 0, 0, Null);
      }
    }

    method AllocateEventId() returns (id: nat)
      requires nextEventId < U32
      modifies this`nextEventId
      ensures id == old(nextEventId) && nextEventId == Increment(old(nextEventId))
    {
      id := nextEventId;
      nextEventId := Increment(nextEventId);
    }

    method IncrementDropCount()
      modifies this`dropCount
      ensures dropCount == Increment(old(dropCount))
    {
      dropCount := Increment(dropCount);
    }

    /** The body of the fan-out loop for one subscriber slot. */
    method OfferTo(q: nat, e: Event, stats: Stats, ghost sent: nat, ghost okSoFar: bool)
        returns (accepted: bool, newStats: Stats)
      requires queues.Length == |caps| && q < queues.Length
      modifies queues, this`dropCount
      ensures FanOut(queues[..], newStats, dropCount, if accepted then sent + 1 else sent, okSoFar && accepted)
           == Offer(q, caps, e, FanOut(old(queues[..]), stats, old(dropCount), sent, okSoFar))
    {
      newStats := stats;
      accepted := QueueSend(q, e);
      if accepted {
        var depth := |queues[q]|;
        newStats := newStats.(delivered := Increment(newStats.delivered));
        if depth > newStats.maxQueueDepth {
          newStats := newStats.(maxQueueDepth := depth % 256);
        }
      } else {
        IncrementDropCount();
        newStats := newStats.(dropped := Increment(newStats.dropped));
      }
    }

    /** The fan-out loop, under the topic's lock. */
    method FanOutTo(topic: nat, e: Event, stats: Stats) returns (newStats: Stats, accepted: nat, ok: bool)
      requires Valid() && topic < TOPIC_MAX
      modifies queues, this`dropCount
      ensures Valid() && dropCount < U32
      ensures FanOut(queues[..], newStats, dropCount, accepted, ok)
           == OfferAll(topics[topic].subscribers, caps, e, FanOut(old(queues[..]), stats, old(dropCount), 0, true))
    {
      newStats, accepted, ok := stats, 0, true;
      var subs := topics[topic].subscribers;
      ghost var r := OfferAll(subs, caps, e, FanOut(queues[..], stats, dropCount, 0, true));
      var i := 0;
      while i < |subs|
        invariant i <= |subs|
        invariant Fits(subs, caps, queues[..]) && dropCount < U32
        invariant forall q :: 0 <= q < queues.Length ==> |queues[q]| <= caps[q]
        invariant OfferAll(subs[i..], caps, e, FanOut(queues[..], newStats, dropCount, accepted, ok)) == r
      {
        assert subs[i..][0] == subs[i] && subs[i..][1..] == subs[i + 1..];
        var taken;
        taken, newStats := OfferTo(subs[i], e, newStats, accepted, ok);
        if taken {
          accepted := accepted + 1;
        } else {
          ok := false;
        }
        i := i + 1;
      }
    }

    method PublishWithCount(event: Event) returns (ok: bool, sentCount: nat)
      requires Valid() && event.topic < TOPIC_MAX
      modifies this, topics, queues
      ensures Valid() && BusOk(old(State()), caps) && State() == AfterPublish(old(State()), caps, event)
      ensures var r := Published(old(topics[event.topic]), caps, old(queues[..]), old(dropCount),
                              Routed(event, old(nextEventId)));
              sentCount == r.accepted && ok == r.ok
      ensures OnlyAdds(old(queues[..]), queues[..],
                       event.(eventId := if event.eventId == 0 then old(nextEventId) else event.eventId))
      ensures nextEventId == if event.eventId == 0 then (old(nextEventId) + 1) % U32 else old(nextEventId)
      ensures var t, before := topics[event.topic], old(topics[event.topic]);
              && t.subscribers == before.subscribers && t.stats.subscribers == |t.subscribers|
              && t.stats.published == (before.stats.published + 1) % U32
    {
      var routedEvent := event;
      if routedEvent.eventId == 0 {
        var id := AllocateEventId();
        routedEvent := routedEvent.(eventId := id);
      }
      var subs := topics[event.topic].subscribers;
      var stats := topics[event.topic].stats;
      stats := stats.(published := Increment(stats.published), subscribers := |subs|);
      PublishOnlyAdds(topics[event.topic], caps, queues[..], dropCount, routedEvent);
      FanOutConserves(subs, caps, routedEvent, FanOut(queues[..], stats, dropCount, 0, true));
      stats, sentCount, ok := FanOutTo(event.topic, routedEvent, stats);
      topics[event.topic] := topics[event.topic].(stats := stats);
    }

    method GetSubscriberCount(topic: nat) returns (count: nat)
      requires Valid() && topic < TOPIC_MAX
      ensures count == |topics[topic].subscribers| <= 255
    {
      count := |topics[topic].subscribers|;
    }
  }

  // ---- What a fan-out does, in closed form ----

  function Occurrences(subs: seq<nat>, q: nat): nat {
    if subs == [] then 0 else (if subs[0] == q then 1 else 0) + Occurrences(subs[1..], q)
  }

  function Copies(e: Event, k: nat): seq<Event> {
    seq(k, i => e)
  }

  /** How many of its subscriptions to the topic a queue has room for. */
  function Share(subs: seq<nat>, caps: seq<nat>, queues: seq<seq<Event>>, q: nat): nat
    requires q < |caps| == |queues|
  {
    if |queues[q]| + Occurrences(subs, q) <= caps[q] then Occurrences(subs, q)
    else if |queues[q]| < caps[q] then caps[q] - |queues[q]|
    else 0
  }

  /** Every queue gets, at its tail, one copy for each of its subscriptions as far as its own room
      goes, whatever the state of the other queues. */
  lemma {:induction false} FanOutPerQueue(subs: seq<nat>, caps: seq<nat>, e: Event, f: FanOut, q: nat)
    requires Fits(subs, caps, f.queues) && q < |caps|
    ensures OfferAll(subs, caps, e, f).queues[q] == f.queues[q] + Copies(e, Share(subs, caps, f.queues, q))
  {
    if subs != [] {
      FanOutPerQueue(subs[1..], caps, e, Offer(subs[0], caps, e, f), q);
    }
  }

  /** Every queue keeps what it held, in order, and whatever is new at its tail is the event `e`. */
  predicate OnlyAdds(before: seq<seq<Event>>, after: seq<seq<Event>>, e: Event) {
    |after| == |before|
    && forall q :: 0 <= q < |before| ==>
         before[q] <= after[q] && forall k :: |before[q]| <= k < |after[q]| ==> after[q][k] == e
  }

  /** A publish puts nothing into queues but the event it was given, with the id it was given or the next one. */
  lemma PublishOnlyAdds(t: Topic, caps: seq<nat>, queues: seq<seq<Event>>, dropCount: nat, e: Event)
    requires Fits(t.subscribers, caps, queues)
    ensures OnlyAdds(queues, Published(t, caps, queues, dropCount, e).queues, e)
  {
    var f := FanOut(queues, t.stats.(published := Increment(t.stats.published), subscribers := |t.subscribers|),
                    dropCount, 0, true);
    forall q | 0 <= q < |queues| ensures OfferAll(t.subscribers, caps, e, f).queues[q]
                                         == queues[q] + Copies(e, Share(t.subscribers, caps, queues, q))
    {
      FanOutPerQueue(t.subscribers, caps, e, f, q);
    }
  }

  function Length(): seq<Event> -> nat {
    (q: seq<Event>) => |q|
  }

  lemma IncrementThen(n: nat, k: nat)
    ensures (Increment(n) + k) % U32 == (n + 1 + k) % U32
  {
    var d := (n + 1) / U32;
    assert n + 1 + k == Increment(n) + k + d * U32;
    assert (Increment(n) + k + d * U32) % U32 == (Increment(n) + k) % U32;
  }

  /** The slots that accepted the event are exactly what the queues grew by, the rest are drops, and
      the result is a failure exactly when there was a drop. */
  lemma {:induction false} FanOutConserves(subs: seq<nat>, caps: seq<nat>, e: Event, f: FanOut)
    requires Fits(subs, caps, f.queues)
    ensures var r := OfferAll(subs, caps, e, f);
            && f.accepted <= r.accepted <= f.accepted + |subs|
            && Sum(r.queues, Length()) == Sum(f.queues, Length()) + r.accepted - f.accepted
            && r.ok == (f.ok && r.accepted == f.accepted + |subs|)
            && r.stats.published == f.stats.published && r.stats.subscribers == f.stats.subscribers
  {
    if subs != [] {
      FanOutConserves(subs[1..], caps, e, Offer(subs[0], caps, e, f));
      SumUpdate(f.queues, Length(), subs[0], f.queues[subs[0]] + [e]);
    }
  }

  /** The counters of `r` are those of `f` after offering to `total` slots. */
  predicate Counts(f: FanOut, r: FanOut, total: nat) {
    var sent := r.accepted - f.accepted;
    && 0 <= sent <= total
    && r.stats.delivered == (f.stats.delivered + sent) % U32
    && r.stats.dropped == (f.stats.dropped + total - sent) % U32
    && r.dropCount == (f.dropCount + total - sent) % U32
  }

  lemma OfferCounts(q: nat, caps: seq<nat>, e: Event, f: FanOut, r: FanOut, total: nat)
    requires q < |f.queues| == |caps| && Counts(Offer(q, caps, e, f), r, total)
    ensures Counts(f, r, total + 1)
  {
    var next := Offer(q, caps, e, f);
    var sent := r.accepted - next.accepted;
    if next.accepted > f.accepted {
      IncrementThen(f.stats.delivered, sent);
    } else {
      IncrementThen(f.stats.dropped, total - sent);
      IncrementThen(f.dropCount, total - sent);
    }
  }

  predicate CountersOk(f: FanOut) {
    f.dropCount < U32 && f.stats.delivered < U32 && f.stats.dropped < U32
  }

  lemma {:induction false} AllCounts(subs: seq<nat>, caps: seq<nat>, e: Event, f: FanOut)
    requires Fits(subs, caps, f.queues) && CountersOk(f)
    ensures Counts(f, OfferAll(subs, caps, e, f), |subs|)
  {
    if subs != [] {
      var next := Offer(subs[0], caps, e, f);
      AllCounts(subs[1..], caps, e, next);
      OfferCounts(subs[0], caps, e, f, OfferAll(subs[1..], caps, e, next), |subs| - 1);
    }
  }

  /** The wrapping counters account for every slot, delivered or dropped. */
  lemma FanOutCounters(subs: seq<nat>, caps: seq<nat>, e: Event, f: FanOut)
    requires Fits(subs, caps, f.queues) && f.dropCount < U32 && f.stats.delivered < U32 && f.stats.dropped < U32
    ensures var r := OfferAll(subs, caps, e, f);
            var sent := r.accepted - f.accepted;
            && 0 <= sent <= |subs|
            && r.stats.delivered == (f.stats.delivered + sent) % U32
            && r.stats.dropped == (f.stats.dropped + |subs| - sent) % U32
            && r.dropCount == (f.dropCount + |subs| - sent) % U32
  {
    AllCounts(subs, caps, e, f);
  }

  /** The statistic's byte holds the depth a queue has just reached exactly if that is below 256. */
  lemma OfferedDepthCoveredIff(q: nat, caps: seq<nat>, e: Event, f: FanOut)
    requires q < |f.queues| == |caps| && |f.queues[q]| < caps[q] && f.stats.maxQueueDepth < 256
    ensures Offer(q, caps, e, f).stats.maxQueueDepth >= |f.queues[q]| + 1 <==> |f.queues[q]| + 1 < 256
    ensures Offer(q, caps, e, f).stats.maxQueueDepth < 256
  {
  }

  lemma {:induction false} QueuesGrow(subs: seq<nat>, caps: seq<nat>, e: Event, f: FanOut, q: nat)
    requires Fits(subs, caps, f.queues) && q < |caps|
    ensures |OfferAll(subs, caps, e, f).queues[q]| >= |f.queues[q]|
  {
    if subs != [] {
      QueuesGrow(subs[1..], caps, e, Offer(subs[0], caps, e, f), q);
    }
  }

  // ---- Several publishes on one topic ----

  /** The event as the `k`-th publish from now on sends it. */
  function AsSent(e: Event, nextEventId: nat, k: nat): Event {
    if e.eventId == 0 then e.(eventId := (nextEventId + k) % U32) else e
  }

  predicate OfTopic(es: seq<Event>, topic: nat) {
    topic < TOPIC_MAX && forall i :: 0 <= i < |es| ==> es[i].topic == topic && es[i].eventId == 0
  }

  lemma PublishOnce(b: Contents, caps: seq<nat>, e: Event, q: nat)
    requires BusOk(b, caps) && e.topic < TOPIC_MAX && q < |caps| && Occurrences(b.topics[e.topic].subscribers, q) <= 1
    ensures var subscribed := Occurrences(b.topics[e.topic].subscribers, q) == 1;
            AfterPublish(b, caps, e).queues[q]
            == if subscribed && |b.queues[q]| < caps[q] then b.queues[q] + [Routed(e, b.nextEventId)] else b.queues[q]
  {
    var t := b.topics[e.topic];
    var f := FanOut(b.queues, t.stats.(published := Increment(t.stats.published), subscribers := |t.subscribers|),
                    b.dropCount, 0, true);
    FanOutPerQueue(t.subscribers, caps, Routed(e, b.nextEventId), f, q);
    assert Copies(Routed(e, b.nextEventId), 1) == [Routed(e, b.nextEventId)];
  }

  /** How many of `n` events go into a queue that is subscribed once, or not at all. */
  function Taken(subs: seq<nat>, caps: seq<nat>, queues: seq<seq<Event>>, q: nat, n: nat): (k: nat)
    requires q < |caps| == |queues|
    ensures k <= n
  {
    if Occurrences(subs, q) == 0 || |queues[q]| >= caps[q] then 0
    else if |queues[q]| + n <= caps[q] then n else caps[q] - |queues[q]|
  }

  lemma IdsAdvance(id: nat, n: nat)
    ensures Increment((id + n) % U32) == (id + n + 1) % U32
  {
    var d := (id + n) / U32;
    assert (id + n) % U32 + 1 + d * U32 == id + n + 1;
    assert ((id + n) % U32 + 1 + d * U32) % U32 == ((id + n) % U32 + 1) % U32;
  }

  /** A queue subscribed once to the topic gets the events in order with consecutive ids, as far as its room
      goes; a queue that is not subscribed gets none. */
  lemma {:induction false} PublishAllInOrder(b: Contents, caps: seq<nat>, es: seq<Event>, topic: nat, q: nat)
    requires BusOk(b, caps) && OfTopic(es, topic) && b.nextEventId < U32 && q < |caps|
    requires Occurrences(b.topics[topic].subscribers, q) <= 1
    ensures var after := AfterPublishAll(b, caps, es);
            && after.topics[topic].subscribers == b.topics[topic].subscribers
            && after.nextEventId == (b.nextEventId + |es|) % U32
            && after.queues[q] == b.queues[q] + seq(Taken(b.topics[topic].subscribers, caps, b.queues, q, |es|),
                                                    k requires 0 <= k < |es| => AsSent(es[k], b.nextEventId, k))
    decreases |es|
  {
    if es != [] {
      var init, last := es[..|es| - 1], es[|es| - 1];
      PublishAllInOrder(b, caps, init, topic, q);
      var before := AfterPublishAll(b, caps, init);
      PublishOnce(before, caps, last, q);
      IdsAdvance(b.nextEventId, |init|);
      assert Routed(last, before.nextEventId) == AsSent(last, b.nextEventId, |init|);
    }
  }

  /** As long as no queue that took the event got 256 deep, the highest depth seen is never lowered, no
      such queue is deeper, and it is a depth really reached. */
  lemma {:induction false} FanOutDepth(subs: seq<nat>, caps: seq<nat>, e: Event, f: FanOut)
    requires Fits(subs, caps, f.queues) && f.stats.maxQueueDepth < 256
    requires var r := OfferAll(subs, caps, e, f);
             forall q :: 0 <= q < |caps| && |r.queues[q]| > |f.queues[q]| ==> |r.queues[q]| < 256
    ensures var r := OfferAll(subs, caps, e, f);
            && f.stats.maxQueueDepth <= r.stats.maxQueueDepth < 256
            && (forall q :: 0 <= q < |caps| && |r.queues[q]| > |f.queues[q]| ==> |r.queues[q]| <= r.stats.maxQueueDepth)
            && (r.stats.maxQueueDepth == f.stats.maxQueueDepth
                 || exists q :: 0 <= q < |caps| && |r.queues[q]| == r.stats.maxQueueDepth)
  {
    if subs != [] {
      var next := Offer(subs[0], caps, e, f);
      QueuesGrow(subs[1..], caps, e, next, subs[0]);
      FanOutDepth(subs[1..], caps, e, next);
      if OfferAll(subs, caps, e, f).stats.maxQueueDepth == next.stats.maxQueueDepth != f.stats.maxQueueDepth {
        DepthReached(subs, caps, e, f);
      }
    }
  }

  lemma DepthReached(subs: seq<nat>, caps: seq<nat>, e: Event, f: FanOut)
    requires subs != [] && Fits(subs, caps, f.queues) && f.stats.maxQueueDepth < 256
    requires var r, q := OfferAll(subs, caps, e, f), subs[0];
             |r.queues[q]| > |f.queues[q]| ==> |r.queues[q]| <= r.stats.maxQueueDepth < 256
    requires var next := Offer(subs[0], caps, e, f);
             OfferAll(subs, caps, e, f).stats.maxQueueDepth == next.stats.maxQueueDepth != f.stats.maxQueueDepth
    ensures |OfferAll(subs, caps, e, f).queues[subs[0]]| == OfferAll(subs, caps, e, f).stats.maxQueueDepth
  {
    QueuesGrow(subs[1..], caps, e, Offer(subs[0], caps, e, f), subs[0]);
  }

  /** A queue that gets 256 deep resets the statistic. */
  lemma DepthMayFall(e: Event)
    ensures var f := FanOut([Copies(e, 255)], Stats(0, 0, 0, 1, 255), 0, 0, true);
            OfferAll([0], [256], e, f).stats.maxQueueDepth == 0
  {
    var f := FanOut([Copies(e, 255)], Stats(0, 0, 0, 1, 255), 0, 0, true);
    var one: seq<nat> := [0];
    assert one[1..] == [];
    assert OfferAll(one, [256], e, f) == OfferAll(one[1..], [256], e, Offer(0, [256], e, f));
  }

  /** pdPASS is returned exactly when every subscribed queue had room for all of its subscriptions. */
  lemma {:induction false} FanOutSucceedsIffRoom(subs: seq<nat>, caps: seq<nat>, e: Event, f: FanOut)
    requires Fits(subs, caps, f.queues) && f.ok
    requires forall q :: 0 <= q < |caps| ==> |f.queues[q]| <= caps[q]
    ensures OfferAll(subs, caps, e, f).ok
            <==> (forall q :: 0 <= q < |caps| ==> |f.queues[q]| + Occurrences(subs, q) <= caps[q])
  {
    if subs != [] {
      var next := Offer(subs[0], caps, e, f);
      if next.ok {
        FanOutSucceedsIffRoom(subs[1..], caps, e, next);
        assert forall q :: 0 <= q < |caps| ==>
            |next.queues[q]| + Occurrences(subs[1..], q) == |f.queues[q]| + Occurrences(subs, q);
      } else {
        StaysFailed(subs[1..], caps, e, next);
        assert |f.queues[subs[0]]| + Occurrences(subs, subs[0]) > caps[subs[0]];
      }
    }
  }

  lemma {:induction false} StaysFailed(subs: seq<nat>, caps: seq<nat>, e: Event, f: FanOut)
    requires Fits(subs, caps, f.queues) && !f.ok
    ensures !OfferAll(subs, caps, e, f).ok
  {
    if subs != [] {
      StaysFailed(subs[1..], caps, e, Offer(subs[0], caps, e, f));
    }
  }
}
