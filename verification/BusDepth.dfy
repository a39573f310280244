/**
  What a topic's highest-depth statistic says, over any length of traffic.

  The fan-out loop reads the depth of a queue after it has sent to it, and by then a consumer or another
  topic's publisher may have got to the queue; so sending and reading the depth are separate here.
*/
module BusDepth {
  import opened EventBus

  /** What can happen to the queues and to the statistics of one topic. */
  datatype Traffic =
    | Send(q: nat, e: Event)
    | ReadDepth(q: nat)
    | Receive(q: nat)
    | SendElsewhere(q: nat, e: Event)

  predicate TrafficFits(ops: seq<Traffic>, caps: seq<nat>, queues: seq<seq<Event>>) {
    |queues| == |caps| && forall k :: 0 <= k < |ops| ==> ops[k].q < |caps|
  }

  function AfterOne(op: Traffic, caps: seq<nat>, f: FanOut): (r: FanOut)
    requires op.q < |caps| == |f.queues|
    ensures |r.queues| == |f.queues|
  {
    var queue := f.queues[op.q];
    match op
    case Send(q, e) =>
      if |queue| < caps[q]
      then f.(queues := f.queues[q := queue + [e]], stats := f.stats.(delivered := Increment(f.stats.delivered)),
              accepted := f.accepted + 1)
      else f.(stats := f.stats.(dropped := Increment(f.stats.dropped)),
              dropCount := Increment(f.dropCount), ok := false)
    case ReadDepth(q) =>
      if |queue| > f.stats.maxQueueDepth then f.(stats := f.stats.(maxQueueDepth := |queue| % 256)) else f
    case Receive(q) =>
      if queue == [] then f else f.(queues := f.queues[q := queue[1..]])
    case SendElsewhere(q, e) =>
      if |queue| < caps[q] then f.(queues := f.queues[q := queue + [e]]) else f.(dropCount := Increment(f.dropCount))
  }

  function After(ops: seq<Traffic>, caps: seq<nat>, f: FanOut): (r: FanOut)
    requires TrafficFits(ops, caps, f.queues)
    ensures |r.queues| == |f.queues|
  {
    if ops == [] then f else After(ops[1..], caps, AfterOne(ops[0], caps, f))
  }

  /** What one event contributes to the depths read. */
  function ReadBy(op: Traffic, f: FanOut): seq<nat>
    requires op.q < |f.queues|
  {
    if op.ReadDepth? then [|f.queues[op.q]|] else []
  }

  /** The depths that were read, in order. */
  function Depths(ops: seq<Traffic>, caps: seq<nat>, f: FanOut): seq<nat>
    requires TrafficFits(ops, caps, f.queues)
  {
    if ops == [] then []
    else ReadBy(ops[0], f) + Depths(ops[1..], caps, AfterOne(ops[0], caps, f))
  }

  predicate AllBelow(depths: seq<nat>, bound: nat) {
    forall i :: 0 <= i < |depths| ==> depths[i] < bound
  }

  lemma {:induction false} StaysByte(ops: seq<Traffic>, caps: seq<nat>, f: FanOut)
    requires TrafficFits(ops, caps, f.queues) && f.stats.maxQueueDepth < 256
    ensures After(ops, caps, f).stats.maxQueueDepth < 256
  {
    if ops != [] {
      StaysByte(ops[1..], caps, AfterOne(ops[0], caps, f));
    }
  }

  /** `m` is the highest of `start` and the depths. */
  predicate IsMaximum(m: nat, start: nat, depths: seq<nat>) {
    start <= m && AllBelow(depths, m + 1) && (m == start || m in depths)
  }

  lemma MaximumOfMore(m: nat, start: nat, d: nat, rest: seq<nat>)
    requires IsMaximum(m, if d > start then d else start, rest)
    ensures IsMaximum(m, start, [d] + rest)
  {
    assert ([d] + rest)[0] == d && forall x :: x in rest ==> x in [d] + rest;
  }

  lemma BelowApart(d: nat, rest: seq<nat>, bound: nat)
    requires AllBelow([d] + rest, bound)
    ensures d < bound && AllBelow(rest, bound)
  {
    assert ([d] + rest)[0] == d && forall i :: 0 <= i < |rest| ==> rest[i] == ([d] + rest)[i + 1];
  }

  lemma MaximumStep(op: Traffic, caps: seq<nat>, f: FanOut, m: nat, rest: seq<nat>)
    requires op.q < |caps| == |f.queues| && AllBelow(ReadBy(op, f) + rest, 256)
    requires AllBelow(rest, 256) ==> IsMaximum(m, AfterOne(op, caps, f).stats.maxQueueDepth, rest)
    ensures IsMaximum(m, f.stats.maxQueueDepth, ReadBy(op, f) + rest)
  {
    if op.ReadDepth? {
      BelowApart(|f.queues[op.q]|, rest, 256);
      MaximumOfMore(m, f.stats.maxQueueDepth, |f.queues[op.q]|, rest);
    } else {
      assert ReadBy(op, f) + rest == rest;
    }
  }

  lemma BelowRest(first: seq<nat>, rest: seq<nat>, bound: nat)
    requires AllBelow(first + rest, bound)
    ensures AllBelow(rest, bound)
  {
    assert forall i :: 0 <= i < |rest| ==> rest[i] == (first + rest)[|first| + i];
  }

  /** While only depths below 256 are read, the statistic is their running maximum. */
  lemma {:induction false} RunningMaximum(ops: seq<Traffic>, caps: seq<nat>, f: FanOut)
    requires TrafficFits(ops, caps, f.queues) && AllBelow(Depths(ops, caps, f), 256)
    ensures IsMaximum(After(ops, caps, f).stats.maxQueueDepth, f.stats.maxQueueDepth, Depths(ops, caps, f))
  {
    if ops != [] {
      var next := AfterOne(ops[0], caps, f);
      var rest := Depths(ops[1..], caps, next);
      BelowRest(ReadBy(ops[0], f), rest, 256);
      RunningMaximum(ops[1..], caps, next);
      MaximumStep(ops[0], caps, f, After(ops[1..], caps, next).stats.maxQueueDepth, rest);
    }
  }

  /** The statistic ends at least as high as every depth that was read if and only if none of them was 256
      or more. */
  lemma DepthCoveredIff(ops: seq<Traffic>, caps: seq<nat>, f: FanOut)
    requires TrafficFits(ops, caps, f.queues) && f.stats.maxQueueDepth < 256
    ensures var depths, m := Depths(ops, caps, f), After(ops, caps, f).stats.maxQueueDepth;
            (forall i :: 0 <= i < |depths| ==> depths[i] <= m) <==> (forall i :: 0 <= i < |depths| ==> depths[i] < 256)
  {
    StaysByte(ops, caps, f);
    if AllBelow(Depths(ops, caps, f), 256) {
      RunningMaximum(ops, caps, f);
    }
  }

  // ---- The fan-out loop is such traffic ----

  /** The fan-out of one event with nobody in between: every accepted send is followed by reading the depth. */
  function FanOutTraffic(subs: seq<nat>, caps: seq<nat>, e: Event, f: FanOut): (ops: seq<Traffic>)
    requires Fits(subs, caps, f.queues)
    ensures TrafficFits(ops, caps, f.queues)
  {
    if subs == [] then []
    else
      var q := subs[0];
      (if |f.queues[q]| < caps[q] then [Send(q, e), ReadDepth(q)] else [Send(q, e)])
      + FanOutTraffic(subs[1..], caps, e, Offer(q, caps, e, f))
  }

  lemma {:induction false} AfterConcat(a: seq<Traffic>, b: seq<Traffic>, caps: seq<nat>, f: FanOut)
    requires TrafficFits(a, caps, f.queues) && TrafficFits(b, caps, f.queues) && TrafficFits(a + b, caps, f.queues)
    ensures After(a + b, caps, f) == After(b, caps, After(a, caps, f))
  {
    if a == [] {
      assert a + b == b;
    } else {
      assert (a + b)[1..] == a[1..] + b;
      AfterConcat(a[1..], b, caps, AfterOne(a[0], caps, f));
    }
  }

  lemma AfterSingle(op: Traffic, caps: seq<nat>, f: FanOut)
    requires op.q < |caps| == |f.queues|
    ensures After([op], caps, f) == AfterOne(op, caps, f)
  {
    assert [op][1..] == [];
  }

  lemma OfferIsTraffic(q: nat, caps: seq<nat>, e: Event, f: FanOut)
    requires q < |caps| == |f.queues|
    ensures After(if |f.queues[q]| < caps[q] then [Send(q, e), ReadDepth(q)] else [Send(q, e)], caps, f)
              == Offer(q, caps, e, f)
  {
    AfterSingle(Send(q, e), caps, f);
    if |f.queues[q]| < caps[q] {
      assert [Send(q, e)] + [ReadDepth(q)] == [Send(q, e), ReadDepth(q)];
      AfterConcat([Send(q, e)], [ReadDepth(q)], caps, f);
      AfterSingle(ReadDepth(q), caps, AfterOne(Send(q, e), caps, f));
    }
  }

  /** The whole fan-out is that traffic, queues, statistics and counts. */
  lemma {:induction false} FanOutIsTraffic(subs: seq<nat>, caps: seq<nat>, e: Event, f: FanOut)
    requires Fits(subs, caps, f.queues)
    ensures OfferAll(subs, caps, e, f) == After(FanOutTraffic(subs, caps, e, f), caps, f)
  {
    if subs != [] {
      var q := subs[0];
      var head := if |f.queues[q]| < caps[q] then [Send(q, e), ReadDepth(q)] else [Send(q, e)];
      OfferIsTraffic(q, caps, e, f);
      FanOutIsTraffic(subs[1..], caps, e, Offer(q, caps, e, f));
      AfterConcat(head, FanOutTraffic(subs[1..], caps, e, Offer(q, caps, e, f)), caps, f);
    }
  }
}
