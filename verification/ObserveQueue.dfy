/**
 * The bounded observe queue and the synchronous service that runs a finite
 * source through it into a processor.
 */
module ObserveQueue {
  import opened Wrappers
  import opened Bytes

  datatype Classification = Ignored | Observed | BoundaryObserved | Unsupported | Invalid

  datatype Status = Starting | Running | Stopping | Stopped | Failed

  datatype Ending = Exhausted | SourceError

  /** A call the processor has seen. */
  datatype Call<E> = ResetCall | EventCall(event: E)

  datatype Traffic = Traffic(
    received: nat,
    accepted: nat,
    dropped: nat,
    processed: nat,
    discontinuities: nat,
    sourceFailures: nat)

  datatype Answers = Answers(unsupported: nat, invalid: nat)

  datatype Report = Report(traffic: Traffic, answers: Answers)

  const EMPTY_REPORT := Report(Traffic(0, 0, 0, 0, 0, 0), Answers(0, 0))

  // ---------------------------------------------------------------------
  // Queue, source and processor
  // ---------------------------------------------------------------------

  class BoundedQueue<E> {
    const capacity: nat
    var events: seq<E>
    var droppedEvents: nat
    var discontinuityPending: bool

    constructor (capacity: nat)
      requires 0 < capacity
      ensures this.capacity == capacity && events == [] && droppedEvents == 0 && !discontinuityPending
    {
      this.capacity := capacity;
      events, droppedEvents, discontinuityPending := [], 0, false;
    }

    predicate Valid()
      reads this
    {
      0 < capacity && |events| <= capacity && droppedEvents <= MAX_U64
    }

    method TryEnqueue(event: E) returns (enqueued: bool)
      requires Valid()
      modifies this
      ensures Valid() && enqueued == (|old(events)| < capacity)
      ensures events == if enqueued then old(events) + [event] else old(events)
      ensures discontinuityPending == (old(discontinuityPending) || !enqueued)
      ensures droppedEvents
              == if enqueued || old(droppedEvents) == MAX_U64 then old(droppedEvents) else old(droppedEvents) + 1
    {
      if |events| == capacity {
        droppedEvents := if droppedEvents == MAX_U64 then droppedEvents else droppedEvents + 1;
        discontinuityPending := true;
        return false;
      }
      events := events + [event];
      return true;
    }

    /** The oldest event and whether it is the first after a drop. */
    method TryDequeue() returns (dequeued: Option<(E, bool)>)
      requires Valid()
      modifies this
      ensures Valid() && droppedEvents == old(droppedEvents)
      ensures old(events) == [] ==> dequeued.None? && events == [] && discontinuityPending == old(discontinuityPending)
      ensures old(events) != [] ==>
                dequeued == Some((old(events)[0], old(discontinuityPending))) && events == old(events)[1..]
                && !discontinuityPending
    {
      if events == [] {
        return None;
      }
      dequeued := Some((events[0], discontinuityPending));
      events := events[1..];
      discontinuityPending := false;
    }
  }

  class FiniteSource<E> {
    const items: seq<E>
    const ending: Ending
    var position: nat

    constructor (items: seq<E>, ending: Ending)
      ensures this.items == items && this.ending == ending && position == 0
    {
      this.items, this.ending, position := items, ending, 0;
    }

    method NextEvent() returns (next: Result<Option<E>, ()>)
      requires position <= |items|
      modifies this
      ensures old(position) < |items| ==> position == old(position) + 1 && next == Success(Some(items[old(position)]))
      ensures old(position) == |items| ==> position == |items|
      ensures old(position) == |items| ==> next == (if ending.Exhausted? then Success(None) else Failure(()))
    {
      if position < |items| {
        next := Success(Some(items[position]));
        position := position + 1;
      } else {
        next := if ending.Exhausted? then Success(None) else Failure(());
      }
    }
  }

  /** Any processor: what it answers is a function of the calls before. */
  class Processor<E> {
    const answer: (seq<Call<E>>, E) -> Classification
    var calls: seq<Call<E>>

    constructor (answer: (seq<Call<E>>, E) -> Classification)
      ensures this.answer == answer && calls == []
    {
      this.answer, calls := answer, [];
    }

    method ResetAfterDiscontinuity()
      modifies this
      ensures calls == old(calls) + [ResetCall]
    {
      calls := calls + [ResetCall];
    }

    method Process(event: E) returns (c: Classification)
      modifies this
      ensures c == answer(old(calls), event) && calls == old(calls) + [EventCall(event)]
    {
      c := answer(calls, event);
      calls := calls + [EventCall(event)];
    }
  }

  /** How many of the calls were answered in the given way. */
  function Tally<E>(answer: (seq<Call<E>>, E) -> Classification, calls: seq<Call<E>>, c: Classification): nat
  {
    if calls == [] then 0 else
    var before, last := calls[..|calls| - 1], calls[|calls| - 1];
    Tally(answer, before, c) + (if last.EventCall? && answer(before, last.event) == c then 1 else 0)
  }

  lemma TallyStep<E>(answer: (seq<Call<E>>, E) -> Classification, calls: seq<Call<E>>, call: Call<E>, c: Classification)
    ensures Tally(answer, calls + [call], c)
            == Tally(answer, calls, c) + (if call.EventCall? && answer(calls, call.event) == c then 1 else 0)
  {
    assert (calls + [call])[..|calls|] == calls;
  }

  // ---------------------------------------------------------------------
  // What a run does
  // ---------------------------------------------------------------------

  function EventCalls<E>(events: seq<E>): (calls: seq<Call<E>>)
    ensures |calls| == |events|
    ensures forall i :: 0 <= i < |events| ==> calls[i] == EventCall(events[i])
  {
    seq(|events|, i requires 0 <= i < |events| => EventCall(events[i]))
  }

  /** Processing events: a reset before the first one if continuity was lost. */
  function Handled<E>(events: seq<E>, lost: bool): seq<Call<E>>
  {
    (if lost && events != [] then [ResetCall] else []) + EventCalls(events)
  }

  /** The source events that enter the queue: all but the first if the queue was full. */
  function Accepted<E>(full: bool, items: seq<E>): seq<E>
  {
    if full && items != [] then items[1..] else items
  }

  lemma EventCallsAppend<E>(events: seq<E>, event: E)
    ensures EventCalls(events + [event]) == EventCalls(events) + [EventCall(event)]
  {
  }

  lemma HandledStep<E>(events: seq<E>, n: nat, lost: bool)
    requires n < |events|
    ensures Handled(events[..n + 1], lost)
            == Handled(events[..n], lost) + (if lost && n == 0 then [ResetCall] else []) + [EventCall(events[n])]
  {
    assert events[..n + 1] == events[..n] + [events[n]];
    EventCallsAppend(events[..n], events[n]);
  }

  /** What a run changes: the queue, the calls the processor has seen, and the counters. */
  datatype Progress<E> = Progress(
    queued: seq<E>,
    pending: bool,
    queueDrops: nat,
    calls: seq<Call<E>>,
    traffic: Traffic)

  /** The first `n` queued events processed. */
  function Drained<E>(p: Progress<E>, n: nat): Progress<E>
    requires n <= |p.queued|
  {
    Progress(p.queued[n..], p.pending && n == 0, p.queueDrops, p.calls + Handled(p.queued[..n], p.pending),
             p.traffic.(processed := p.traffic.processed + n,
                        discontinuities := p.traffic.discontinuities + if p.pending && n > 0 then 1 else 0))
  }

  function Enqueued<E>(p: Progress<E>, event: E, capacity: nat): Progress<E>
  {
    var t := p.traffic.(received := p.traffic.received + 1);
    if |p.queued| == capacity then
      p.(pending := true, queueDrops := if p.queueDrops == MAX_U64 then MAX_U64 else p.queueDrops + 1,
         traffic := t.(dropped := t.dropped + 1))
    else p.(queued := p.queued + [event], traffic := t.(accepted := t.accepted + 1))
  }

  /**
   * Every one of these source events received, and as many queued events
   * processed: only the first one can be lost.
   */
  function Received<E>(p: Progress<E>, items: seq<E>, capacity: nat): Progress<E>
    requires 0 < capacity
  {
    if items == [] then p else
    var full := |p.queued| == capacity;
    var all, lost, drops := p.queued + Accepted(full, items), p.pending || full, if full then 1 else 0;
    Progress(all[|items|..], false, if p.queueDrops == MAX_U64 then MAX_U64 else p.queueDrops + drops,
             p.calls + Handled(all[..|items|], lost),
             p.traffic.(received := p.traffic.received + |items|,
                        accepted := p.traffic.accepted + |items| - drops,
                        dropped := p.traffic.dropped + drops,
                        processed := p.traffic.processed + |items|,
                        discontinuities := p.traffic.discontinuities + if lost then 1 else 0))
  }

  lemma HandledNothing<E>(lost: bool)
    ensures Handled<E>([], lost) == []
  {
  }

  lemma HandledOne<E>(events: seq<E>, lost: bool)
    requires events != []
    ensures Handled(events[..1], lost) == (if lost then [ResetCall] else []) + [EventCall(events[0])]
  {
    HandledStep(events, 0, lost);
    assert events[..0] == [];
  }

  lemma HandledAppend<E>(first: seq<E>, second: seq<E>, lost: bool)
    requires first != []
    ensures Handled(first + second, lost) == Handled(first, lost) + Handled(second, false)
  {
    assert EventCalls(first + second) == EventCalls(first) + EventCalls(second);
  }

  lemma DrainStep<E>(p: Progress<E>, n: nat)
    requires n < |p.queued|
    ensures Drained(Drained(p, n), 1) == Drained(p, n + 1)
  {
    hide Handled;
    var queued := p.queued[n..];
    HandledOne(queued, p.pending && n == 0);
    HandledStep(p.queued, n, p.pending);
    assert queued[1..] == p.queued[n + 1..];
    if n == 0 {
      HandledNothing<E>(p.pending);
      assert p.queued[..0] == [];
    }
  }

  lemma AcceptedStep<E>(full: bool, items: seq<E>, n: nat)
    requires n < |items|
    ensures Accepted(full, items[..n + 1])
            == if full && n == 0 then [] else Accepted(full, items[..n]) + [items[n]]
  {
    assert items[..n + 1] == items[..n] + [items[n]];
  }

  lemma FirstReceived<E>(p: Progress<E>, item: E, capacity: nat)
    requires 0 < capacity && |p.queued| <= capacity
    ensures var middle := Enqueued(p, item, capacity);
      middle.queued != [] && Drained(middle, 1) == Received(p, [item], capacity)
  {
    hide Handled;
    assert [item][1..] == [] && p.queued + [] == p.queued;
  }

  lemma LaterReceived<E>(p: Progress<E>, items: seq<E>, n: nat, capacity: nat)
    requires 0 < capacity && |p.queued| <= capacity && 0 < n < |items|
    ensures var middle := Enqueued(Received(p, items[..n], capacity), items[n], capacity);
      middle.queued != [] && Drained(middle, 1) == Received(p, items[..n + 1], capacity)
  {
    hide Handled, Accepted;
    var full := |p.queued| == capacity;
    var before, after := p.queued + Accepted(full, items[..n]), p.queued + Accepted(full, items[..n + 1]);
    AcceptedLength(full, items[..n]);
    AcceptedStep(full, items, n);
    assert after == before + [items[n]];
    var middle := Enqueued(Received(p, items[..n], capacity), items[n], capacity);
    assert middle.queued == after[n..];
    assert after[n..][1..] == after[n + 1..] && after[..n] == before[..n] && after[n..][0] == after[n];
    HandledStep(after, n, p.pending || full);
    HandledOne(middle.queued, false);
  }

  lemma AcceptedLength<E>(full: bool, items: seq<E>)
    ensures |Accepted(full, items)| == |items| - if full && items != [] then 1 else 0
  {
  }

  /** Receiving one more source event and processing the oldest queued one. */
  lemma ReceiveStep<E>(p: Progress<E>, items: seq<E>, n: nat, capacity: nat)
    requires 0 < capacity && |p.queued| <= capacity && n < |items|
    ensures var middle := Enqueued(Received(p, items[..n], capacity), items[n], capacity);
      middle.queued != [] && Drained(middle, 1) == Received(p, items[..n + 1], capacity)
  {
    hide Enqueued, Drained;
    if n == 0 {
      assert items[..0] == [] && items[..1] == [items[0]];
      FirstReceived(p, items[0], capacity);
    } else {
      LaterReceived(p, items, n, capacity);
    }
  }

  /**
   * A finite run that ends by exhaustion has processed the initial events and
   * every accepted one in order, with one reset in front if continuity was
   * lost; at most one event was dropped, and only if the queue began full.
   */
  lemma ExhaustedRun<E>(p: Progress<E>, items: seq<E>, capacity: nat)
    requires 0 < capacity && |p.queued| <= capacity
    ensures var received, full := Received(p, items, capacity), |p.queued| == capacity;
      var done, all := Drained(received, |received.queued|), p.queued + Accepted(full, items);
      && done.queued == [] && done.calls == p.calls + Handled(all, p.pending || (full && items != []))
      && done.traffic.processed == p.traffic.processed + |all|
      && done.traffic.dropped == p.traffic.dropped + (if full && items != [] then 1 else 0)
      && |p.queued| + |items| == |all| + (done.traffic.dropped - p.traffic.dropped)
  {
    hide Handled, Accepted;
    var received, full := Received(p, items, capacity), |p.queued| == capacity;
    var all := p.queued + Accepted(full, items);
    AcceptedLength(full, items);
    assert received.queued[..|received.queued|] == received.queued;
    if items == [] {
      assert all == p.queued;
    } else {
      assert all == all[..|items|] + received.queued;
      HandledAppend(all[..|items|], received.queued, p.pending || full);
    }
  }

  /**
   * The calls of an exhausted run, one by one: a reset first if continuity was
   * lost, then the queued events and the source events in order, without the
   * first source event if the queue began full.
   */
  lemma CallsOfRun<E>(p: Progress<E>, items: seq<E>, capacity: nat)
    requires 0 < capacity && |p.queued| <= capacity
    ensures var received, full := Received(p, items, capacity), |p.queued| == capacity && items != [];
      var done, all := Drained(received, |received.queued|), p.queued + if full then items[1..] else items;
      var resets := if (p.pending || full) && all != [] then 1 else 0;
      && |done.calls| == |p.calls| + resets + |all|
      && (forall i :: 0 <= i < |p.calls| ==> done.calls[i] == p.calls[i])
      && (resets == 1 ==> done.calls[|p.calls|] == ResetCall)
      && (forall i :: 0 <= i < |all| ==> done.calls[|p.calls| + resets + i] == EventCall(all[i]))
      && done.traffic.received == p.traffic.received + |items|
      && done.traffic.accepted == p.traffic.accepted + |items| - (if full then 1 else 0)
  {
    hide *;
    ExhaustedRun(p, items, capacity);
    var full := |p.queued| == capacity && items != [];
    var all := p.queued + if full then items[1..] else items;
    AcceptedItems(|p.queued| == capacity, items);
    HandledCalls(all, p.pending || full);
    CallsBehind(p.calls, Handled(all, p.pending || full), if (p.pending || full) && all != [] then 1 else 0, all);
    ReceivedCounts(p, items, capacity);
  }

  lemma AcceptedItems<E>(full: bool, items: seq<E>)
    ensures Accepted(full, items) == if full && items != [] then items[1..] else items
  {
  }

  lemma CallsBehind<E>(first: seq<Call<E>>, calls: seq<Call<E>>, resets: nat, events: seq<E>)
    requires CallsFrom(calls, resets, events)
    ensures |first + calls| == |first| + resets + |events|
    ensures forall i :: 0 <= i < |first| ==> (first + calls)[i] == first[i]
    ensures resets > 0 ==> (first + calls)[|first|] == calls[0]
    ensures forall i :: 0 <= i < |events| ==> (first + calls)[|first| + resets + i] == EventCall(events[i])
  {
    forall i | 0 <= i < |events|
      ensures (first + calls)[|first| + resets + i] == EventCall(events[i])
    {
      assert calls[resets + i] == EventCall(events[i]);
    }
  }

  lemma ReceivedCounts<E>(p: Progress<E>, items: seq<E>, capacity: nat)
    requires 0 < capacity && |p.queued| <= capacity
    ensures var received := Received(p, items, capacity);
      var traffic := Drained(received, |received.queued|).traffic;
      && traffic.received == p.traffic.received + |items|
      && traffic.accepted == p.traffic.accepted + |items| - (if |p.queued| == capacity && items != [] then 1 else 0)
  {
    hide Handled, Accepted;
  }

  ghost predicate CallsFrom<E>(calls: seq<Call<E>>, start: nat, events: seq<E>)
  {
    |calls| == start + |events| && forall i :: 0 <= i < |events| ==> calls[start + i] == EventCall(events[i])
  }

  lemma HandledCalls<E>(events: seq<E>, lost: bool)
    ensures var resets := if lost && events != [] then 1 else 0;
      CallsFrom(Handled(events, lost), resets, events) && (resets == 1 ==> Handled(events, lost)[0] == ResetCall)
  {
    hide CallsFrom;
    EventsFrom(if lost && events != [] then [ResetCall] else [], events);
  }

  lemma EventsFrom<E>(before: seq<Call<E>>, events: seq<E>)
    ensures CallsFrom(before + EventCalls(events), |before|, events)
  {
    hide EventCalls;
  }

  /**
   * A run that ends by a source error leaves as many events as were queued
   * before, less one for a lost event.
   */
  lemma FailedRun<E>(p: Progress<E>, items: seq<E>, capacity: nat)
    requires 0 < capacity && |p.queued| <= capacity
    ensures var left := Received(p, items, capacity);
      && |left.queued| == |p.queued| - (if |p.queued| == capacity && items != [] then 1 else 0)
      && left.traffic.processed == p.traffic.processed + |items|
      && (left.queued == [] <==> p.queued == [] || (capacity == |p.queued| == 1 && items != []))
  {
    hide Handled, Accepted;
    AcceptedLength(|p.queued| == capacity, items);
  }

  class ObserveService<E> {
    const queue: BoundedQueue<E>
    var status: Status
    var stopRequested: bool
    var report: Report

    constructor (queue: BoundedQueue<E>)
      ensures this.queue == queue && status == Starting && !stopRequested && report == EMPTY_REPORT
    {
      this.queue := queue;
      status, stopRequested, report := Starting, false, EMPTY_REPORT;
    }

    function State(processor: Processor<E>): Progress<E>
      reads this, queue, processor
    {
      Progress(queue.events, queue.discontinuityPending, queue.droppedEvents, processor.calls, report.traffic)
    }

    /** The answer counters minus the answers given, which no step changes. */
    ghost function Uncounted(processor: Processor<E>): (int, int)
      reads this, processor
    {
      (report.answers.unsupported - Tally(processor.answer, processor.calls, Unsupported),
       report.answers.invalid - Tally(processor.answer, processor.calls, Invalid))
    }

    method RequestStop()
      modifies `stopRequested
      ensures stopRequested == (old(stopRequested) || !(status.Stopped? || status.Failed?))
    {
      if !(status.Stopped? || status.Failed?) {
        stopRequested := true;
      }
    }

    method ProcessOne(processor: Processor<E>) returns (more: bool)
      requires queue.Valid()
      modifies queue, `report, processor
      ensures queue.Valid() && Uncounted(processor) == old(Uncounted(processor))
      ensures more == (old(queue.events) != [])
      ensures State(processor) == Drained(old(State(processor)), if more then 1 else 0)
    {
      hide Tally, Handled;
      ghost var events := queue.events;
      if events != [] {
        HandledOne(events, queue.discontinuityPending);
      }
      HandledNothing<E>(queue.discontinuityPending);
      var dequeued := queue.TryDequeue();
      if dequeued.None? {
        return false;
      }
      var (event, discontinuity) := dequeued.value;
      var traffic := report.traffic;
      if discontinuity {
        TallyStep(processor.answer, processor.calls, ResetCall, Unsupported);
        TallyStep(processor.answer, processor.calls, ResetCall, Invalid);
        processor.ResetAfterDiscontinuity();
        traffic := traffic.(discontinuities := traffic.discontinuities + 1);
      }
      traffic := traffic.(processed := traffic.processed + 1);
      TallyStep(processor.answer, processor.calls, EventCall(event), Unsupported);
      TallyStep(processor.answer, processor.calls, EventCall(event), Invalid);
      var classification := processor.Process(event);
      var answers := report.answers;
      match classification {
        case Unsupported => answers := answers.(unsupported := answers.unsupported + 1);
        case Invalid => answers := answers.(invalid := answers.invalid + 1);
        case Ignored | Observed | BoundaryObserved =>
      }
      report := Report(traffic, answers);
      return true;
    }

    method FinishGracefully(processor: Processor<E>)
      requires queue.Valid()
      modifies queue, `report, `status, processor
      ensures queue.Valid() && status == Stopped && Uncounted(processor) == old(Uncounted(processor))
      ensures State(processor) == Drained(old(State(processor)), |old(queue.events)|)
    {
      hide Tally, Handled;
      ghost var start := State(processor);
      HandledNothing<E>(start.pending);
      assert start.queued[..0] == [];
      status := Stopping;
      ghost var n := 0;
      var more := true;
      while more
        invariant queue.Valid() && Uncounted(processor) == old(Uncounted(processor))
        invariant n <= |start.queued| && State(processor) == Drained(start, n)
        invariant !more ==> n == |start.queued|
        decreases |start.queued| - n, more
      {
        more := ProcessOne(processor);
        if more {
          DrainStep(start, n);
          n := n + 1;
        } else {
          HandledNothing<E>(start.pending && n == 0);
          assert Drained(start, n).queued[..0] == [];
        }
      }
      status := Stopped;
    }

    /**
     * Exhaustion and an earlier stop request drain everything accepted and
     * end in `Stopped`; a source error leaves what is still queued and ends
     * in `Failed`. A finished service does nothing.
     */
    method Run(source: FiniteSource<E>, processor: Processor<E>) returns (result: Report)
      requires queue.Valid() && source.position <= |source.items|
      modifies queue, `report, `status, source, processor
      ensures result == report && queue.Valid() && Uncounted(processor) == old(Uncounted(processor))
      ensures var start, items := old(State(processor)), source.items[old(source.position)..];
        if old(status).Stopped? || old(status).Failed? then
          status == old(status) && State(processor) == start && source.position == old(source.position)
        else if stopRequested then
          status == Stopped && State(processor) == Drained(start, |start.queued|)
          && source.position == old(source.position)
        else
          && source.position == |source.items|
          && var received := Received(start, items, queue.capacity);
          && (source.ending.Exhausted? ==>
                status == Stopped && State(processor) == Drained(received, |received.queued|))
          && (source.ending.SourceError? ==>
                status == Failed
                && State(processor)
                   == received.(traffic := received.traffic.(sourceFailures := received.traffic.sourceFailures + 1)))
    {
      hide Tally, Handled, Received, Drained;
      if status.Stopped? || status.Failed? {
        return report;
      }
      status := Running;
      ghost var start, items := State(processor), source.items[source.position..];
      ghost var n := 0;
      ReceivedNothing(start, queue.capacity);
      assert items[..0] == [];
      while !stopRequested
        invariant queue.Valid() && n <= |items| && source.position == old(source.position) + n
        invariant stopRequested ==> n == 0
        invariant Uncounted(processor) == old(Uncounted(processor))
        invariant State(processor) == Received(start, items[..n], queue.capacity)
        decreases |items| - n
      {
        var next := source.NextEvent();
        match next {
          case Success(Some(event)) =>
            ReceiveStep(start, items, n, queue.capacity);
            var traffic := report.traffic;
            traffic := traffic.(received := traffic.received + 1);
            var enqueued := queue.TryEnqueue(event);
            if enqueued {
              traffic := traffic.(accepted := traffic.accepted + 1);
            } else {
              traffic := traffic.(dropped := traffic.dropped + 1);
            }
            report := report.(traffic := traffic);
            var _ := ProcessOne(processor);
            n := n + 1;
          case Success(None) =>
            assert items[..n] == items;
            FinishGracefully(processor);
            return report;
          case Failure(_) =>
            assert items[..n] == items;
            report := report.(traffic := report.traffic.(sourceFailures := report.traffic.sourceFailures + 1));
            status := Failed;
            return report;
        }
      }
      FinishGracefully(processor);
      return report;
    }
  }

  lemma ReceivedNothing<E>(p: Progress<E>, capacity: nat)
    requires 0 < capacity
    ensures Received(p, [], capacity) == p
  {
  }
}
