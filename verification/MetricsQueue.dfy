/** src/metrics/queue.ts and `sendQueueMetrics` of src/index.ts: metrics submitted while no
    listener is active wait in a bounded list, which the next invocation drains. */
module MetricsQueue {
  import opened Wrappers
  import opened Sequences
  import opened JsStrings
  import opened Batches
  import opened MetricsListener

  const METRICS_QUEUE_LIMIT: nat := 1024

  datatype MetricParameters = MetricParameters(
    name: JsString, value: real, tags: seq<JsString>, metricTime: Option<int>)

  function Reversed<T>(s: seq<T>): (r: seq<T>)
    ensures |r| == |s|
    ensures forall i :: 0 <= i < |s| ==> r[i] == s[|s| - 1 - i]
  {
    seq(|s|, i requires 0 <= i < |s| => s[|s| - 1 - i])
  }

  class MetricsQueue {
    var queue: seq<MetricParameters>

    constructor ()
      ensures queue == []
    {
      queue := [];
    }

    method Push(metric: MetricParameters)
      modifies this
      ensures queue == AfterPush(old(queue), metric)
      ensures queue == if |old(queue)| >= 1024 then [metric] else old(queue) + [metric]
    {
      if |queue| >= METRICS_QUEUE_LIMIT {
        Reset();
      }
      queue := queue + [metric];
    }

    method Pop() returns (metric: Option<MetricParameters>)
      modifies this
      ensures old(queue) == [] ==> metric == None && queue == []
      ensures old(queue) != [] ==>
                metric == Some(old(queue)[|old(queue)| - 1]) && queue == old(queue)[..|old(queue)| - 1]
    {
      if |queue| > 0 {
        metric := Some(queue[|queue| - 1]);
        queue := queue[..|queue| - 1];
      } else {
        metric := None;
      }
    }

    method Reverse()
      modifies this
      ensures queue == Reversed(old(queue))
    {
      queue := Reversed(queue);
    }

    method Reset()
      modifies this
      ensures queue == []
    {
      queue := [];
    }
  }

  /** A push on a full queue first drops everything. */
  function AfterPush(queue: seq<MetricParameters>, metric: MetricParameters): seq<MetricParameters> {
    (if |queue| >= METRICS_QUEUE_LIMIT then [] else queue) + [metric]
  }

  function AfterPushes(metrics: seq<MetricParameters>): seq<MetricParameters> {
    if metrics == [] then []
    else AfterPush(AfterPushes(metrics[..|metrics| - 1]), metrics[|metrics| - 1])
  }

  /** How many metrics n pushes leave, counted push by push. */
  function Kept(n: nat): (k: nat)
    ensures k <= n && (n > 0 ==> 0 < k <= METRICS_QUEUE_LIMIT)
  {
    if n == 0 then 0 else if Kept(n - 1) == METRICS_QUEUE_LIMIT then 1 else Kept(n - 1) + 1
  }

  lemma {:induction false} KeptIsRemainder(n: nat)
    ensures Kept(n + 1) == n % 1024 + 1
  {
    if n > 0 { KeptIsRemainder(n - 1); }
  }

  lemma PushOnLatest(metrics: seq<MetricParameters>, kept: nat)
    requires kept < |metrics| && kept <= METRICS_QUEUE_LIMIT
    ensures var n, more := |metrics|, if kept == METRICS_QUEUE_LIMIT then 1 else kept + 1;
            AfterPush(metrics[n - 1 - kept..n - 1], metrics[n - 1]) == metrics[n - more..]
  {
  }

  /** After any number of pushes on an empty queue, it holds the latest of them, in order. */
  lemma {:induction false} QueueHoldsTheLatest(metrics: seq<MetricParameters>)
    ensures AfterPushes(metrics) == metrics[|metrics| - Kept(|metrics|)..]
  {
    var n := |metrics|;
    if n > 0 {
      var earlier, kept := metrics[..n - 1], Kept(n - 1);
      QueueHoldsTheLatest(earlier);
      assert earlier[n - 1 - kept..] == metrics[n - 1 - kept..n - 1];
      PushOnLatest(metrics, kept);
    }
  }

  /** The call a drain makes for a metric; the clock is read if it has no time of its own. */
  function ToCall(metric: MetricParameters, nowMs: int): Call {
    Call(metric.name, metric.value, if metric.metricTime.Some? then metric.metricTime.value else nowMs, metric.tags)
  }

  /** The calls of a drain, in push order; `clock(i)` is the time of the i-th. A metric keeps
      the time it was queued with, if any. */
  function Calls(metrics: seq<MetricParameters>, clock: nat -> int): (calls: seq<Call>)
    ensures |calls| == |metrics|
    ensures forall i :: 0 <= i < |metrics| ==>
              && calls[i].name == metrics[i].name && calls[i].value == metrics[i].value
              && calls[i].tags == metrics[i].tags
              && calls[i].timeMs == match metrics[i].metricTime case Some(ms) => ms case None => clock(i)
  {
    var calls := seq(|metrics|, i requires 0 <= i < |metrics| => ToCall(metrics[i], clock(i)));
    assert forall i :: 0 <= i < |metrics| ==> calls[i] == ToCall(metrics[i], clock(i));
    calls
  }

  /** The extension does not take points that are older than four hours when it is called. */
  predicate IsRecent(call: Call, nowMs: int) { call.timeMs >= nowMs - HISTORICAL_METRICS_THRESHOLD_MS }

  function Recent(calls: seq<Call>, clock: nat -> int): seq<Call> {
    if calls == [] then []
    else
      var n := |calls| - 1;
      Recent(calls[..n], clock) + if IsRecent(calls[n], clock(n)) then [calls[n]] else []
  }

  /** `Recent` picks, in order, exactly the calls not older than 14 400 000 milliseconds. */
  lemma {:induction false} RecentPicks(calls: seq<Call>, clock: nat -> int) returns (places: seq<nat>)
    ensures PicksOut(Recent(calls, clock), calls, places)
    ensures forall i :: 0 <= i < |calls| ==> (i in places <==> clock(i) - calls[i].timeMs <= 14_400_000)
  {
    if calls == [] {
      places := [];
    } else {
      var n := |calls| - 1;
      var init, last := calls[..n], calls[n];
      places := RecentPicks(init, clock);
      PicksOneMore(Recent(init, clock), init, places, last);
      assert forall i :: 0 <= i < n ==> init[i] == calls[i];
      assert calls == init + [last];
      if IsRecent(last, clock(n)) { places := places + [n]; }
    }
  }

  /** What a listener has handed on, by receiver. */
  datatype Output = Output(statsD: seq<Call>, stdout: seq<LogLine>, submitted: seq<Entry>)
  {
    function Then(more: Output): Output {
      Output(statsD + more.statsD, stdout + more.stdout, submitted + more.submitted)
    }
  }

  /** Which receivers take calls now. */
  datatype Takers = Takers(statsD: bool, stdout: bool, submitted: bool)

  ghost function OutputOf(listener: MetricsListener): Output
    reads listener
  {
    Output(listener.statsD, listener.stdout, listener.flow.submitted)
  }

  ghost function TakersOf(listener: MetricsListener): Takers
    reads listener
  {
    var extension := listener.isExtensionRunning == Some(true);
    Takers(extension, !extension && listener.config.logForwarding,
           listener.hasProcessor && !listener.config.fipsMode)
  }

  /** What the calls amount to: each in order, for every receiver that takes them. */
  function Sent(takers: Takers, calls: seq<Call>, clock: nat -> int): Output {
    Output(if takers.statsD then Recent(calls, clock) else [],
           if takers.stdout then Map(LineOf, calls) else [],
           if takers.submitted then Map(EntryOf, calls) else [])
  }

  function SentOne(takers: Takers, call: Call, nowMs: int): Output {
    Output(if takers.statsD && IsRecent(call, nowMs) then [call] else [],
           if takers.stdout then [LineOf(call)] else [],
           if takers.submitted then [EntryOf(call)] else [])
  }

  /** The body of the drain: pop one metric and hand it to the listener. */
  method Forward(queue: MetricsQueue, listener: MetricsListener, nowMs: int)
    requires queue.queue != [] && listener.Valid()
    modifies queue, listener
    ensures queue.queue == old(queue.queue)[..|old(queue.queue)| - 1]
    ensures listener.Valid() && TakersOf(listener) == old(TakersOf(listener))
    ensures OutputOf(listener) == old(OutputOf(listener)).Then(
              SentOne(old(TakersOf(listener)), ToCall(old(queue.queue)[|old(queue.queue)| - 1], nowMs), nowMs))
  {
    var popped := queue.Pop();
    var metric := popped.value;
    var metricTime := if metric.metricTime.Some? then metric.metricTime.value else nowMs;
    listener.SendDistributionMetricWithDate(Call(metric.name, metric.value, metricTime, metric.tags), false, nowMs);
  }

  lemma RecentOneMore(calls: seq<Call>, clock: nat -> int, n: nat)
    requires n < |calls|
    ensures Recent(calls[..n + 1], clock)
         == Recent(calls[..n], clock) + if IsRecent(calls[n], clock(n)) then [calls[n]] else []
  {
    assert calls[..n + 1][..n] == calls[..n];
  }

  lemma SentOneMore(takers: Takers, calls: seq<Call>, clock: nat -> int, n: nat)
    requires n < |calls|
    ensures Sent(takers, calls[..n], clock).Then(SentOne(takers, calls[n], clock(n)))
         == Sent(takers, calls[..n + 1], clock)
  {
    RecentOneMore(calls, clock, n);
    MapOneMore(LineOf, calls, n);
    MapOneMore(EntryOf, calls, n);
  }

  lemma ThenThen(a: Output, b: Output, c: Output)
    ensures a.Then(b).Then(c) == a.Then(b.Then(c))
  {
  }

  lemma DrainStep(before: Output, takers: Takers, calls: seq<Call>, clock: nat -> int, n: nat)
    requires n < |calls|
    ensures before.Then(Sent(takers, calls[..n], clock)).Then(SentOne(takers, calls[n], clock(n)))
         == before.Then(Sent(takers, calls[..n + 1], clock))
  {
    ThenThen(before, Sent(takers, calls[..n], clock), SentOne(takers, calls[n], clock(n)));
    SentOneMore(takers, calls, clock, n);
  }

  lemma DrainStart(before: Output, takers: Takers, calls: seq<Call>, clock: nat -> int)
    ensures before.Then(Sent(takers, calls[..0], clock)) == before
    ensures calls[..|calls|] == calls
  {
    assert calls[..0] == [];
  }

  /** The reversed list after `n` pops. */
  function Left(metrics: seq<MetricParameters>, n: nat): (left: seq<MetricParameters>)
    requires n <= |metrics|
    ensures |left| == |metrics| - n
  {
    Reversed(metrics)[..|metrics| - n]
  }

  /** Its last element is the metric pushed as number `n`. */
  lemma NextToLeave(metrics: seq<MetricParameters>, n: nat)
    requires n < |metrics|
    ensures var left := Left(metrics, n); left[|left| - 1] == metrics[n] && left[..|left| - 1] == Left(metrics, n + 1)
  {
  }

  /** The list is a stack: it is reversed once, then popped until empty, so that the metrics
      leave in the order in which they were pushed, whichever way they go. */
  method DrainAll(queue: MetricsQueue, listener: MetricsListener, clock: nat -> int)
    requires listener.Valid()
    modifies queue, listener
    ensures listener.Valid() && queue.queue == []
    ensures OutputOf(listener) == old(OutputOf(listener)).Then(
              Sent(old(TakersOf(listener)), Calls(old(queue.queue), clock), clock))
  {
    ghost var metrics, calls := queue.queue, Calls(queue.queue, clock);
    ghost var before, takers := OutputOf(listener), TakersOf(listener);
    DrainStart(before, takers, calls, clock);
    queue.Reverse();
    assert queue.queue == Left(metrics, 0);
    var sent: nat := 0;
    while |queue.queue| > 0
      invariant sent <= |metrics| && queue.queue == Left(metrics, sent)
      invariant listener.Valid() && TakersOf(listener) == takers
      invariant OutputOf(listener) == before.Then(Sent(takers, calls[..sent], clock))
      decreases |queue.queue|
    {
      NextToLeave(metrics, sent);
      DrainStep(before, takers, calls, clock, sent);
      Forward(queue, listener, clock(sent));
      sent := sent + 1;
    }
  }

  /** With the extension, the recent calls go to it; without it and with log forwarding, a
      line for each call is written; otherwise, with a processor and outside FIPS mode, each
      call is submitted; and nothing else happens. */
  method SendQueueMetrics(queue: MetricsQueue, listener: MetricsListener, clock: nat -> int)
    requires listener.Valid()
    modifies queue, listener
    ensures listener.Valid() && queue.queue == []
    ensures var calls := Calls(old(queue.queue), clock);
            var extension := old(listener.isExtensionRunning) == Some(true);
            var logs, fips := listener.config.logForwarding, listener.config.fipsMode;
            && listener.statsD == old(listener.statsD) + (if extension then Recent(calls, clock) else [])
            && listener.stdout == old(listener.stdout) + (if !extension && logs then Map(LineOf, calls) else [])
            && listener.flow.submitted
               == old(listener.flow.submitted)
                  + (if !extension && !logs && old(listener.hasProcessor) && !fips then Map(EntryOf, calls) else [])
  {
    DrainAll(queue, listener, clock);
  }
}
