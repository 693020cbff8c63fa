/** src/metrics/processor.ts: the class. Its fields refine the transition system of
    module SendLoop: each method is one of its events. */
module Processor {
  import opened Wrappers
  import opened MetricsModel
  import opened Batches
  import opened Batcher
  import opened Timer
  import opened SendLoop
  import opened SendLoopProperties

  /** The API client: only the requests it was given are recorded. */
  class Client {
    var calls: seq<seq<APIMetric>>

    constructor ()
      ensures calls == []
    {
      calls := [];
    }

    method SendMetrics(metrics: seq<APIMetric>)
      modifies this
      ensures calls == old(calls) + [metrics]
    {
      calls := calls + [metrics];
    }
  }

  /** `loopPromise` and the local variables of `sendMetricsLoop` at its awaits. */
  datatype Loop =
    | Undefined
    | AtTimeout(promise: Deferred)
    | AtSend(oldBatcher: Batcher)
    | AtFinalSend(finalMetrics: seq<APIMetric>, attemptsLeft: nat)
    | Resolved
    | Rejected

  /** The batches of all requests so far, the one in flight last. */
  function SentBatches(s: State): seq<seq<nat>> {
    LoggedBatches(s.log) + if s.phase.Sending? || s.phase.Final? then [s.phase.batch] else []
  }

  function LoggedBatches(log: seq<Attempt>): (r: seq<seq<nat>>)
    ensures |r| == |log|
  {
    seq(|log|, j requires 0 <= j < |log| => log[j].batch)
  }

  /** `request` is what the batch of these metrics looks like to the API. */
  predicate IsRequest(request: seq<APIMetric>, added: seq<Entry>, batch: seq<nat>) {
    InRange(batch, |added|) && request == ApiView(Pick(added, batch))
  }

  predicate AreRequests(calls: seq<seq<APIMetric>>, added: seq<Entry>, batches: seq<seq<nat>>) {
    |calls| == |batches| && forall j :: 0 <= j < |calls| ==> IsRequest(calls[j], added, batches[j])
  }

  lemma RequestsAfterAdd(calls: seq<seq<APIMetric>>, added: seq<Entry>, batches: seq<seq<nat>>, metric: Entry)
    requires AreRequests(calls, added, batches)
    ensures AreRequests(calls, added + [metric], batches)
  {
    forall j | 0 <= j < |calls| ensures IsRequest(calls[j], added + [metric], batches[j]) {
      assert IsRequest(calls[j], added, batches[j]);
      PickAfterAdd(added, batches[j], metric);
    }
  }

  lemma PickAfterAdd(added: seq<Entry>, batch: seq<nat>, metric: Entry)
    requires InRange(batch, |added|)
    ensures InRange(batch, |added + [metric]|) && Pick(added + [metric], batch) == Pick(added, batch)
  {
  }

  /** An add changes neither what earlier requests contained nor what a batch names. */
  lemma StateAfterAdd(calls: seq<seq<APIMetric>>, s: State, metric: Entry)
    requires AreRequests(calls, s.added, SentBatches(s))
    requires InRange(s.batcher, |s.added|)
    ensures var t := Next(s, Add(metric));
            && AreRequests(calls, t.added, SentBatches(t))
            && InRange(t.batcher, |t.added|)
            && Pick(t.added, t.batcher) == Pick(s.added, s.batcher) + [metric]
            && (forall batch :: InRange(batch, |s.added|) ==>
                  InRange(batch, |t.added|) && Pick(t.added, batch) == Pick(s.added, batch))
  {
    RequestsAfterAdd(calls, s.added, SentBatches(s), metric);
  }

  lemma EmptyRequestIffEmptyBatch(added: seq<Entry>, batch: seq<nat>)
    requires InRange(batch, |added|)
    ensures ApiView(Pick(added, batch)) == [] <==> batch == []
    ensures Pick(added, []) == []
  {
    NothingToSendIffNothingAdded(Pick(added, batch));
  }

  lemma OneMoreRequest(calls: seq<seq<APIMetric>>, added: seq<Entry>, batches: seq<seq<nat>>,
                       request: seq<APIMetric>, batch: seq<nat>)
    requires AreRequests(calls, added, batches) && IsRequest(request, added, batch)
    ensures AreRequests(calls + [request], added, batches + [batch])
  {
  }

  lemma SwapOutcome(s: State)
    requires TimerOk(s) && BatchOk(s) && s.phase == Woken(false)
    ensures SentBatches(s) == LoggedBatches(s.log) && !s.timer.waiting
    ensures var emptied := s.(batcher := []);
            var t := if s.batcher == [] then LoopTop(emptied) else emptied.(phase := Sending(s.batcher, |s.added|));
            Next(s, Wake) == t && TimerOk(t) && BatchOk(t)
  {
    NextKeepsTimerAndBatch(s, Wake);
  }

  class Processor {
    const client: Client
    const timer: Timer
    const shouldRetryOnFail: bool
    var batcher: Batcher
    var loop: Loop
    ghost var state: State

    ghost function Repr(): set<object>
      reads this, timer
    {
      {this, client, timer, batcher} + timer.issued + if loop.AtSend? then {loop.oldBatcher} else {}
    }

    ghost predicate Holds(b: Batcher, batch: seq<nat>)
      reads this, b
    {
      b.Valid() && InRange(batch, |state.added|) && b.added == Pick(state.added, batch)
    }

    ghost predicate LoopMatches()
      reads this, timer, timer.issued, if loop.AtSend? then {loop.oldBatcher} else {}
    {
      match loop
      case Undefined => state.phase.NotStarted?
      case AtTimeout(p) =>
        p in timer.issued
        && if p.value == None then p == timer.currentPromise && state.phase.Waiting?
           else state.phase == Woken(p.value.value)
      case AtSend(oldBatcher) =>
        oldBatcher != batcher && state.phase.Sending? && Holds(oldBatcher, state.phase.batch)
      case AtFinalSend(finalMetrics, attemptsLeft) =>
        state.phase.Final? && attemptsLeft == state.phase.attemptsLeft
        && IsRequest(finalMetrics, state.added, state.phase.batch)
      case Resolved => state.phase.Done?
      case Rejected => state.phase.Failed?
    }

    /** The fields the loop shares with the rest, apart from the batcher. */
    ghost predicate Consistent()
      reads this, client, timer, timer.issued
    {
      && timer.Valid()
      && state.timer == TimerView(timer.interval, timer.currentPromise != null, timer.isCompleted)
      && state.retry == shouldRetryOnFail
    }

    ghost predicate LoopOk()
      reads this, client, timer, timer.issued, if loop.AtSend? then {loop.oldBatcher} else {}
    {
      TimerOk(state) && BatchOk(state) && LoopMatches() && AreRequests(client.calls, state.added, SentBatches(state))
    }

    ghost predicate Valid()
      reads this, client, timer, timer.issued, batcher, if loop.AtSend? then {loop.oldBatcher} else {}
    {
      Consistent() && LoopOk() && Holds(batcher, state.batcher)
    }

    constructor (client: Client, shouldRetryOnFail: bool)
      requires client.calls == []
      ensures Valid() && state == Initial(shouldRetryOnFail) && this.client == client
      ensures fresh(Repr() - {client})
    {
      this.client := client;
      this.shouldRetryOnFail := shouldRetryOnFail;
      timer := new Timer();
      batcher := new Batcher();
      loop := Undefined;
      state := Initial(shouldRetryOnFail);
      new;
      assert batcher.added == Pick(state.added, state.batcher);
      assert LoopOk();
    }

    /** `this.loopPromise = this.sendMetricsLoop()` up to, and every later arrival at, the
        `await` of the loop's condition. */
    method AwaitTimeout()
      requires Consistent() && Holds(batcher, state.batcher) && timer.currentPromise == null
      requires TimerOk(LoopTop(state)) && BatchOk(LoopTop(state))
      requires AreRequests(client.calls, state.added, LoggedBatches(state.log))
      modifies this`loop, this`state, timer
      ensures Valid() && state == LoopTop(old(state)) && fresh(timer.issued - old(timer.issued))
      ensures loop.AtTimeout?
    {
      var promise := timer.NextTimeout();
      loop := AtTimeout(promise);
      state := LoopTop(state);
      assert LoggedBatches(state.log) + [] == LoggedBatches(state.log);
    }

    method StartProcessing()
      requires Valid()
      modifies this, timer
      ensures Valid() && fresh(Repr() - old(Repr())) && state == Next(old(state), Start)
      ensures if old(loop) == Undefined then timer.interval && loop.AtTimeout? && loop.promise.value == None
              else loop == old(loop) && timer.interval == old(timer.interval)
    {
      if loop != Undefined { return; }
      assert LoggedBatches(state.log) + [] == LoggedBatches(state.log);
      timer.Start();
      state := state.(timer := state.timer.(running := true));
      AwaitTimeout();
    }

    method AddMetric(metric: Distribution)
      requires Valid()
      modifies this`state, batcher
      ensures Valid() && Repr() == old(Repr()) && state == Next(old(state), Add(Keyed(metric)))
      ensures batcher.added == old(batcher.added) + [Keyed(metric)]
    {
      batcher.Add(metric);
      RecordAdd(Keyed(metric));
    }

    /** The history catches up with the batcher. */
    ghost method RecordAdd(entry: Entry)
      requires Consistent() && LoopOk() && batcher.Valid() && InRange(state.batcher, |state.added|)
      requires batcher.added == Pick(state.added, state.batcher) + [entry]
      modifies this`state
      ensures Valid() && state == Next(old(state), Add(entry))
    {
      StateAfterAdd(client.calls, state, entry);
      NextKeepsTimerAndBatch(state, Add(entry));
      state := Next(state, Add(entry));
    }

    /** The interval callback, which runs only while the interval is set. */
    method OnInterval()
      requires Valid()
      modifies this, timer, timer.issued
      ensures Valid() && Repr() == old(Repr()) && state == Next(old(state), Tick)
      ensures loop == old(loop) && batcher == old(batcher)
      ensures old(timer.interval) && loop.AtTimeout? ==> loop.promise.value == Some(false)
    {
      NextKeepsTimerAndBatch(state, Tick);
      if timer.interval {
        timer.OnInterval();
      }
      state := Next(state, Tick);
    }

    /** `flush()` up to its `await`. */
    method Flush()
      requires Valid()
      modifies this, timer, timer.issued
      ensures Valid() && fresh(Repr() - old(Repr())) && state == Next(old(state), SendLoop.Flush)
      ensures timer.isCompleted && !timer.interval && batcher == old(batcher)
      ensures if old(loop) == Undefined then loop.AtTimeout? && loop.promise.value == Some(true) else loop == old(loop)
      ensures loop.AtTimeout? ==> loop.promise.value.Some?
    {
      NextKeepsTimerAndBatch(state, SendLoop.Flush);
      timer.Complete();
      if loop == Undefined {
        assert LoggedBatches(state.log) + [] == LoggedBatches(state.log);
        state := state.(timer := TimerView(false, false, true));
        AwaitTimeout();
      } else {
        state := Next(state, SendLoop.Flush);
      }
    }

    /** The loop's condition was false: swap the batcher and send what the old one held. */
    method SwapAndSend()
      requires Valid() && loop.AtTimeout? && loop.promise.value == Some(false)
      modifies this, timer, client
      ensures Valid() && fresh(Repr() - old(Repr())) && state == Next(old(state), Wake)
      ensures client.calls == old(client.calls) + if old(batcher.added) == [] then [] else [old(ApiView(batcher.added))]
      ensures batcher.added == [] && if old(batcher.added) == [] then loop.AtTimeout? else loop == AtSend(old(batcher))
    {
      ghost var batch := state.batcher;
      SwapOutcome(state);
      EmptyRequestIffEmptyBatch(state.added, batch);
      var oldBatcher := batcher;
      batcher := new Batcher();
      state := state.(batcher := []);
      var metrics := oldBatcher.ToAPIMetrics();
      if |metrics| == 0 {
        AwaitTimeout();
      } else {
        BeginSend(oldBatcher, metrics, batch);
      }
    }

    method BeginSend(oldBatcher: Batcher, metrics: seq<APIMetric>, ghost batch: seq<nat>)
      requires Consistent() && Holds(batcher, state.batcher) && oldBatcher != batcher && Holds(oldBatcher, batch)
      requires metrics == ApiView(oldBatcher.added)
      requires AreRequests(client.calls, state.added, LoggedBatches(state.log))
      requires var t := state.(phase := Sending(batch, |state.added|)); TimerOk(t) && BatchOk(t)
      modifies this`loop, this`state, client
      ensures Valid() && loop == AtSend(oldBatcher) && client.calls == old(client.calls) + [metrics]
      ensures state == old(state).(phase := Sending(batch, |state.added|))
    {
      OneMoreRequest(client.calls, state.added, LoggedBatches(state.log), metrics, batch);
      client.SendMetrics(metrics);
      loop := AtSend(oldBatcher);
      state := state.(phase := Sending(batch, |state.added|));
    }

    /** The loop's condition was true: take the final snapshot and make the first attempt. */
    method FinalSnapshot()
      requires Valid() && loop.AtTimeout? && loop.promise.value == Some(true)
      modifies this, client
      ensures Valid() && fresh(Repr() - old(Repr())) && state == Next(old(state), Wake)
      ensures client.calls == old(client.calls) + if batcher.added == [] then [] else [ApiView(batcher.added)]
      ensures batcher == old(batcher) && batcher.added == old(batcher.added)
              && loop == if batcher.added == [] then Resolved
                         else AtFinalSend(ApiView(batcher.added), if shouldRetryOnFail then 3 else 1)
    {
      ghost var s := state;
      NextKeepsTimerAndBatch(s, Wake);
      assert SentBatches(s) == LoggedBatches(s.log) && LoggedBatches(s.log) + [] == LoggedBatches(s.log);
      var finalMetrics := batcher.ToAPIMetrics();
      EmptyRequestIffEmptyBatch(s.added, s.batcher);
      if |finalMetrics| == 0 {
        loop := Resolved;
      } else {
        var retries := if shouldRetryOnFail then 2 else 0;
        OneMoreRequest(client.calls, s.added, LoggedBatches(s.log), finalMetrics, s.batcher);
        client.SendMetrics(finalMetrics);
        loop := AtFinalSend(finalMetrics, retries + 1);
      }
      state := Next(s, Wake);
    }

    /** The loop resumes after `await this.timer.nextTimeout()`. */
    method ResumeAfterTimeout()
      requires Valid() && loop.AtTimeout? && loop.promise.value.Some?
      modifies this, timer, client
      ensures Valid() && fresh(Repr() - old(Repr())) && state == Next(old(state), Wake)
      ensures client.calls == old(client.calls) + if old(batcher.added) == [] then [] else [old(ApiView(batcher.added))]
      ensures old(loop.promise.value) == Some(false) ==>
                && batcher.added == []
                && (if old(batcher.added) == [] then loop.AtTimeout? else loop == AtSend(old(batcher)))
      ensures old(loop.promise.value) == Some(true) ==>
                && batcher == old(batcher) && batcher.added == old(batcher.added)
                && loop == if batcher.added == [] then Resolved
                           else AtFinalSend(ApiView(batcher.added), if shouldRetryOnFail then 3 else 1)
    {
      if loop.promise.value == Some(false) { SwapAndSend(); } else { FinalSnapshot(); }
    }

    /** The loop resumes after `await this.client.sendMetrics(metrics)`, by the `catch`
        block if the client refused. */
    method ResumeAfterSend(ok: bool)
      requires Valid() && loop.AtSend?
      modifies this, timer
      ensures Valid() && fresh(Repr() - old(Repr())) && state == Next(old(state), Reply(ok))
      ensures loop.AtTimeout? && batcher == if !ok && shouldRetryOnFail then old(loop.oldBatcher) else old(batcher)
    {
      ghost var s := state;
      NextKeepsTimerAndBatch(s, Reply(ok));
      ghost var logged := s.(log := s.log + [Attempt(s.phase.batch, s.phase.since, |s.added|, false, ok)]);
      assert LoggedBatches(logged.log) == LoggedBatches(s.log) + [s.phase.batch];
      if !ok && shouldRetryOnFail {
        batcher := loop.oldBatcher;
        state := logged.(batcher := s.phase.batch);
      } else {
        state := logged;
      }
      AwaitTimeout();
    }

    /** One attempt of `promiseRetry` settles; a refused one is repeated while attempts are
        left. */
    method ResumeAfterFinalAttempt(ok: bool)
      requires Valid() && loop.AtFinalSend?
      modifies this, client
      ensures Valid() && fresh(Repr() - old(Repr())) && state == Next(old(state), Reply(ok))
      ensures batcher == old(batcher)
      ensures loop == if ok then Resolved
                      else if old(loop.attemptsLeft) > 1 then old(loop.(attemptsLeft := loop.attemptsLeft - 1))
                      else Rejected
      ensures client.calls == old(client.calls)
                              + if !ok && old(loop.attemptsLeft) > 1 then [old(loop.finalMetrics)] else []
    {
      ghost var s := state;
      NextKeepsTimerAndBatch(s, Reply(ok));
      ghost var t := Next(s, Reply(ok));
      assert LoggedBatches(t.log) == LoggedBatches(s.log) + [s.phase.batch];
      assert LoggedBatches(t.log) + [] == LoggedBatches(t.log);
      if ok {
        loop := Resolved;
      } else if loop.attemptsLeft > 1 {
        OneMoreRequest(client.calls, s.added, SentBatches(s), loop.finalMetrics, s.phase.batch);
        client.SendMetrics(loop.finalMetrics);
        loop := AtFinalSend(loop.finalMetrics, loop.attemptsLeft - 1);
      } else {
        loop := Rejected;
      }
      state := t;
    }
  }
}
