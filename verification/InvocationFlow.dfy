/** src/metrics/listener.ts for one invocation: metrics wait as reactions on the promise of
    the processor, and `onCompleteInvocation` lets them run before it flushes. Promise
    reactions run first in, first out; a `setImmediate` callback runs only when the
    microtask queue is empty. */
module InvocationFlow {
  import opened Sequences
  import opened Batches
  import SendLoop
  import SendLoopProperties

  datatype Task =
    | AddTask(metric: Entry) // `processor => processor.addMetric(dist)`
    | ResumeAwait            // onCompleteInvocation after `await this.currentProcessor`
    | ResumeImmediate        // onCompleteInvocation after `await promisify(setImmediate)()`

  datatype Promise = Pending(reactions: seq<Task>) | Fulfilled | Rejected

  datatype Completion =
    NotCalled | AwaitingProcessor | AwaitingImmediate | ImmediateDone | AwaitingFlush | Completed

  datatype State = State(
    promise: Promise, microtasks: seq<Task>, completion: Completion,
    loop: SendLoop.State,  // of the processor, not started before the promise is fulfilled
    submitted: seq<Entry>, // history: metrics that reached the processor branch
    atComplete: nat)       // history: how many of them when onCompleteInvocation was called

  datatype Event =
    | Submit(metric: Entry)    // sendDistributionMetricWithDate, at its processor branch
    | KeySettles(ok: bool)     // the API key arrives and createProcessor returns or throws
    | Microtask                // the oldest microtask runs
    | Complete                 // onCompleteInvocation() up to its first await
    | Immediate                // the setImmediate callback
    | FlushSettles             // `await processor.flush()` returns or throws
    | Loop(e: SendLoop.Event)  // a timer tick, or the send loop resumes

  function Initial(retry: bool): State {
    State(Pending([]), [], NotCalled, SendLoop.Initial(retry), [], 0)
  }

  /** `currentProcessor.then(task)`. A rejected promise runs no task, but an `await` of it
      resumes by throwing. */
  function Then(s: State, task: Task): State {
    match s.promise
    case Pending(reactions) => s.(promise := Pending(reactions + [task]))
    case Fulfilled => s.(microtasks := s.microtasks + [task])
    case Rejected => if task == ResumeAwait then s.(microtasks := s.microtasks + [task]) else s
  }

  function Settle(s: State, ok: bool): State
    requires s.promise.Pending?
  {
    if ok then
      s.(promise := Fulfilled, microtasks := s.microtasks + s.promise.reactions,
         loop := SendLoop.Next(s.loop, SendLoop.Start))
    else
      s.(promise := Rejected,
         microtasks := s.microtasks + if ResumeAwait in s.promise.reactions then [ResumeAwait] else [])
  }

  function RunTask(s: State, task: Task): State {
    match task
    case AddTask(metric) => s.(loop := SendLoop.Next(s.loop, SendLoop.Add(metric)))
    case ResumeAwait =>
      if s.completion != AwaitingProcessor then s
      else s.(completion := if s.promise.Rejected? then Completed else AwaitingImmediate)
    case ResumeImmediate =>
      if s.completion != ImmediateDone then s
      else s.(completion := AwaitingFlush, loop := SendLoop.Next(s.loop, SendLoop.Flush))
  }

  /** One step. An event that cannot happen in `s` leaves `s` as it is. */
  function Next(s: State, e: Event): State {
    match e
    case Submit(metric) =>
      if s.completion == Completed then s // currentProcessor is undefined again
      else Then(s.(submitted := s.submitted + [metric]), AddTask(metric))
    case KeySettles(ok) => if s.promise.Pending? then Settle(s, ok) else s
    case Microtask =>
      if s.microtasks == [] then s else RunTask(s.(microtasks := s.microtasks[1..]), s.microtasks[0])
    case Complete =>
      if s.completion != NotCalled then s
      else Then(s.(completion := AwaitingProcessor, atComplete := |s.submitted|), ResumeAwait)
    case Immediate =>
      if s.completion != AwaitingImmediate || s.microtasks != [] then s
      else s.(completion := ImmediateDone, microtasks := [ResumeImmediate])
    case FlushSettles =>
      if s.completion == AwaitingFlush && SendLoopProperties.Finished(s.loop)
      then s.(completion := Completed) else s
    case Loop(l) =>
      if l.Tick? || l.Wake? || l.Reply? then s.(loop := SendLoop.Next(s.loop, l)) else s
  }

  function Run(s: State, events: seq<Event>): State {
    if events == [] then s else Next(Run(s, events[..|events| - 1]), events[|events| - 1])
  }

  // ---------- the invariant ----------

  function AddsIn(tasks: seq<Task>): seq<Entry> {
    if tasks == [] then []
    else (if tasks[0].AddTask? then [tasks[0].metric] else []) + AddsIn(tasks[1..])
  }

  lemma {:induction false} AddsInAppend(tasks: seq<Task>, task: Task)
    ensures AddsIn(tasks + [task]) == AddsIn(tasks) + if task.AddTask? then [task.metric] else []
  {
    if tasks != [] {
      AddsInAppend(tasks[1..], task);
      assert (tasks + [task])[1..] == tasks[1..] + [task];
    }
  }

  predicate FlushBegun(s: State) {
    s.completion == AwaitingFlush || (s.completion == Completed && s.promise.Fulfilled?)
  }

  /** Every submitted metric is in the processor or on its way there, in order. */
  predicate InOrder(s: State) {
    match s.promise
    case Pending(reactions) => s.microtasks == [] && s.loop.added == [] && AddsIn(reactions) == s.submitted
    case Fulfilled => s.loop.added + AddsIn(s.microtasks) == s.submitted
    case Rejected => s.loop.added == [] && AddsIn(s.microtasks) == []
  }

  predicate BarrierOk(s: State) {
    && (s.loop.timer.completed <==> FlushBegun(s))
    && (s.completion != NotCalled ==> s.atComplete <= |s.submitted|)
    && (s.promise.Pending? ==> s.completion == NotCalled || s.completion == AwaitingProcessor)
    && (s.completion == AwaitingImmediate || s.completion == ImmediateDone || s.completion == AwaitingFlush
        ==> s.promise.Fulfilled?)
    && (s.completion == ImmediateDone ==>
          s.microtasks != [] && s.microtasks[0] == ResumeImmediate && s.atComplete <= |s.loop.added|)
    && (s.completion == Completed ==> s.promise.Rejected? || SendLoopProperties.Finished(s.loop))
    && (FlushBegun(s) ==> SendLoopProperties.NotStranded(s.loop, s.atComplete))
  }

  ghost predicate Inv(s: State) { InOrder(s) && BarrierOk(s) && SendLoop.Inv(s.loop) }

  lemma ThenKeepsOrder(s: State, task: Task, t: State)
    requires InOrder(s)
    requires t.promise == s.promise && t.microtasks == s.microtasks && t.loop == s.loop
    requires t.submitted == s.submitted + if task.AddTask? then [task.metric] else []
    ensures InOrder(Then(t, task))
  {
    match s.promise
    case Pending(reactions) => AddsInAppend(reactions, task);
    case Fulfilled =>
      AddsInAppend(s.microtasks, task);
      assert s.loop.added + (AddsIn(s.microtasks) + if task.AddTask? then [task.metric] else []) == t.submitted;
    case Rejected => AddsInAppend(s.microtasks, task);
  }

  lemma NextKeepsOrder(s: State, e: Event)
    requires InOrder(s) && BarrierOk(s)
    ensures InOrder(Next(s, e))
  {
    match e
    case Submit(metric) =>
      if s.completion != Completed { ThenKeepsOrder(s, AddTask(metric), s.(submitted := s.submitted + [metric])); }
    case Complete =>
      if s.completion == NotCalled {
        assert s.submitted + [] == s.submitted;
        ThenKeepsOrder(s, ResumeAwait, s.(completion := AwaitingProcessor, atComplete := |s.submitted|));
      }
    case KeySettles(ok) =>
      if s.promise.Pending? { SettleKeepsOrder(s, ok); }
    case Microtask =>
      if s.microtasks != [] { MicrotaskKeepsOrder(s); }
    case Immediate => assert AddsIn([ResumeImmediate]) == AddsIn([]);
    case Loop(l) =>
      if l.Tick? || l.Wake? || l.Reply? { LoopKeepsAdded(s.loop, l); }
    case FlushSettles =>
  }

  lemma LoopKeepsAdded(s: SendLoop.State, e: SendLoop.Event)
    requires !e.Add?
    ensures SendLoop.Next(s, e).added == s.added
  {
  }

  lemma SettleKeepsOrder(s: State, ok: bool)
    requires InOrder(s) && s.promise.Pending?
    ensures InOrder(Settle(s, ok))
  {
    LoopKeepsAdded(s.loop, SendLoop.Start);
    assert s.microtasks + s.promise.reactions == s.promise.reactions;
    assert AddsIn([ResumeAwait]) == AddsIn([]);
  }

  lemma MicrotaskKeepsOrder(s: State)
    requires InOrder(s) && s.microtasks != []
    ensures InOrder(Next(s, Microtask))
  {
    var task, rest := s.microtasks[0], s.microtasks[1..];
    AddsInFirst(s.microtasks);
    TaskAdds(s.(microtasks := rest), task);
    Regroup(s.loop.added, if task.AddTask? then [task.metric] else [], AddsIn(rest));
  }

  lemma AddsInFirst(tasks: seq<Task>)
    requires tasks != []
    ensures AddsIn(tasks) == (if tasks[0].AddTask? then [tasks[0].metric] else []) + AddsIn(tasks[1..])
  {
  }

  lemma TaskAdds(s: State, task: Task)
    ensures RunTask(s, task).loop.added == s.loop.added + if task.AddTask? then [task.metric] else []
    ensures RunTask(s, task).promise == s.promise && RunTask(s, task).microtasks == s.microtasks
    ensures RunTask(s, task).submitted == s.submitted
  {
    if !task.AddTask? { assert s.loop.added + [] == s.loop.added; }
  }

  // What each event does to the barrier between the submitted metrics and the flush.

  lemma LoopStepKeepsBarrier(s: State, e: SendLoop.Event, t: State)
    requires BarrierOk(s) && SendLoop.Inv(s.loop)
    requires e.Tick? || e.Wake? || e.Reply?
    requires t == s.(loop := SendLoop.Next(s.loop, e))
    ensures BarrierOk(t)
  {
    LoopKeepsAdded(s.loop, e);
    TimerStaysCompleted(s.loop, e);
    if SendLoopProperties.Finished(s.loop) { FinishedForever(s.loop, e); }
    if FlushBegun(s) { SendLoopProperties.NextKeepsNotStranded(s.loop, e, s.atComplete); }
  }

  lemma TimerStaysCompleted(s: SendLoop.State, e: SendLoop.Event)
    ensures SendLoop.Next(s, e).timer.completed <==> s.timer.completed || e.Flush?
  {
  }

  lemma FinishedForever(s: SendLoop.State, e: SendLoop.Event)
    requires SendLoop.TimerOk(s) && SendLoopProperties.Finished(s)
    ensures SendLoopProperties.Finished(SendLoop.Next(s, e))
  {
  }

  lemma AddTaskKeepsBarrier(s: State, metric: Entry)
    requires BarrierOk(s) && SendLoop.Inv(s.loop) && s.microtasks != [] && s.microtasks[0] == AddTask(metric)
    ensures BarrierOk(Next(s, Microtask))
  {
    var e := SendLoop.Add(metric);
    TimerStaysCompleted(s.loop, e);
    if SendLoopProperties.Finished(s.loop) { FinishedForever(s.loop, e); }
    if FlushBegun(s) { SendLoopProperties.NextKeepsNotStranded(s.loop, e, s.atComplete); }
  }

  lemma ResumeAwaitKeepsBarrier(s: State)
    requires BarrierOk(s) && s.microtasks != [] && s.microtasks[0] == ResumeAwait
    requires s.promise.Fulfilled? || s.promise.Rejected?
    ensures BarrierOk(Next(s, Microtask))
  {
  }

  lemma FlushKeepsBarrier(s: State)
    requires BarrierOk(s) && SendLoop.Inv(s.loop) && s.microtasks != [] && s.microtasks[0] == ResumeImmediate
    ensures BarrierOk(Next(s, Microtask))
  {
    TimerStaysCompleted(s.loop, SendLoop.Flush);
    LoopKeepsAdded(s.loop, SendLoop.Flush);
    if s.completion == ImmediateDone {
      var f := SendLoop.Next(s.loop, SendLoop.Flush);
      assert !SendLoop.Snapshotted(s.loop) && !SendLoop.Snapshotted(f);
    }
  }

  lemma MicrotaskKeepsBarrier(s: State)
    requires Inv(s) && s.microtasks != []
    ensures BarrierOk(Next(s, Microtask))
  {
    match s.microtasks[0]
    case AddTask(metric) => AddTaskKeepsBarrier(s, metric);
    case ResumeAwait => ResumeAwaitKeepsBarrier(s);
    case ResumeImmediate => FlushKeepsBarrier(s);
  }

  /** When the `setImmediate` callback runs, no add is left behind in the queue. */
  lemma ImmediateKeepsBarrier(s: State)
    requires Inv(s)
    ensures BarrierOk(Next(s, Immediate))
  {
    if s.completion == AwaitingImmediate && s.microtasks == [] {
      assert s.loop.added == s.submitted;
    }
  }

  lemma QuietStepKeepsBarrier(s: State, e: Event)
    requires BarrierOk(s) && (e.Submit? || e.Complete? || e.FlushSettles?)
    ensures BarrierOk(Next(s, e))
  {
  }

  lemma SettleKeepsBarrier(s: State, ok: bool)
    requires BarrierOk(s) && SendLoop.Inv(s.loop) && s.promise.Pending?
    ensures BarrierOk(Settle(s, ok))
  {
    TimerStaysCompleted(s.loop, SendLoop.Start);
  }

  lemma NextKeepsBarrier(s: State, e: Event)
    requires Inv(s)
    ensures BarrierOk(Next(s, e))
  {
    match e
    case Microtask => if s.microtasks != [] { MicrotaskKeepsBarrier(s); }
    case Immediate => ImmediateKeepsBarrier(s);
    case KeySettles(ok) => if s.promise.Pending? { SettleKeepsBarrier(s, ok); }
    case Loop(l) => if l.Tick? || l.Wake? || l.Reply? { LoopStepKeepsBarrier(s, l, Next(s, e)); }
    case _ => QuietStepKeepsBarrier(s, e);
  }

  /** The event of the processor's send loop that an event of the invocation causes. */
  lemma NextMovesLoop(s: State, e: Event)
    ensures Next(s, e).loop == s.loop
            || exists l :: Next(s, e).loop == SendLoop.Next(s.loop, l) && (l == SendLoop.Reply(false) ==> e == Loop(l))
  {
  }

  lemma NextKeepsInv(s: State, e: Event)
    requires Inv(s)
    ensures Inv(Next(s, e))
  {
    NextKeepsOrder(s, e);
    NextKeepsBarrier(s, e);
    NextMovesLoop(s, e);
    if Next(s, e).loop != s.loop {
      var l :| Next(s, e).loop == SendLoop.Next(s.loop, l) && (l == SendLoop.Reply(false) ==> e == Loop(l));
      SendLoop.NextKeepsInv(s.loop, l);
    }
  }

  lemma InitialInv(retry: bool)
    ensures Inv(Initial(retry))
  {
  }

  lemma {:induction false} RunKeepsInv(retry: bool, events: seq<Event>)
    ensures Inv(Run(Initial(retry), events))
  {
    if events == [] {
      InitialInv(retry);
      assert Run(Initial(retry), events) == Initial(retry);
    } else {
      var s, e := Run(Initial(retry), events[..|events| - 1]), events[|events| - 1];
      RunKeepsInv(retry, events[..|events| - 1]);
      NextKeepsInv(s, e);
      assert Run(Initial(retry), events) == Next(s, e);
    }
  }

  lemma {:induction false} RunConcat(s: State, a: seq<Event>, b: seq<Event>)
    ensures Run(s, a + b) == Run(Run(s, a), b)
  {
    if b == [] {
      assert a + b == a;
    } else {
      RunConcat(s, a, b[..|b| - 1]);
      assert (a + b)[..|a + b| - 1] == a + b[..|b| - 1];
    }
  }

  lemma RunOne(s: State, e: Event)
    ensures Run(s, [e]) == Next(s, e)
  {
    assert [e][..0] == [];
    assert Run(s, []) == s;
  }

  lemma RunThrough(s: State, before: seq<Event>, e: Event, after: seq<Event>)
    ensures Run(s, before + [e] + after) == Run(Next(Run(s, before), e), after)
  {
    RunConcat(s, before + [e], after);
    RunConcat(s, before, [e]);
    RunOne(Run(s, before), e);
  }

  lemma NextKeepsHistory(s: State, e: Event)
    requires s.completion != NotCalled
    ensures Next(s, e).completion != NotCalled && Next(s, e).atComplete == s.atComplete
    ensures s.submitted <= Next(s, e).submitted
  {
  }

  lemma {:induction false} RunKeepsHistory(s: State, events: seq<Event>)
    requires s.completion != NotCalled
    ensures Run(s, events).completion != NotCalled && Run(s, events).atComplete == s.atComplete
    ensures s.submitted <= Run(s, events).submitted
  {
    if events != [] {
      RunKeepsHistory(s, events[..|events| - 1]);
      NextKeepsHistory(Run(s, events[..|events| - 1]), events[|events| - 1]);
    }
  }

  /** A run that goes on after onCompleteInvocation was called in state `b`. */
  lemma AfterComplete(retry: bool, before: seq<Event>, after: seq<Event>)
    requires Run(Initial(retry), before).completion == NotCalled
    ensures var b := Run(Initial(retry), before); var s := Run(Next(b, Complete), after);
            && s == Run(Initial(retry), before + [Complete] + after)
            && s.atComplete == |b.submitted| && b.submitted <= s.submitted && s.completion != NotCalled
  {
    var b := Run(Initial(retry), before);
    RunThrough(Initial(retry), before, Complete, after);
    assert Next(b, Complete).completion != NotCalled && Next(b, Complete).submitted == b.submitted;
    RunKeepsHistory(Next(b, Complete), after);
  }

  /** When `flush()` begins, what was added to the processor starts with every metric
      submitted before onCompleteInvocation was called, and is in submission order, whenever
      the API key arrived. */
  lemma FlushSeesEverything(retry: bool, before: seq<Event>, after: seq<Event>)
    requires Run(Initial(retry), before).completion == NotCalled
    ensures var b := Run(Initial(retry), before); var s := Run(Next(b, Complete), after);
            FlushBegun(Next(s, Microtask)) && !FlushBegun(s) && !s.promise.Rejected? ==>
              && b.submitted <= s.loop.added <= s.submitted
              && Next(s, Microtask).loop == SendLoop.Next(s.loop, SendLoop.Flush)
  {
    AfterComplete(retry, before, after);
    RunKeepsInv(retry, before + [Complete] + after);
    var b := Run(Initial(retry), before);
    FlushOnlyAfterAdds(Run(Next(b, Complete), after), b.submitted);
  }

  lemma FlushOnlyAfterAdds(s: State, early: seq<Entry>)
    requires InOrder(s) && BarrierOk(s) && early <= s.submitted && |early| == s.atComplete
    ensures FlushBegun(Next(s, Microtask)) && !FlushBegun(s) && !s.promise.Rejected? ==>
              && early <= s.loop.added <= s.submitted
              && Next(s, Microtask).loop == SendLoop.Next(s.loop, SendLoop.Flush)
  {
    if s.promise.Fulfilled? && |early| <= |s.loop.added| {
      forall i | 0 <= i < |early| ensures early[i] == s.loop.added[i] {
        assert s.submitted[i] == s.loop.added[i];
      }
    }
  }

  predicate NoFailure(events: seq<Event>) {
    forall i :: 0 <= i < |events| ==> events[i] != Loop(SendLoop.Reply(false))
  }

  lemma {:induction false} NoFailureAllAccepted(retry: bool, events: seq<Event>)
    requires NoFailure(events)
    ensures SendLoopProperties.AllAccepted(Run(Initial(retry), events).loop)
  {
    if events != [] {
      var s, e := Run(Initial(retry), events[..|events| - 1]), events[|events| - 1];
      NoFailureAllAccepted(retry, events[..|events| - 1]);
      NextMovesLoop(s, e);
      if Next(s, e).loop != s.loop {
        var l :| Next(s, e).loop == SendLoop.Next(s.loop, l) && (l == SendLoop.Reply(false) ==> e == Loop(l));
        assert SendLoop.Run(s.loop, [l]) == SendLoop.Next(SendLoop.Run(s.loop, []), l);
        SendLoopProperties.NoFailureAllAccepted(s.loop, [l]);
      }
    }
  }

  /** End to end: if the processor could be created and no send fails, then once
      onCompleteInvocation is over, every metric submitted before it was called has been
      acknowledged, exactly once, under its place in submission order. */
  lemma DeliveredOnComplete(retry: bool, before: seq<Event>, after: seq<Event>, i: nat)
    requires NoFailure(before) && NoFailure(after) && Run(Initial(retry), before).completion == NotCalled
    ensures var b := Run(Initial(retry), before); var s := Run(Next(b, Complete), after);
            s.completion == Completed && s.promise.Fulfilled? && i < |b.submitted| ==>
              && i < |s.loop.added| && s.loop.added[i] == b.submitted[i]
              && multiset(SendLoop.Acked(s.loop.log))[i] == 1
  {
    var b := Run(Initial(retry), before);
    AfterComplete(retry, before, after);
    WholeRunAccepted(retry, before + [Complete] + after);
    DeliveredWhenCompleted(Run(Next(b, Complete), after), b.submitted, i);
  }

  lemma WholeRunAccepted(retry: bool, events: seq<Event>)
    requires NoFailure(events)
    ensures var s := Run(Initial(retry), events); Inv(s) && SendLoopProperties.AllAccepted(s.loop)
  {
    RunKeepsInv(retry, events);
    NoFailureAllAccepted(retry, events);
  }

  lemma DeliveredWhenCompleted(s: State, early: seq<Entry>, i: nat)
    requires Inv(s) && SendLoopProperties.AllAccepted(s.loop)
    requires early <= s.submitted && |early| == s.atComplete
    ensures s.completion == Completed && s.promise.Fulfilled? && i < |early| ==>
              && i < |s.loop.added| && s.loop.added[i] == early[i]
              && multiset(SendLoop.Acked(s.loop.log))[i] == 1
  {
    if s.completion == Completed && s.promise.Fulfilled? && i < |early| {
      SendLoopProperties.FinishedWithoutFailure(s.loop, s.atComplete, i);
      assert s.submitted[i] == s.loop.added[i];
    }
  }

  lemma InitialLoopIgnores(retry: bool, e: SendLoop.Event)
    requires e.Tick? || e.Wake? || e.Reply?
    ensures SendLoop.Next(SendLoop.Initial(retry), e) == SendLoop.Initial(retry)
  {
  }

  predicate LoopUntouched(s: State, retry: bool) {
    !s.promise.Fulfilled? ==> s.loop == SendLoop.Initial(retry)
  }

  lemma MicrotaskKeepsUntouched(s: State, retry: bool)
    requires InOrder(s) && BarrierOk(s) && LoopUntouched(s, retry) && s.microtasks != []
    ensures LoopUntouched(Next(s, Microtask), retry)
  {
    if s.promise.Rejected? { assert !s.microtasks[0].AddTask?; }
  }

  lemma NextKeepsUntouched(s: State, e: Event, retry: bool)
    requires InOrder(s) && BarrierOk(s) && LoopUntouched(s, retry)
    ensures LoopUntouched(Next(s, e), retry)
  {
    match e
    case Loop(l) =>
      if l.Tick? || l.Wake? || l.Reply? { InitialLoopIgnores(retry, l); }
    case Microtask =>
      if s.microtasks != [] { MicrotaskKeepsUntouched(s, retry); }
    case _ =>
  }

  lemma {:induction false} RunKeepsUntouched(retry: bool, events: seq<Event>)
    ensures LoopUntouched(Run(Initial(retry), events), retry)
  {
    if events != [] {
      RunKeepsUntouched(retry, events[..|events| - 1]);
      RunKeepsInv(retry, events[..|events| - 1]);
      NextKeepsUntouched(Run(Initial(retry), events[..|events| - 1]), events[|events| - 1], retry);
    }
  }

  /** As long as no processor has been created, and forever if it cannot be, nothing is
      added to it and no send begins: its loop is as it was at first, with an empty log. */
  lemma NothingWithoutProcessor(retry: bool, events: seq<Event>)
    ensures var s := Run(Initial(retry), events);
            !s.promise.Fulfilled? ==> s.loop == SendLoop.Initial(retry) && s.loop.added == [] && s.loop.log == []
  {
    RunKeepsUntouched(retry, events);
  }

  /** Once the processor is created it is waiting for its first interval, and the metrics
      submitted so far are queued to be added to it, in order. */
  lemma CreatedProcessorRuns(retry: bool, events: seq<Event>)
    ensures var s := Run(Initial(retry), events); var t := Next(s, KeySettles(true));
            s.promise.Pending? ==>
              && t.promise.Fulfilled? && t.loop.phase.Waiting? && t.loop.timer.running && t.loop.retry == retry
              && t.loop.added == [] && AddsIn(t.microtasks) == s.submitted
  {
    RunKeepsInv(retry, events);
    RunKeepsUntouched(retry, events);
    var s := Run(Initial(retry), events);
    if s.promise.Pending? {
      assert s.microtasks + s.promise.reactions == s.promise.reactions;
    }
  }

  // ---------- the flush is not forgotten ----------

  /** While onCompleteInvocation waits for the processor, its continuation is queued. */
  predicate Remembered(s: State) {
    s.completion == AwaitingProcessor ==>
      match s.promise
      case Pending(reactions) => ResumeAwait in reactions
      case _ => ResumeAwait in s.microtasks
  }

  lemma NextKeepsRemembered(s: State, e: Event)
    requires Remembered(s)
    ensures Remembered(Next(s, e))
  {
    if e.Microtask? && s.microtasks != [] {
      assert s.microtasks == [s.microtasks[0]] + s.microtasks[1..];
    }
  }

  lemma {:induction false} RunKeepsRemembered(retry: bool, events: seq<Event>)
    ensures Remembered(Run(Initial(retry), events))
  {
    if events != [] {
      RunKeepsRemembered(retry, events[..|events| - 1]);
      NextKeepsRemembered(Run(Initial(retry), events[..|events| - 1]), events[|events| - 1]);
    }
  }

  /** The event loop runs its microtasks until none is left. */
  function DrainMicrotasks(s: State): State
    decreases |s.microtasks|
  {
    if s.microtasks == [] then s else DrainMicrotasks(Next(s, Microtask))
  }

  lemma {:induction false} DrainReachesImmediate(s: State)
    requires s.promise.Fulfilled?
    requires s.completion == AwaitingImmediate || (s.completion == AwaitingProcessor && ResumeAwait in s.microtasks)
    ensures var d := DrainMicrotasks(s);
            d.microtasks == [] && d.completion == AwaitingImmediate && d.promise.Fulfilled?
    decreases |s.microtasks|
  {
    if s.microtasks != [] {
      assert s.microtasks == [s.microtasks[0]] + s.microtasks[1..];
      DrainReachesImmediate(Next(s, Microtask));
    }
  }

  /** Once onCompleteInvocation was called and the processor exists, in whichever order,
      draining the microtasks, one `setImmediate` callback and its microtask begin the
      flush. */
  lemma FlushComes(retry: bool, events: seq<Event>)
    ensures var s := Run(Initial(retry), events);
            s.promise.Fulfilled? && s.completion == AwaitingProcessor ==>
              var f := Next(Next(DrainMicrotasks(s), Immediate), Microtask);
              FlushBegun(f) && f.loop.timer.completed
  {
    RunKeepsRemembered(retry, events);
    var s := Run(Initial(retry), events);
    if s.promise.Fulfilled? && s.completion == AwaitingProcessor {
      DrainReachesImmediate(s);
      var d := Next(DrainMicrotasks(s), Immediate);
      TimerStaysCompleted(d.loop, SendLoop.Flush);
    }
  }

  lemma MicrotaskShortens(s: State)
    requires s.microtasks != []
    ensures Next(s, Microtask).microtasks == s.microtasks[1..]
  {
  }

  lemma {:induction false} DrainKeepsInv(s: State)
    requires Inv(s)
    ensures Inv(DrainMicrotasks(s))
    decreases |s.microtasks|
  {
    if s.microtasks == [] {
      assert DrainMicrotasks(s) == s;
    } else {
      var t := Next(s, Microtask);
      MicrotaskShortens(s);
      NextKeepsInv(s, Microtask);
      DrainKeepsInv(t);
      assert DrainMicrotasks(s) == DrainMicrotasks(t);
    }
  }

  /** The resumption that the send loop waits for once the timer is completed. */
  function Resumption(s: SendLoop.State): SendLoop.Event {
    if s.phase.Woken? then SendLoop.Wake else SendLoop.Reply(true)
  }

  lemma ResumptionHelps(s: State)
    requires Inv(s) && s.completion == AwaitingFlush && !SendLoopProperties.Finished(s.loop)
    ensures var t := Next(s, Loop(Resumption(s.loop)));
            && t.completion == AwaitingFlush
            && SendLoopProperties.StepsLeft(t.loop) < SendLoopProperties.StepsLeft(s.loop)
  {
    assert s.loop.timer.completed;
    SendLoopProperties.StepAfterCompletion(s.loop, Resumption(s.loop));
  }

  /** Once the flush has begun, at most six resumptions of the send loop and the return of
      `flush()` end onCompleteInvocation. */
  lemma {:induction false} FlushEnds(s: State) returns (steps: seq<Event>)
    requires Inv(s) && s.completion == AwaitingFlush
    ensures |steps| <= SendLoopProperties.StepsLeft(s.loop) + 1 <= 7
    ensures Run(s, steps).completion == Completed
    ensures forall i :: 0 <= i < |steps| ==> steps[i] in [Loop(SendLoop.Wake), Loop(SendLoop.Reply(true)), FlushSettles]
    decreases SendLoopProperties.StepsLeft(s.loop)
  {
    SendLoopProperties.BoundedShutdown(s.loop, []);
    if SendLoopProperties.Finished(s.loop) {
      steps := [FlushSettles];
      RunOne(s, FlushSettles);
    } else {
      var e := Loop(Resumption(s.loop));
      ResumptionHelps(s);
      NextKeepsInv(s, e);
      steps := FlushEnds(Next(s, e));
      RunConcat(s, [e], steps);
      RunOne(s, e);
      steps := [e] + steps;
    }
  }

  /** So onCompleteInvocation ends: after draining the microtasks, one `setImmediate`
      callback and its microtask, at most seven more events complete it. */
  lemma CompletionComes(retry: bool, events: seq<Event>) returns (steps: seq<Event>)
    requires Run(Initial(retry), events).promise.Fulfilled?
    requires Run(Initial(retry), events).completion == AwaitingProcessor
    ensures |steps| <= 7
    ensures var f := Next(Next(DrainMicrotasks(Run(Initial(retry), events)), Immediate), Microtask);
            Run(f, steps).completion == Completed
  {
    var s := Run(Initial(retry), events);
    RunKeepsInv(retry, events);
    RunKeepsRemembered(retry, events);
    DrainReachesImmediate(s);
    DrainKeepsInv(s);
    FlushFollowsImmediate(DrainMicrotasks(s));
    steps := FlushEnds(Next(Next(DrainMicrotasks(s), Immediate), Microtask));
  }

  lemma FlushFollowsImmediate(d: State)
    requires Inv(d) && d.microtasks == [] && d.completion == AwaitingImmediate
    ensures var f := Next(Next(d, Immediate), Microtask); Inv(f) && f.completion == AwaitingFlush
  {
    ImmediateQueuesFlush(d);
    NextKeepsInv(d, Immediate);
    NextKeepsInv(Next(d, Immediate), Microtask);
  }

  lemma ImmediateQueuesFlush(d: State)
    requires d.microtasks == [] && d.completion == AwaitingImmediate
    ensures Next(Next(d, Immediate), Microtask).completion == AwaitingFlush
  {
  }

  lemma {:induction false} DrainAfterRejection(s: State)
    requires s.promise.Rejected?
    requires s.completion == Completed || (s.completion == AwaitingProcessor && ResumeAwait in s.microtasks)
    ensures DrainMicrotasks(s).completion == Completed
    decreases |s.microtasks|
  {
    if s.microtasks != [] {
      assert s.microtasks == [s.microtasks[0]] + s.microtasks[1..];
      DrainAfterRejection(Next(s, Microtask));
    }
  }

  /** It also ends if the processor cannot be created: its `await` throws. */
  lemma CompletionWithoutProcessor(retry: bool, events: seq<Event>)
    ensures var s := Run(Initial(retry), events);
            s.promise.Rejected? && s.completion == AwaitingProcessor ==> DrainMicrotasks(s).completion == Completed
  {
    RunKeepsRemembered(retry, events);
    var s := Run(Initial(retry), events);
    if s.promise.Rejected? && s.completion == AwaitingProcessor {
      DrainAfterRejection(s);
    }
  }
}
