/** src/metrics/processor.ts as a labelled transition system. The asynchronous send loop
    is cut at its `await`s; adds, timer ticks and `flush()` may come at every cut. Each
    added metric is named by its place in `added`, so that multiplicity is visible. */
module SendLoop {
  import opened Sequences
  import opened Batches

  /** A settled call of `client.sendMetrics`. `since` and `until` are the numbers of
      metrics added when the call was made and when the loop resumed. */
  datatype Attempt = Attempt(batch: seq<nat>, since: nat, until: nat, last: bool, ok: bool)

  datatype Phase =
    | NotStarted                                            // loopPromise is undefined
    | Waiting                                               // at `await nextTimeout()`, promise pending
    | Woken(done: bool)                                     // that promise is resolved, the loop not yet resumed
    | Sending(batch: seq<nat>, since: nat)                  // at `await client.sendMetrics(metrics)`
    | Final(batch: seq<nat>, attemptsLeft: nat, since: nat) // at `await promiseRetry(...)`
    | Done(batch: seq<nat>)                                 // the loop promise is resolved
    | Failed(batch: seq<nat>)                               // the loop promise is rejected

  datatype TimerView = TimerView(running: bool, waiting: bool, completed: bool)

  datatype State = State(
    retry: bool, timer: TimerView, phase: Phase,
    batcher: seq<nat>,    // what `this.batcher` holds
    added: seq<Entry>,    // history: every metric added, in order
    log: seq<Attempt>)    // history: every settled send

  datatype Event =
    | Start               // startProcessing()
    | Add(metric: Entry)  // addMetric(metric)
    | Tick                // the interval callback
    | Flush               // flush(), up to its await
    | Wake                // the loop resumes after `await nextTimeout()`
    | Reply(ok: bool)     // the client's promise settles and the loop resumes

  function Initial(retry: bool): State {
    State(retry, TimerView(false, false, false), NotStarted, [], [], [])
  }

  function Attempts(retry: bool): nat { if retry then 3 else 1 }

  /** The head of the while loop: ask the timer for a promise and await it. */
  function LoopTop(s: State): State {
    if s.timer.completed then s.(phase := Woken(true))
    else s.(phase := Waiting, timer := s.timer.(waiting := true))
  }

  function TakeBatch(s: State): State {
    var emptied := s.(batcher := []);
    if s.batcher == [] then LoopTop(emptied)
    else emptied.(phase := Sending(s.batcher, |s.added|))
  }

  function TakeFinal(s: State): State {
    if s.batcher == [] then s.(phase := Done([]))
    else s.(phase := Final(s.batcher, Attempts(s.retry), |s.added|))
  }

  function EndSend(s: State, ok: bool): State
    requires s.phase.Sending?
  {
    var logged := s.(log := s.log + [Attempt(s.phase.batch, s.phase.since, |s.added|, false, ok)]);
    LoopTop(if !ok && s.retry then logged.(batcher := s.phase.batch) else logged)
  }

  function EndFinal(s: State, ok: bool): State
    requires s.phase.Final?
  {
    var logged := s.(log := s.log + [Attempt(s.phase.batch, s.phase.since, |s.added|, true, ok)]);
    if ok then logged.(phase := Done(s.phase.batch))
    else if s.phase.attemptsLeft > 1 then
      logged.(phase := Final(s.phase.batch, s.phase.attemptsLeft - 1, |s.added|))
    else logged.(phase := Failed(s.phase.batch))
  }

  function FlushNow(s: State): State {
    var completed := s.(timer := TimerView(false, false, true));
    if s.phase.NotStarted? then LoopTop(completed)
    else if s.timer.waiting then completed.(phase := Woken(true))
    else completed
  }

  /** One step. An event that cannot happen in `s` leaves `s` as it is. */
  function Next(s: State, e: Event): State {
    match e
    case Start => if s.phase.NotStarted? then LoopTop(s.(timer := s.timer.(running := true))) else s
    case Add(metric) => s.(added := s.added + [metric], batcher := s.batcher + [|s.added|])
    case Tick =>
      if s.timer.running && s.timer.waiting
      then s.(timer := s.timer.(waiting := false), phase := Woken(false)) else s
    case Flush => FlushNow(s)
    case Wake => if !s.phase.Woken? then s else if s.phase.done then TakeFinal(s) else TakeBatch(s)
    case Reply(ok) =>
      if s.phase.Sending? then EndSend(s, ok)
      else if s.phase.Final? then EndFinal(s, ok) else s
  }

  function Run(s: State, events: seq<Event>): State {
    if events == [] then s else Next(Run(s, events[..|events| - 1]), events[|events| - 1])
  }

  // ---------- where a metric can be ----------

  function Range(from: nat, to: nat): (r: seq<nat>)
    requires from <= to
    ensures |r| == to - from
  {
    seq(to - from, i requires 0 <= i < to - from => from + i)
  }

  /** Acknowledged: the batches of the accepted sends, one after the other. */
  function Acked(log: seq<Attempt>): seq<nat> {
    if log == [] then []
    else
      var a := log[|log| - 1];
      Acked(log[..|log| - 1]) + if a.ok then a.batch else []
  }

  /** The batches of failed regular sends. */
  function FailedSends(log: seq<Attempt>): seq<nat> {
    if log == [] then []
    else
      var a := log[|log| - 1];
      FailedSends(log[..|log| - 1]) + if !a.ok && !a.last then a.batch else []
  }

  /** What was added between the start and the end of a failed regular send. */
  function AddedDuringFailedSends(log: seq<Attempt>): seq<nat> {
    if log == [] then []
    else
      var a := log[|log| - 1];
      AddedDuringFailedSends(log[..|log| - 1])
      + if !a.ok && !a.last && a.since <= a.until then Range(a.since, a.until) else []
  }

  predicate Snapshotted(s: State) { s.phase.Final? || s.phase.Done? || s.phase.Failed? }

  function InFlight(s: State): seq<nat> {
    if s.phase.Sending? || s.phase.Final? then s.phase.batch else []
  }

  /** What `this.batcher` holds besides the final snapshot. */
  function Held(s: State): seq<nat> {
    if Snapshotted(s) && |s.phase.batch| <= |s.batcher| then s.batcher[|s.phase.batch|..] else s.batcher
  }

  /** Still to be sent. */
  function Pending(s: State): seq<nat> { if Snapshotted(s) then [] else Held(s) }

  /** Added after the final snapshot, and never sent. */
  function Stranded(s: State): seq<nat> { if Snapshotted(s) then Held(s) else [] }

  /** Lost with the batch of a failed regular send. */
  function LostWithBatch(s: State): seq<nat> {
    if s.retry then [] else FailedSends(s.log)
  }

  /** Lost because an old batch was put back over them. */
  function LostOnRestore(s: State): seq<nat> {
    if s.retry then AddedDuringFailedSends(s.log) else []
  }

  /** Lost with the final batch, when all its attempts failed. */
  function LostAtEnd(s: State): seq<nat> {
    if s.phase.Failed? then s.phase.batch else []
  }

  // ---------- the invariant ----------

  predicate TimerOk(s: State) {
    && (s.timer.waiting <==> s.phase.Waiting?)
    && (s.timer.completed ==> !s.timer.running && !s.timer.waiting)
    && (s.phase.NotStarted? ==> !s.timer.completed && !s.timer.running)
    && (!s.phase.NotStarted? && !s.timer.completed ==> s.timer.running)
    && (Snapshotted(s) || s.phase == Woken(true) ==> s.timer.completed)
  }

  predicate BatchOk(s: State) {
    && (Snapshotted(s) ==> s.phase.batch <= s.batcher)
    && (s.phase.Final? ==> s.phase.batch != [] && 1 <= s.phase.attemptsLeft <= Attempts(s.retry)
                           && s.phase.since <= |s.added|)
    && (s.phase.Sending? ==> s.phase.batch != [] && s.phase.since <= |s.added|
                             && s.batcher == Range(s.phase.since, |s.added|))
  }

  /** The places account for the first `n` metrics, each once, and what is not lost
      leaves in add order. */
  datatype Places = Places(
    acked: seq<nat>, inFlight: seq<nat>, held: seq<nat>,
    withBatch: seq<nat>, onRestore: seq<nat>, atEnd: seq<nat>)
  {
    ghost predicate Account(n: nat) {
      && Increasing(acked + inFlight + held)
      && (forall i :: i in acked || i in inFlight || i in held ==> i < n)
      && multiset(acked) + multiset(inFlight) + multiset(held)
         + multiset(withBatch) + multiset(onRestore) + multiset(atEnd) == multiset(Range(0, n))
    }
  }

  function PlacesOf(s: State): Places {
    Places(Acked(s.log), InFlight(s), Held(s), LostWithBatch(s), LostOnRestore(s), LostAtEnd(s))
  }

  ghost predicate AccountOk(s: State) { PlacesOf(s).Account(|s.added|) }

  ghost predicate Inv(s: State) { TimerOk(s) && BatchOk(s) && AccountOk(s) }

  lemma LogGrows(log: seq<Attempt>, a: Attempt)
    ensures Acked(log + [a]) == Acked(log) + if a.ok then a.batch else []
    ensures FailedSends(log + [a]) == FailedSends(log) + if !a.ok && !a.last then a.batch else []
    ensures AddedDuringFailedSends(log + [a]) == AddedDuringFailedSends(log)
            + if !a.ok && !a.last && a.since <= a.until then Range(a.since, a.until) else []
  {
    assert (log + [a])[..|log|] == log;
  }

  lemma IncreasingParts(x: seq<nat>, y: seq<nat>, z: seq<nat>)
    requires Increasing(x + y + z)
    ensures Increasing(x + z) && Increasing(x + y)
  {
    var whole := x + y + z;
    forall i, j | 0 <= i < j < |x + z| ensures (x + z)[i] < (x + z)[j] {
      var p := if i < |x| then i else i + |y|;
      var q := if j < |x| then j else j + |y|;
      assert whole[p] < whole[q];
    }
    forall i, j | 0 <= i < j < |x + y| ensures (x + y)[i] < (x + y)[j] {
      assert whole[i] < whole[j];
    }
  }

  // The ways in which metrics change place.

  lemma Arrive(p: Places, n: nat)
    requires p.Account(n)
    ensures p.(held := p.held + [n]).Account(n + 1)
  {
    var live := p.acked + p.inFlight + p.held;
    assert Range(0, n + 1) == Range(0, n) + [n];
    assert p.acked + p.inFlight + (p.held + [n]) == live + [n];
    forall i | 0 <= i < |live| ensures live[i] < n {
      assert live[i] in p.acked || live[i] in p.inFlight || live[i] in p.held;
    }
  }

  lemma Acknowledge(p: Places, n: nat)
    requires p.Account(n)
    ensures p.(acked := p.acked + p.inFlight, inFlight := []).Account(n)
  {
    assert (p.acked + p.inFlight) + [] + p.held == p.acked + p.inFlight + p.held;
  }

  lemma Take(p: Places, n: nat)
    requires p.Account(n) && p.inFlight == []
    ensures p.(inFlight := p.held, held := []).Account(n)
  {
    assert p.acked + p.held + [] == p.acked + [] + p.held;
  }

  lemma LoseInFlight(p: Places, n: nat)
    requires p.Account(n)
    ensures p.(inFlight := [], withBatch := p.withBatch + p.inFlight).Account(n)
    ensures p.atEnd == [] ==> p.(inFlight := [], atEnd := p.inFlight).Account(n)
  {
    IncreasingParts(p.acked, p.inFlight, p.held);
    assert p.acked + [] + p.held == p.acked + p.held;
  }

  lemma PutBack(p: Places, n: nat)
    requires p.Account(n)
    ensures p.(inFlight := [], held := p.inFlight, onRestore := p.onRestore + p.held).Account(n)
  {
    IncreasingParts(p.acked, p.inFlight, p.held);
    assert p.acked + [] + p.inFlight == p.acked + p.inFlight;
  }

  // What each kind of step does to the places.

  lemma AddMoves(s: State, metric: Entry)
    requires BatchOk(s)
    ensures PlacesOf(Next(s, Add(metric))) == PlacesOf(s).(held := Held(s) + [|s.added|])
  {
    assert Held(Next(s, Add(metric))) == Held(s) + [|s.added|];
  }

  lemma EndSendMoves(s: State, ok: bool)
    requires BatchOk(s) && s.phase.Sending?
    ensures var p, q := PlacesOf(s), PlacesOf(EndSend(s, ok));
            q == if ok then p.(acked := p.acked + p.inFlight, inFlight := [])
                 else if s.retry then p.(inFlight := [], held := p.inFlight, onRestore := p.onRestore + p.held)
                 else p.(inFlight := [], withBatch := p.withBatch + p.inFlight)
  {
    LogGrows(s.log, Attempt(s.phase.batch, s.phase.since, |s.added|, false, ok));
  }

  lemma EndFinalMoves(s: State, ok: bool)
    requires BatchOk(s) && s.phase.Final?
    ensures var p, q := PlacesOf(s), PlacesOf(EndFinal(s, ok));
            q == if ok then p.(acked := p.acked + p.inFlight, inFlight := [])
                 else if s.phase.attemptsLeft > 1 then p
                 else p.(inFlight := [], atEnd := p.inFlight)
  {
    LogGrows(s.log, Attempt(s.phase.batch, s.phase.since, |s.added|, true, ok));
  }

  lemma WakeMoves(s: State)
    requires s.phase.Woken?
    ensures var p, q := PlacesOf(s), PlacesOf(Next(s, Wake));
            p.inFlight == [] && q == p.(inFlight := p.held, held := []) && Next(s, Wake).added == s.added
  {
    var t := Next(s, Wake);
    assert t.log == s.log && t.retry == s.retry && !t.phase.Failed?;
    assert InFlight(t) == s.batcher && Held(t) == [] by {
      assert s.batcher[|s.batcher|..] == [];
    }
  }

  lemma TimerStepMovesNothing(s: State, e: Event)
    requires TimerOk(s) && (e.Start? || e.Tick? || e.Flush?)
    ensures PlacesOf(Next(s, e)) == PlacesOf(s) && Next(s, e).added == s.added
  {
  }

  lemma NextKeepsTimerAndBatch(s: State, e: Event)
    requires TimerOk(s) && BatchOk(s)
    ensures TimerOk(Next(s, e)) && BatchOk(Next(s, e))
    ensures Next(s, e).retry == s.retry
  {
    match e
    case Wake => WakeKeepsTimerAndBatch(s);
    case Reply(ok) =>
      if s.phase.Sending? { EndSendKeepsTimerAndBatch(s, ok); }
    case _ =>
  }

  lemma WakeKeepsTimerAndBatch(s: State)
    requires TimerOk(s) && BatchOk(s)
    ensures TimerOk(Next(s, Wake)) && BatchOk(Next(s, Wake)) && Next(s, Wake).retry == s.retry
  {
  }

  lemma EndSendKeepsTimerAndBatch(s: State, ok: bool)
    requires TimerOk(s) && BatchOk(s) && s.phase.Sending?
    ensures TimerOk(EndSend(s, ok)) && BatchOk(EndSend(s, ok)) && EndSend(s, ok).retry == s.retry
  {
  }

  lemma NextKeepsAccount(s: State, e: Event)
    requires TimerOk(s) && BatchOk(s) && AccountOk(s)
    ensures AccountOk(Next(s, e))
  {
    match e
    case Add(metric) => AddKeepsAccount(s, metric);
    case Reply(ok) => ReplyKeepsAccount(s, ok);
    case Wake => WakeKeepsAccount(s);
    case _ => TimerStepKeepsAccount(s, e);
  }

  lemma TimerStepKeepsAccount(s: State, e: Event)
    requires TimerOk(s) && AccountOk(s) && (e.Start? || e.Tick? || e.Flush?)
    ensures AccountOk(Next(s, e))
  {
    TimerStepMovesNothing(s, e);
  }

  lemma AddKeepsAccount(s: State, metric: Entry)
    requires BatchOk(s) && AccountOk(s)
    ensures AccountOk(Next(s, Add(metric)))
  {
    AddMoves(s, metric);
    Arrive(PlacesOf(s), |s.added|);
  }

  lemma WakeKeepsAccount(s: State)
    requires AccountOk(s)
    ensures AccountOk(Next(s, Wake))
  {
    if s.phase.Woken? {
      var p := PlacesOf(s);
      WakeMoves(s);
      Take(p, |s.added|);
      SamePlacesSameAccount(p.(inFlight := p.held, held := []), Next(s, Wake));
    }
  }

  lemma SamePlacesSameAccount(p: Places, t: State)
    requires p.Account(|t.added|) && PlacesOf(t) == p
    ensures AccountOk(t)
  {
  }

  lemma ReplyKeepsAccount(s: State, ok: bool)
    requires BatchOk(s) && AccountOk(s)
    ensures AccountOk(Next(s, Reply(ok)))
  {
    if s.phase.Sending? { EndSendKeepsAccount(s, ok); }
    else if s.phase.Final? { EndFinalKeepsAccount(s, ok); }
  }

  lemma EndSendKeepsAccount(s: State, ok: bool)
    requires BatchOk(s) && AccountOk(s) && s.phase.Sending?
    ensures AccountOk(EndSend(s, ok))
  {
    var p, n := PlacesOf(s), |s.added|;
    EndSendMoves(s, ok);
    if ok { Acknowledge(p, n); }
    else if s.retry { PutBack(p, n); }
    else { LoseInFlight(p, n); }
    SamePlacesSameAccount(PlacesOf(EndSend(s, ok)), EndSend(s, ok));
  }

  lemma EndFinalKeepsAccount(s: State, ok: bool)
    requires BatchOk(s) && AccountOk(s) && s.phase.Final?
    ensures AccountOk(EndFinal(s, ok))
  {
    var p, n := PlacesOf(s), |s.added|;
    EndFinalMoves(s, ok);
    if ok { Acknowledge(p, n); } else { LoseInFlight(p, n); }
    SamePlacesSameAccount(PlacesOf(EndFinal(s, ok)), EndFinal(s, ok));
  }

  lemma NextKeepsInv(s: State, e: Event)
    requires Inv(s)
    ensures Inv(Next(s, e))
    ensures Next(s, e).retry == s.retry
  {
    NextKeepsTimerAndBatch(s, e);
    NextKeepsAccount(s, e);
  }

  lemma {:induction false} RunKeepsInv(s: State, events: seq<Event>)
    requires Inv(s)
    ensures Inv(Run(s, events))
    ensures Run(s, events).retry == s.retry
  {
    if events != [] {
      RunKeepsInv(s, events[..|events| - 1]);
      NextKeepsInv(Run(s, events[..|events| - 1]), events[|events| - 1]);
    }
  }

  /** In how many places metric number `i` is. */
  function Occurrences(s: State, i: nat): nat {
    multiset(Acked(s.log))[i] + multiset(InFlight(s))[i] + multiset(Pending(s))[i] + multiset(Stranded(s))[i]
    + multiset(LostWithBatch(s))[i] + multiset(LostOnRestore(s))[i] + multiset(LostAtEnd(s))[i]
  }

  lemma AccountedOnce(s: State, i: nat)
    requires AccountOk(s)
    ensures Occurrences(s, i) == if i < |s.added| then 1 else 0
  {
    RangeHoldsEachOnce(|s.added|, i);
    assert multiset(Held(s))[i] == multiset(Pending(s))[i] + multiset(Stranded(s))[i];
  }

  /** Conservation: after any interleaving, each added metric is in exactly one place. */
  lemma Conservation(retry: bool, events: seq<Event>)
    ensures var s := Run(Initial(retry), events);
            forall i: nat :: Occurrences(s, i) == if i < |s.added| then 1 else 0
  {
    RunKeepsInv(Initial(retry), events);
    var s := Run(Initial(retry), events);
    forall i: nat ensures Occurrences(s, i) == if i < |s.added| then 1 else 0 {
      AccountedOnce(s, i);
    }
  }

  lemma {:induction false} RangeHoldsEachOnce(n: nat, i: nat)
    ensures multiset(Range(0, n))[i] == if i < n then 1 else 0
  {
    if n > 0 {
      RangeHoldsEachOnce(n - 1, i);
      assert Range(0, n) == Range(0, n - 1) + [n - 1];
    }
  }
}
