/** What the send loop guarantees over whole runs, besides conservation. */
module SendLoopProperties {
  import opened Sequences
  import opened JsStrings
  import opened MetricsModel
  import opened Batches
  import opened SendLoop

  // ---------- retrying ----------

  /** What the next send will start with, once the batch of a failed send is back. */
  function NextBatch(s: State): seq<nat> {
    if s.phase.Sending? || s.phase.Final? then s.phase.batch else s.batcher
  }

  /** A batch that was refused comes back at the front of the next batch. */
  predicate Resent(s: State) {
    && (forall j :: 0 <= j < |s.log| - 1 && !s.log[j].ok ==> s.log[j].batch <= s.log[j + 1].batch)
    && (s.log != [] && !s.log[|s.log| - 1].ok ==> s.log[|s.log| - 1].batch <= NextBatch(s))
  }

  /** The last `n` attempts were failed final attempts to send `batch`. */
  predicate FailedAtEnd(log: seq<Attempt>, n: nat, batch: seq<nat>) {
    && n <= |log|
    && forall j :: |log| - n <= j < |log| ==> log[j].last && !log[j].ok && log[j].batch == batch
  }

  predicate FinalAttemptsCounted(s: State) {
    && (s.phase.Final? && s.phase.attemptsLeft <= Attempts(s.retry) ==>
          FailedAtEnd(s.log, Attempts(s.retry) - s.phase.attemptsLeft, s.phase.batch))
    && (s.phase.Failed? ==> FailedAtEnd(s.log, Attempts(s.retry), s.phase.batch))
  }

  predicate Accounted(s: State, i: nat) {
    i in Acked(s.log) || i in InFlight(s) || i in Pending(s) || i in LostAtEnd(s)
  }

  predicate AttemptedAccounted(s: State) {
    forall j, i :: 0 <= j < |s.log| && i in s.log[j].batch ==> Accounted(s, i)
  }

  lemma NextKeepsResent(s: State, e: Event)
    requires TimerOk(s) && BatchOk(s) && s.retry && Resent(s)
    ensures Resent(Next(s, e))
  {
    match e
    case Reply(ok) => ReplyKeepsResent(s, ok);
    case _ =>
      assert Next(s, e).log == s.log;
      assert NextBatch(s) <= NextBatch(Next(s, e));
  }

  lemma ReplyKeepsResent(s: State, ok: bool)
    requires BatchOk(s) && s.retry && Resent(s)
    ensures Resent(Next(s, Reply(ok)))
  {
    if s.phase.Sending? {
      ResentAfterAttempt(s, EndSend(s, ok), Attempt(s.phase.batch, s.phase.since, |s.added|, false, ok));
    } else if s.phase.Final? {
      ResentAfterAttempt(s, EndFinal(s, ok), Attempt(s.phase.batch, s.phase.since, |s.added|, true, ok));
    }
  }

  lemma ResentAfterAttempt(s: State, t: State, a: Attempt)
    requires Resent(s) && t.log == s.log + [a] && a.batch == NextBatch(s)
    requires !a.ok ==> a.batch <= NextBatch(t)
    ensures Resent(t)
  {
    forall j | 0 <= j < |t.log| - 1 && !t.log[j].ok ensures t.log[j].batch <= t.log[j + 1].batch {
      assert t.log[j] == s.log[j];
    }
  }

  lemma NextKeepsFinalCount(s: State, e: Event)
    requires BatchOk(s) && FinalAttemptsCounted(s)
    ensures FinalAttemptsCounted(Next(s, e))
  {
  }

  /** While a send is in progress, no pending metric has been attempted yet. */
  predicate PendingIsNew(s: State) {
    s.phase.Sending? ==> forall j, i :: 0 <= j < |s.log| && i in s.log[j].batch ==> i < s.phase.since
  }

  lemma AttemptedIsOld(s: State, j: nat, i: nat)
    requires Inv(s) && AttemptedAccounted(s)
    requires j < |s.log| && i in s.log[j].batch
    ensures i < |s.added|
  {
    assert Accounted(s, i);
    RangeHoldsEachOnce(|s.added|, i);
    assert i in Held(s) || i in Acked(s.log) || i in InFlight(s) || i in LostAtEnd(s);
    assert i in multiset(Range(0, |s.added|));
  }

  lemma EndSendKeepsAccounted(s: State, ok: bool)
    requires BatchOk(s) && s.retry && s.phase.Sending? && AttemptedAccounted(s) && PendingIsNew(s)
    ensures AttemptedAccounted(EndSend(s, ok))
  {
    EndSendMoves(s, ok);
    var t := EndSend(s, ok);
    assert t.log[..|s.log|] == s.log && t.log[|s.log|].batch == s.phase.batch;
    forall j, i | 0 <= j < |t.log| && i in t.log[j].batch ensures Accounted(t, i) {
      if j < |s.log| {
        assert i in s.log[j].batch && Accounted(s, i);
        assert i !in Range(s.phase.since, |s.added|);
      }
      assert i in Acked(s.log) || i in s.phase.batch;
    }
  }

  lemma EndFinalKeepsAccounted(s: State, ok: bool)
    requires BatchOk(s) && s.phase.Final? && AttemptedAccounted(s)
    ensures AttemptedAccounted(EndFinal(s, ok))
  {
    var t := EndFinal(s, ok);
    EndFinalMoves(s, ok);
    forall i | Accounted(s, i) || i in s.phase.batch ensures Accounted(t, i) {
    }
    forall j, i | 0 <= j < |t.log| && i in t.log[j].batch ensures Accounted(t, i) {
      LoggedBefore(s, t, j, i);
    }
  }

  /** What the log mentions, it mentioned before, or it is in the attempt just logged. */
  lemma LoggedBefore(s: State, t: State, j: nat, i: nat)
    requires |t.log| == |s.log| + 1 && t.log[..|s.log|] == s.log && t.log[|s.log|].batch == InFlight(s)
    requires j < |t.log| && i in t.log[j].batch && AttemptedAccounted(s)
    ensures Accounted(s, i) || i in InFlight(s)
  {
    if j < |s.log| { assert t.log[j] == s.log[j]; }
  }

  lemma WakeKeepsAccounted(s: State)
    requires Inv(s) && s.phase.Woken? && AttemptedAccounted(s)
    ensures AttemptedAccounted(Next(s, Wake)) && PendingIsNew(Next(s, Wake))
  {
    var t := Next(s, Wake);
    WakeMoves(s);
    assert t.log == s.log;
    forall j, i | 0 <= j < |s.log| && i in s.log[j].batch ensures i < |s.added| {
      AttemptedIsOld(s, j, i);
    }
    forall j, i | 0 <= j < |s.log| && i in s.log[j].batch ensures Accounted(t, i) {
      assert Accounted(s, i);
    }
  }

  lemma TimerOrAddKeepsAccounted(s: State, e: Event)
    requires TimerOk(s) && BatchOk(s) && AttemptedAccounted(s) && PendingIsNew(s)
    requires e.Start? || e.Add? || e.Tick? || e.Flush?
    ensures AttemptedAccounted(Next(s, e)) && PendingIsNew(Next(s, e))
  {
    var t := Next(s, e);
    if e.Add? { AddMoves(s, e.metric); } else { TimerStepMovesNothing(s, e); }
    assert t.log == s.log;
    forall j, i | 0 <= j < |s.log| && i in s.log[j].batch ensures Accounted(t, i) {
      assert Accounted(s, i);
    }
  }

  lemma NextKeepsAccounted(s: State, e: Event)
    requires Inv(s) && s.retry && AttemptedAccounted(s) && PendingIsNew(s)
    ensures AttemptedAccounted(Next(s, e)) && PendingIsNew(Next(s, e))
  {
    match e
    case Reply(ok) =>
      if s.phase.Sending? { EndSendKeepsAccounted(s, ok); }
      else if s.phase.Final? { EndFinalKeepsAccounted(s, ok); }
    case Wake =>
      if s.phase.Woken? { WakeKeepsAccounted(s); }
    case _ => TimerOrAddKeepsAccounted(s, e);
  }

  lemma {:induction false} RunKeepsRetryFacts(events: seq<Event>)
    ensures var s := Run(Initial(true), events);
            && Inv(s) && s.retry && Resent(s) && FinalAttemptsCounted(s) && AttemptedAccounted(s) && PendingIsNew(s)
  {
    RunKeepsInv(Initial(true), events);
    if events != [] {
      var s, e := Run(Initial(true), events[..|events| - 1]), events[|events| - 1];
      RunKeepsRetryFacts(events[..|events| - 1]);
      NextKeepsResent(s, e);
      NextKeepsFinalCount(s, e);
      NextKeepsAccounted(s, e);
    }
  }

  /** With retries on, a metric that was once part of an attempt stays until it is
      acknowledged or three final attempts in a row have failed; and every refused batch
      is the beginning of the batch attempted next. */
  lemma RetryGuarantee(events: seq<Event>, j: nat)
    requires j < |Run(Initial(true), events).log|
    ensures var s := Run(Initial(true), events);
            && (forall i :: i in s.log[j].batch ==>
                  || i in Acked(s.log) || i in InFlight(s) || i in Pending(s)
                  || (s.phase.Failed? && i in s.phase.batch && FailedAtEnd(s.log, 3, s.phase.batch)))
            && (!s.log[j].ok && j + 1 < |s.log| ==> s.log[j].batch <= s.log[j + 1].batch)
  {
    RunKeepsRetryFacts(events);
    var s := Run(Initial(true), events);
    forall i | i in s.log[j].batch ensures Accounted(s, i) {
    }
  }

  /** The loop promise is rejected only after every final attempt, three with retries and
      one without, has failed on the same batch. */
  lemma {:induction false} RejectedAfterAllAttempts(retry: bool, events: seq<Event>)
    ensures var s := Run(Initial(retry), events);
            FinalAttemptsCounted(s) && (s.phase.Failed? ==> FailedAtEnd(s.log, if retry then 3 else 1, s.phase.batch))
  {
    RunKeepsInv(Initial(retry), events);
    if events != [] {
      var init := events[..|events| - 1];
      RejectedAfterAllAttempts(retry, init);
      RunKeepsInv(Initial(retry), init);
      NextKeepsFinalCount(Run(Initial(retry), init), events[|events| - 1]);
    }
  }

  /** The metric was added between the start and the end of a regular send that failed. */
  predicate ArrivedDuring(a: Attempt, i: nat) {
    !a.ok && !a.last && a.since <= i < a.until
  }

  ghost predicate ArrivedDuringFailedSend(log: seq<Attempt>, i: nat) {
    exists j :: 0 <= j < |log| && ArrivedDuring(log[j], i)
  }

  lemma ArrivedDuringLastOrEarlier(log: seq<Attempt>, a: Attempt, i: nat)
    ensures ArrivedDuringFailedSend(log + [a], i) <==> ArrivedDuringFailedSend(log, i) || ArrivedDuring(a, i)
  {
    if ArrivedDuring(a, i) {
      assert (log + [a])[|log|] == a;
    }
    if j :| 0 <= j < |log| && ArrivedDuring(log[j], i) {
      assert (log + [a])[j] == log[j];
    }
  }

  lemma InRangeIff(from: nat, to: nat, i: nat)
    requires from <= to
    ensures i in Range(from, to) <==> from <= i < to
  {
    if from <= i < to { assert Range(from, to)[i - from] == i; }
  }

  lemma {:induction false} AddedDuringFailedSendsMembers(log: seq<Attempt>, i: nat)
    ensures i in AddedDuringFailedSends(log) <==> ArrivedDuringFailedSend(log, i)
  {
    if log != [] {
      var init, a := log[..|log| - 1], log[|log| - 1];
      AddedDuringFailedSendsMembers(init, i);
      if a.since <= a.until { InRangeIff(a.since, a.until, i); }
      ArrivedDuringLastOrEarlier(init, a, i);
      assert log == init + [a];
    }
  }

  predicate DoneIsAcked(s: State) {
    s.phase.Done? ==> forall i :: i in s.phase.batch ==> i in Acked(s.log)
  }

  lemma NextKeepsDoneAcked(s: State, e: Event)
    requires DoneIsAcked(s)
    ensures DoneIsAcked(Next(s, e))
  {
    match e
    case Reply(ok) =>
      if s.phase.Final? { FinalBatchIsAcked(s, ok); }
    case _ => assert Next(s, e).log == s.log;
  }

  lemma FinalBatchIsAcked(s: State, ok: bool)
    requires s.phase.Final?
    ensures DoneIsAcked(EndFinal(s, ok))
  {
    LogGrows(s.log, Attempt(s.phase.batch, s.phase.since, |s.added|, true, ok));
  }

  lemma {:induction false} RunKeepsDoneAcked(retry: bool, events: seq<Event>)
    ensures DoneIsAcked(Run(Initial(retry), events))
  {
    if events != [] {
      RunKeepsDoneAcked(retry, events[..|events| - 1]);
      NextKeepsDoneAcked(Run(Initial(retry), events[..|events| - 1]), events[|events| - 1]);
    }
  }

  /** The metric is nowhere any more: neither acknowledged nor in flight nor in the batcher
      nor in a final batch that failed. */
  predicate Gone(s: State, i: nat) {
    i !in Acked(s.log) && i !in InFlight(s) && i !in s.batcher && i !in LostAtEnd(s)
  }

  lemma HeldOrGone(s: State, i: nat)
    requires BatchOk(s) && DoneIsAcked(s)
    ensures Gone(s, i) <==> i !in Acked(s.log) && i !in InFlight(s) && i !in Held(s) && i !in LostAtEnd(s)
  {
    if Snapshotted(s) {
      assert s.batcher == s.phase.batch + Held(s);
    }
  }

  lemma GoneIffLostOnRestore(s: State, i: nat)
    requires BatchOk(s) && AccountOk(s) && DoneIsAcked(s) && s.retry
    ensures i < |s.added| && Gone(s, i) <==> i in LostOnRestore(s)
  {
    AccountedOnce(s, i);
    HeldOrGone(s, i);
    assert i in LostOnRestore(s) <==> multiset(LostOnRestore(s))[i] > 0;
    assert multiset(Held(s))[i] == multiset(Pending(s))[i] + multiset(Stranded(s))[i];
  }

  /** With retries on, the metrics that get lost before the final phase, so that they are
      found nowhere any more, are exactly those that arrived while a regular send that
      failed was in progress; and none of them was ever part of a request. */
  lemma LostOnRestoreExactly(events: seq<Event>, i: nat)
    ensures var s := Run(Initial(true), events);
            && (i < |s.added| && Gone(s, i) <==> ArrivedDuringFailedSend(s.log, i))
            && (Gone(s, i) ==> forall j :: 0 <= j < |s.log| ==> i !in s.log[j].batch)
  {
    RunKeepsRetryFacts(events);
    RunKeepsDoneAcked(true, events);
    var s := Run(Initial(true), events);
    AddedDuringFailedSendsMembers(s.log, i);
    GoneIffLostOnRestore(s, i);
    if Gone(s, i) {
      GoneWasNeverSent(s, i);
    }
  }

  lemma GoneWasNeverSent(s: State, i: nat)
    requires BatchOk(s) && DoneIsAcked(s) && AttemptedAccounted(s) && Gone(s, i)
    ensures forall j :: 0 <= j < |s.log| ==> i !in s.log[j].batch
  {
    HeldOrGone(s, i);
    assert !Accounted(s, i);
  }

  // ---------- order on the wire ----------

  predicate InRange(batch: seq<nat>, n: nat) {
    forall i :: 0 <= i < |batch| ==> batch[i] < n
  }

  /** The metrics a list of places names. */
  function Pick(added: seq<Entry>, batch: seq<nat>): seq<Entry>
    requires InRange(batch, |added|)
  {
    seq(|batch|, i requires 0 <= i < |batch| => added[batch[i]])
  }

  /** The points sent for `key` by the accepted sends, request after request. */
  function AckedPoints(added: seq<Entry>, log: seq<Attempt>, key: JsString): seq<MetricPoint>
    requires forall j :: 0 <= j < |log| && log[j].ok ==> InRange(log[j].batch, |added|)
  {
    if log == [] then []
    else
      var a := log[|log| - 1];
      AckedPoints(added, log[..|log| - 1], key)
      + if a.ok then PointsFor(Pick(added, a.batch), key) else []
  }

  lemma {:induction false} PointsForConcat(x: seq<Entry>, y: seq<Entry>, key: JsString)
    ensures PointsFor(x + y, key) == PointsFor(x, key) + PointsFor(y, key)
  {
    if y == [] {
      assert x + y == x;
    } else {
      var init, last := y[..|y| - 1], y[|y| - 1];
      PointsForConcat(x, init, key);
      var all := x + y;
      assert all[..|all| - 1] == x + init && all[|all| - 1] == last;
    }
  }

  lemma {:induction false} AckedPointsArePicked(added: seq<Entry>, log: seq<Attempt>, key: JsString)
    requires InRange(Acked(log), |added|)
    ensures forall j :: 0 <= j < |log| && log[j].ok ==> InRange(log[j].batch, |added|)
    ensures AckedPoints(added, log, key) == PointsFor(Pick(added, Acked(log)), key)
  {
    if log != [] {
      var init, a := log[..|log| - 1], log[|log| - 1];
      var before, batch := Acked(init), if a.ok then a.batch else [];
      assert Acked(log) == before + batch;
      assert InRange(before, |added|) && InRange(batch, |added|) by { RangeOfParts(before, batch, |added|); }
      AckedPointsArePicked(added, init, key);
      forall j | 0 <= j < |log| && log[j].ok ensures InRange(log[j].batch, |added|) {
        if j < |init| { assert log[j] == init[j]; }
      }
      assert Pick(added, before + batch) == Pick(added, before) + Pick(added, batch);
      PointsForConcat(Pick(added, before), Pick(added, batch), key);
      assert Pick(added, []) == [];
    }
  }

  lemma RangeOfParts(a: seq<nat>, b: seq<nat>, n: nat)
    requires InRange(a + b, n)
    ensures InRange(a, n) && InRange(b, n)
  {
    forall i | 0 <= i < |a| ensures a[i] < n { assert (a + b)[i] == a[i]; }
    forall i | 0 <= i < |b| ensures b[i] < n { assert (a + b)[|a| + i] == b[i]; }
  }

  lemma {:induction false} PickedPointsAreSubsequence(added: seq<Entry>, batch: seq<nat>, key: JsString)
    requires Increasing(batch) && InRange(batch, |added|)
    ensures IsSubsequence(PointsFor(Pick(added, batch), key), PointsFor(added, key))
  {
    if batch == [] {
      assert Pick(added, batch) == [];
      EmptyIsSubsequence(PointsFor(added, key));
    } else {
      assert batch[0] < |added|;
      var init, last := added[..|added| - 1], added[|added| - 1];
      assert added == init + [last];
      PointsAfterAdd(init, last, key);
      var more := if last.key == key then last.metric.points else [];
      var n := |batch| - 1;
      if batch[n] == |added| - 1 {
        PickedPointsAreSubsequence(init, batch[..n], key);
        assert Pick(added, batch) == Pick(init, batch[..n]) + [last];
        PointsAfterAdd(Pick(init, batch[..n]), last, key);
        SubsequenceAppend(PointsFor(Pick(init, batch[..n]), key), PointsFor(init, key), more);
      } else {
        forall i | 0 <= i < |batch| ensures batch[i] < |init| {
          assert i < n ==> batch[i] < batch[n];
        }
        PickedPointsAreSubsequence(init, batch, key);
        assert Pick(added, batch) == Pick(init, batch);
        SubsequenceAppend(PointsFor(Pick(init, batch), key), PointsFor(init, key), more);
      }
    }
  }

  lemma IncreasingFirst(x: seq<nat>, y: seq<nat>, z: seq<nat>)
    requires Increasing(x + y + z)
    ensures Increasing(x)
  {
    forall i, j | 0 <= i < j < |x| ensures x[i] < x[j] {
      assert (x + y + z)[i] == x[i] && (x + y + z)[j] == x[j];
    }
  }

  /** For every batch key, what the client acknowledged over a whole run, request after
      request, is a subsequence of what was added under that key; and no added metric is
      acknowledged twice. */
  lemma OrderedAtMostOnce(retry: bool, events: seq<Event>, key: JsString)
    ensures var s := Run(Initial(retry), events);
            && Increasing(Acked(s.log))
            && (forall j :: 0 <= j < |s.log| && s.log[j].ok ==> InRange(s.log[j].batch, |s.added|))
            && IsSubsequence(AckedPoints(s.added, s.log, key), PointsFor(s.added, key))
  {
    RunKeepsInv(Initial(retry), events);
    var s := Run(Initial(retry), events);
    var acked := Acked(s.log);
    IncreasingFirst(acked, InFlight(s), Held(s));
    forall i | 0 <= i < |acked| ensures acked[i] < |s.added| {
      assert acked[i] in acked;
    }
    AckedPointsArePicked(s.added, s.log, key);
    PickedPointsAreSubsequence(s.added, acked, key);
  }

  /** What was in flight whenever the client accepted, one batch after the other. */
  function AcceptedBatches(s: State, events: seq<Event>): seq<nat> {
    if events == [] then []
    else
      var init := events[..|events| - 1];
      AcceptedBatches(s, init) + if events[|events| - 1] == Reply(true) then InFlight(Run(s, init)) else []
  }

  lemma NextAcks(s: State, e: Event)
    ensures Acked(Next(s, e).log) == Acked(s.log) + if e == Reply(true) then InFlight(s) else []
  {
    if e.Reply? && s.phase.Sending? {
      LogGrows(s.log, Attempt(s.phase.batch, s.phase.since, |s.added|, false, e.ok));
    } else if e.Reply? && s.phase.Final? {
      LogGrows(s.log, Attempt(s.phase.batch, s.phase.since, |s.added|, true, e.ok));
    } else {
      assert Next(s, e).log == s.log && Acked(s.log) + [] == Acked(s.log);
    }
  }

  /** Acknowledged is exactly what the client accepted, in that order. */
  lemma {:induction false} AckedIsWhatWasAccepted(s: State, events: seq<Event>)
    ensures Acked(Run(s, events).log) == Acked(s.log) + AcceptedBatches(s, events)
  {
    if events == [] {
      assert Acked(s.log) + [] == Acked(s.log);
    } else {
      var init, e := events[..|events| - 1], events[|events| - 1];
      AckedIsWhatWasAccepted(s, init);
      NextAcks(Run(s, init), e);
      Regroup(Acked(s.log), AcceptedBatches(s, init), if e == Reply(true) then InFlight(Run(s, init)) else []);
    }
  }

  // ---------- without retries ----------

  /** The batches of all settled sends, one after the other. */
  function AllBatches(log: seq<Attempt>): seq<nat> {
    if log == [] then [] else AllBatches(log[..|log| - 1]) + log[|log| - 1].batch
  }

  /** The batches of failed final attempts. */
  function FailedFinals(log: seq<Attempt>): seq<nat> {
    if log == [] then []
    else
      var a := log[|log| - 1];
      FailedFinals(log[..|log| - 1]) + if !a.ok && a.last then a.batch else []
  }

  lemma FailedFinalsGrow(log: seq<Attempt>, a: Attempt)
    ensures FailedFinals(log + [a]) == FailedFinals(log) + if !a.ok && a.last then a.batch else []
  {
    assert (log + [a])[..|log|] == log;
  }

  lemma {:induction false} EveryAttemptEndsOneWay(log: seq<Attempt>, i: nat)
    ensures multiset(AllBatches(log))[i]
         == multiset(Acked(log))[i] + multiset(FailedSends(log))[i] + multiset(FailedFinals(log))[i]
  {
    if log != [] {
      EveryAttemptEndsOneWay(log[..|log| - 1], i);
    }
  }

  predicate FinalFailuresAreLost(s: State) {
    FailedFinals(s.log) == LostAtEnd(s)
  }

  lemma EndFinalLoses(s: State, ok: bool)
    requires BatchOk(s) && !s.retry && s.phase.Final? && FinalFailuresAreLost(s)
    ensures FinalFailuresAreLost(EndFinal(s, ok))
  {
    FailedFinalsGrow(s.log, Attempt(s.phase.batch, s.phase.since, |s.added|, true, ok));
    assert s.phase.attemptsLeft == 1;
  }

  lemma EndSendLosesNoFinal(s: State, ok: bool)
    requires s.phase.Sending? && FinalFailuresAreLost(s)
    ensures FinalFailuresAreLost(EndSend(s, ok))
  {
    FailedFinalsGrow(s.log, Attempt(s.phase.batch, s.phase.since, |s.added|, false, ok));
  }

  lemma NextKeepsFinalFailures(s: State, e: Event)
    requires TimerOk(s) && BatchOk(s) && !s.retry && FinalFailuresAreLost(s)
    ensures FinalFailuresAreLost(Next(s, e))
  {
    match e
    case Reply(ok) =>
      if s.phase.Sending? { EndSendLosesNoFinal(s, ok); }
      else if s.phase.Final? { EndFinalLoses(s, ok); }
    case _ => assert Next(s, e).log == s.log;
  }

  lemma {:induction false} RunKeepsFinalFailures(events: seq<Event>)
    ensures FinalFailuresAreLost(Run(Initial(false), events))
  {
    if events != [] {
      var init := events[..|events| - 1];
      RunKeepsInv(Initial(false), init);
      RunKeepsFinalFailures(init);
      NextKeepsFinalFailures(Run(Initial(false), init), events[|events| - 1]);
    }
  }

  /** Without retries no metric is part of more than one request, the failed ones and the
      one in flight included; and what is pending or stranded was part of none. */
  lemma AttemptedAtMostOnce(events: seq<Event>, i: nat)
    ensures var s := Run(Initial(false), events);
            && multiset(AllBatches(s.log))[i] + multiset(InFlight(s))[i] <= 1
            && (i in Held(s) ==> i !in AllBatches(s.log) && i !in InFlight(s))
  {
    RunKeepsInv(Initial(false), events);
    RunKeepsFinalFailures(events);
    var s := Run(Initial(false), events);
    EveryAttemptEndsOneWay(s.log, i);
    AccountedOnce(s, i);
    HeldIsPendingOrStranded(s, i);
  }

  lemma HeldIsPendingOrStranded(s: State, i: nat)
    ensures i in Held(s) <==> multiset(Pending(s))[i] + multiset(Stranded(s))[i] > 0
  {
    assert multiset(Held(s))[i] == multiset(Pending(s))[i] + multiset(Stranded(s))[i];
  }

  // ---------- shutting down ----------

  predicate Finished(s: State) { s.phase.Done? || s.phase.Failed? }

  /** The loop itself moves: it resumes from one of its awaits. */
  predicate IsLoopStep(s: State, e: Event) {
    (e.Wake? && s.phase.Woken?) || (e.Reply? && (s.phase.Sending? || s.phase.Final?))
  }

  /** How often the loop can still resume once the timer is completed. */
  function StepsLeft(s: State): nat {
    match s.phase
    case Final(_, attemptsLeft, _) => attemptsLeft
    case Woken(true) => 1 + Attempts(s.retry)
    case Sending(_, _) => 2 + Attempts(s.retry)
    case Woken(false) => 3 + Attempts(s.retry)
    case _ => 0
  }

  function LoopSteps(s: State, events: seq<Event>): nat {
    if events == [] then 0
    else
      var init := events[..|events| - 1];
      LoopSteps(s, init) + if IsLoopStep(Run(s, init), events[|events| - 1]) then 1 else 0
  }

  /** Regular (not final) sends begun in a run. */
  function RegularSends(s: State, events: seq<Event>): nat {
    if events == [] then 0
    else
      var init := events[..|events| - 1];
      RegularSends(s, init)
      + if !Run(s, init).phase.Sending? && Run(s, events).phase.Sending? then 1 else 0
  }

  function RegularSendsLeft(s: State): nat { if s.phase == Woken(false) then 1 else 0 }

  lemma StepAfterCompletion(s: State, e: Event)
    requires TimerOk(s) && BatchOk(s) && s.timer.completed
    ensures var t := Next(s, e);
            && t.timer.completed && !t.timer.running
            && (if IsLoopStep(s, e) then StepsLeft(t) < StepsLeft(s) else StepsLeft(t) == StepsLeft(s))
            && (!s.phase.Sending? && t.phase.Sending? ==> RegularSendsLeft(s) == 1)
            && (s.phase.Sending? || !t.phase.Sending? ==> RegularSendsLeft(t) <= RegularSendsLeft(s))
            && (t.phase.Sending? ==> RegularSendsLeft(t) == 0)
  {
  }

  /** From the moment the timer is completed, the interval never runs again, at most one
      more regular send begins, the loop resumes at most six times, and as long as it has
      not finished it is only waiting to be resumed or for the client to answer. */
  lemma {:induction false} BoundedShutdown(s: State, events: seq<Event>)
    requires TimerOk(s) && BatchOk(s) && s.timer.completed
    ensures var t := Run(s, events);
            && TimerOk(t) && BatchOk(t) && t.timer.completed && !t.timer.running
            && LoopSteps(s, events) + StepsLeft(t) <= StepsLeft(s) <= 6
            && RegularSends(s, events) + RegularSendsLeft(t) <= RegularSendsLeft(s) <= 1
            && (!Finished(t) ==> exists e :: IsLoopStep(t, e))
            && (Finished(t) <==> StepsLeft(t) == 0)
  {
    if events != [] {
      var init, e := events[..|events| - 1], events[|events| - 1];
      BoundedShutdown(s, init);
      StepAfterCompletion(Run(s, init), e);
      NextKeepsTimerAndBatch(Run(s, init), e);
    }
    var t := Run(s, events);
    if !Finished(t) {
      assert IsLoopStep(t, if t.phase.Woken? then Wake else Reply(true));
    }
  }

  // ---------- delivery ----------

  predicate NoFailure(events: seq<Event>) {
    forall i :: 0 <= i < |events| ==> events[i] != Reply(false)
  }

  predicate AllAccepted(s: State) {
    !s.phase.Failed? && forall j :: 0 <= j < |s.log| ==> s.log[j].ok
  }

  lemma {:induction false} AcceptedLosesNothing(log: seq<Attempt>)
    requires forall j :: 0 <= j < |log| ==> log[j].ok
    ensures FailedSends(log) == [] && AddedDuringFailedSends(log) == []
  {
    if log != [] { AcceptedLosesNothing(log[..|log| - 1]); }
  }

  lemma NextKeepsAllAccepted(s: State, e: Event)
    requires AllAccepted(s) && e != Reply(false)
    ensures AllAccepted(Next(s, e))
  {
  }

  lemma {:induction false} NoFailureAllAccepted(s: State, events: seq<Event>)
    requires AllAccepted(s) && NoFailure(events)
    ensures AllAccepted(Run(s, events))
  {
    if events != [] {
      NoFailureAllAccepted(s, events[..|events| - 1]);
      NextKeepsAllAccepted(Run(s, events[..|events| - 1]), events[|events| - 1]);
    }
  }

  /** The first `n` metrics cannot be left behind by the final snapshot. */
  predicate NotStranded(s: State, n: nat) {
    && n <= |s.added| && s.timer.completed
    && (Snapshotted(s) ==> forall i :: i in Held(s) ==> i >= n)
  }

  lemma NextKeepsNotStranded(s: State, e: Event, n: nat)
    requires TimerOk(s) && BatchOk(s) && NotStranded(s, n)
    ensures NotStranded(Next(s, e), n)
  {
    match e
    case Add(metric) => AddMoves(s, metric);
    case Wake =>
      if s.phase.Woken? { WakeMoves(s); }
    case Reply(ok) => ReplyKeepsNotStranded(s, ok, n);
    case _ => TimerStepMovesNothing(s, e);
  }

  lemma ReplyKeepsNotStranded(s: State, ok: bool, n: nat)
    requires TimerOk(s) && BatchOk(s) && NotStranded(s, n)
    ensures NotStranded(Next(s, Reply(ok)), n)
  {
    if s.phase.Final? { EndFinalMoves(s, ok); }
  }

  lemma {:induction false} RunKeepsNotStranded(s: State, events: seq<Event>, n: nat)
    requires TimerOk(s) && BatchOk(s) && NotStranded(s, n)
    ensures NotStranded(Run(s, events), n)
  {
    if events != [] {
      BoundedShutdown(s, events[..|events| - 1]);
      RunKeepsNotStranded(s, events[..|events| - 1], n);
      NextKeepsNotStranded(Run(s, events[..|events| - 1]), events[|events| - 1], n);
    }
  }

  lemma FinishedWithoutFailure(t: State, n: nat, i: nat)
    requires AccountOk(t) && AllAccepted(t) && Finished(t) && NotStranded(t, n) && i < n
    ensures multiset(Acked(t.log))[i] == 1
  {
    AcceptedLosesNothing(t.log);
    RangeHoldsEachOnce(|t.added|, i);
    assert i !in Held(t);
  }

  // Without a flush.

  lemma TwoSteps(s: State, a: Event, b: Event)
    ensures Run(s, [a]) == Next(s, a) && Run(s, [a, b]) == Next(Next(s, a), b)
  {
    assert [a][..0] == [] && [a, b][..1] == [a];
    assert Run(s, []) == s;
  }

  lemma ThreeSteps(s: State, a: Event, b: Event, c: Event)
    ensures Run(s, [a, b, c]) == Next(Next(Next(s, a), b), c)
  {
    TwoSteps(s, a, b);
    assert [a, b, c][..2] == [a, b];
  }

  /** A tick wakes the waiting loop, and it sends exactly what the batcher holds; with an
      empty batcher it waits for the next tick. */
  lemma TickSendsTheBatch(s: State)
    requires Inv(s) && s.phase.Waiting? && s.timer.running
    ensures var t := Run(s, [Tick, Wake]);
            && t.timer.running && t.added == s.added && t.log == s.log && t.batcher == []
            && t.phase == if s.batcher != [] then Sending(s.batcher, |s.added|) else Waiting
  {
    TwoSteps(s, Tick, Wake);
  }

  /** When the client accepts a regular send, all of its batch is acknowledged, and the loop
      waits for the next tick. */
  lemma AcceptedSendIsAcked(s: State)
    requires TimerOk(s) && s.phase.Sending? && s.timer.running
    ensures var t := Next(s, Reply(true));
            t.phase.Waiting? && t.timer.running && t.batcher == s.batcher && t.added == s.added
            && Acked(t.log) == Acked(s.log) + s.phase.batch
  {
    LogGrows(s.log, Attempt(s.phase.batch, s.phase.since, |s.added|, false, true));
  }

  lemma WaitingHoldsTheRest(s: State, i: nat)
    requires AccountOk(s) && AllAccepted(s) && s.phase.Waiting? && i < |s.added|
    ensures multiset(Acked(s.log))[i] + multiset(s.batcher)[i] == 1
  {
    AcceptedLosesNothing(s.log);
    AccountedOnce(s, i);
  }

  /** A tick and a request that is accepted acknowledge all that the batcher holds. */
  lemma TickDelivers(s: State)
    requires Inv(s) && s.phase.Waiting? && s.timer.running
    ensures Acked(Run(s, [Tick, Wake, Reply(true)]).log) == Acked(s.log) + s.batcher
  {
    var t := Run(s, [Tick, Wake]);
    ThreeSteps(s, Tick, Wake, Reply(true));
    TwoSteps(s, Tick, Wake);
    TickSendsTheBatch(s);
    if s.batcher != [] {
      NextKeepsTimerAndBatch(s, Tick);
      NextKeepsTimerAndBatch(Next(s, Tick), Wake);
      AcceptedSendIsAcked(t);
    } else {
      assert Next(t, Reply(true)) == t;
    }
  }

  /** Delivery without a flush: if no send has failed, one tick and one accepted request
      acknowledge everything added so far, each metric once. */
  lemma DeliveredByTick(s: State, i: nat)
    requires Inv(s) && AllAccepted(s) && s.phase.Waiting? && s.timer.running && i < |s.added|
    ensures multiset(Acked(Run(s, [Tick, Wake, Reply(true)]).log))[i] == 1
  {
    TickDelivers(s);
    WaitingHoldsTheRest(s, i);
  }

  predicate Running(s: State) {
    s.timer.running && (s.phase.Waiting? || s.phase == Woken(false) || s.phase.Sending?)
  }

  lemma NextKeepsRunning(s: State, e: Event)
    requires TimerOk(s) && !e.Flush?
    ensures Running(s) || (s.phase.NotStarted? && !s.timer.completed && e.Start?) ==> Running(Next(s, e))
    ensures s.phase.NotStarted? && !s.timer.completed && !e.Start? ==>
              Next(s, e).phase.NotStarted? && !Next(s, e).timer.completed
  {
  }

  /** From `startProcessing()` to `flush()` the interval is set and the loop runs. */
  lemma {:induction false} RunningUntilFlush(retry: bool, events: seq<Event>)
    requires Flush !in events
    ensures var s := Run(Initial(retry), events);
            if Start in events then Running(s) else s.phase.NotStarted? && !s.timer.completed
  {
    if events != [] {
      var init, e := events[..|events| - 1], events[|events| - 1];
      assert events == init + [e];
      RunningUntilFlush(retry, init);
      RunKeepsInv(Initial(retry), init);
      NextKeepsRunning(Run(Initial(retry), init), e);
    }
  }

  ghost predicate Healthy(s: State) { Inv(s) && AllAccepted(s) && Running(s) }

  lemma NextKeepsHealthy(s: State, e: Event)
    requires Healthy(s) && e != Flush && e != Reply(false)
    ensures Healthy(Next(s, e))
  {
    NextKeepsInv(s, e);
    NextKeepsRunning(s, e);
    NextKeepsAllAccepted(s, e);
  }

  lemma WakeOutcome(s: State)
    requires s.phase == Woken(false) && !s.timer.completed
    ensures Next(s, Wake).phase.Waiting? || Next(s, Wake).phase.Sending?
    ensures Next(s, Wake).added == s.added
  {
  }

  lemma ReplyOutcome(s: State)
    requires s.phase.Sending? && !s.timer.completed
    ensures Next(s, Reply(true)).phase.Waiting? && Next(s, Reply(true)).added == s.added
  {
  }

  /** A running loop waits again after at most two resumptions. */
  lemma BackToWaiting(s: State) returns (steps: seq<Event>)
    requires Healthy(s)
    ensures steps in [[], [Reply(true)], [Wake], [Wake, Reply(true)]]
    ensures var t := Run(s, steps); Healthy(t) && t.phase.Waiting? && t.added == s.added
  {
    if s.phase.Waiting? {
      steps := [];
    } else if s.phase.Sending? {
      steps := [Reply(true)];
      TwoSteps(s, Reply(true), Reply(true));
      ReplyOutcome(s);
      NextKeepsHealthy(s, Reply(true));
    } else {
      var t := Next(s, Wake);
      TwoSteps(s, Wake, Reply(true));
      WakeOutcome(s);
      NextKeepsHealthy(s, Wake);
      if t.phase.Waiting? {
        steps := [Wake];
      } else {
        steps := [Wake, Reply(true)];
        ReplyOutcome(t);
        NextKeepsHealthy(t, Reply(true));
      }
    }
  }

  lemma RunIsHealthy(retry: bool, events: seq<Event>)
    requires NoFailure(events) && Start in events && Flush !in events
    ensures Healthy(Run(Initial(retry), events))
  {
    RunKeepsInv(Initial(retry), events);
    NoFailureAllAccepted(Initial(retry), events);
    RunningUntilFlush(retry, events);
  }

  /** So nothing waits for `flush()`: at any time in between, if no send fails, at most two
      resumptions and one tick with its request acknowledge everything added so far. */
  lemma DeliveredWithoutFlush(retry: bool, events: seq<Event>, i: nat) returns (steps: seq<Event>)
    requires NoFailure(events) && Start in events && Flush !in events && i < |Run(Initial(retry), events).added|
    ensures steps in [[], [Reply(true)], [Wake], [Wake, Reply(true)]]
    ensures var t := Run(Run(Initial(retry), events), steps);
            multiset(Acked(Run(t, [Tick, Wake, Reply(true)]).log))[i] == 1
  {
    RunIsHealthy(retry, events);
    steps := BackToWaiting(Run(Initial(retry), events));
    DeliveredByTick(Run(Run(Initial(retry), events), steps), i);
  }

  /** If no send fails, then once the loop that `flush()` waits for has finished, every
      metric added before the first `flush()` is acknowledged, exactly once. */
  lemma DeliveredByFlush(s: State, after: seq<Event>, i: nat)
    requires Inv(s) && AllAccepted(s) && !s.timer.completed
    requires NoFailure(after) && Finished(Run(Next(s, Flush), after))
    requires i < |s.added|
    ensures multiset(Acked(Run(Next(s, Flush), after).log))[i] == 1
  {
    var f := Next(s, Flush);
    NextKeepsInv(s, Flush);
    RunKeepsInv(f, after);
    NoFailureAllAccepted(f, after);
    RunKeepsNotStranded(f, after, |s.added|);
    FinishedWithoutFailure(Run(f, after), |s.added|, i);
  }

  /** Everything added from number `n` on came after the final snapshot. */
  predicate AddedSinceSnapshot(s: State, n: nat) {
    Snapshotted(s) && forall i :: n <= i < |s.added| ==> i in Held(s)
  }

  lemma NextKeepsAddedSince(s: State, e: Event, n: nat)
    requires TimerOk(s) && BatchOk(s) && AddedSinceSnapshot(s, n)
    ensures AddedSinceSnapshot(Next(s, e), n)
  {
    match e
    case Add(metric) => AddMoves(s, metric);
    case Reply(ok) =>
      if s.phase.Final? { EndFinalMoves(s, ok); }
    case Wake =>
    case _ => TimerStepMovesNothing(s, e);
  }

  lemma {:induction false} RunKeepsAddedSince(s: State, events: seq<Event>, n: nat)
    requires TimerOk(s) && BatchOk(s) && AddedSinceSnapshot(s, n)
    ensures AddedSinceSnapshot(Run(s, events), n)
  {
    if events != [] {
      RunKeepsAddedSince(s, events[..|events| - 1], n);
      BoundedShutdown(s, events[..|events| - 1]);
      NextKeepsAddedSince(Run(s, events[..|events| - 1]), events[|events| - 1], n);
    }
  }

  lemma SnapshotByWake(s: State, e: Event)
    requires Inv(s) && !Snapshotted(s) && Snapshotted(Next(s, e))
    ensures e == Wake && s.phase == Woken(true) && Next(s, e).added == s.added && Held(Next(s, e)) == []
  {
    if e.Wake? { WakeMoves(s); }
  }

  lemma NewcomersAreNotAcked(t: State, n: nat, i: nat)
    requires AccountOk(t) && AddedSinceSnapshot(t, n) && i >= n
    ensures multiset(Acked(t.log))[i] == 0
  {
    AccountedOnce(t, i);
    assert i < |t.added| ==> i in Stranded(t);
  }

  /** If no send fails, then once the loop has finished, exactly the metrics added before
      the loop resumed to take its final snapshot are acknowledged, each once; among them
      those added between `flush()` and that moment. */
  lemma DeliveredIffBeforeSnapshot(s: State, e: Event, after: seq<Event>, i: nat)
    requires Inv(s) && AllAccepted(s) && !Snapshotted(s) && Snapshotted(Next(s, e))
    requires NoFailure(after) && Finished(Run(Next(s, e), after))
    ensures e == Wake && multiset(Acked(Run(Next(s, e), after).log))[i] == if i < |s.added| then 1 else 0
  {
    var t, u := Next(s, e), Run(Next(s, e), after);
    SnapshotByWake(s, e);
    NextKeepsInv(s, e);
    RunKeepsInv(t, after);
    if i < |s.added| {
      NoFailureAllAccepted(t, after);
      RunKeepsNotStranded(t, after, |s.added|);
      FinishedWithoutFailure(u, |s.added|, i);
    } else {
      RunKeepsAddedSince(t, after, |s.added|);
      NewcomersAreNotAcked(u, |s.added|, i);
    }
  }

  lemma NextKeepsStranded(s: State, e: Event, i: nat)
    requires TimerOk(s) && BatchOk(s) && i in Stranded(s)
    ensures i in Stranded(Next(s, e))
  {
    match e
    case Add(metric) => AddMoves(s, metric);
    case Reply(ok) =>
      if s.phase.Final? { EndFinalMoves(s, ok); }
    case Wake =>
    case _ => TimerStepMovesNothing(s, e);
  }

  /** A metric added after the final snapshot is never sent, whatever happens later. */
  lemma {:induction false} StrandedForever(s: State, events: seq<Event>, i: nat)
    requires TimerOk(s) && BatchOk(s) && i in Stranded(s)
    ensures i in Stranded(Run(s, events))
  {
    if events != [] {
      StrandedForever(s, events[..|events| - 1], i);
      BoundedShutdown(s, events[..|events| - 1]);
      NextKeepsStranded(Run(s, events[..|events| - 1]), events[|events| - 1], i);
    }
  }
}
