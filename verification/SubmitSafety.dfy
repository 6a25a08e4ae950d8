/** Safety of the submit loop over every interleaving of its steps. */
module SubmitSafety {
  import opened Basics
  import opened SubmitLoop

  function CountWaiting(emitted: seq<Emission>): nat {
    if emitted == [] then 0 else (if emitted[0].WaitingForMatch? then 1 else 0) + CountWaiting(emitted[1..])
  }

  /** The invariant of every reachable state. */
  ghost predicate Safe(s: State) {
    && (s.w.settlements == [] <==> !s.settled)
    && |s.w.settlements| <= 1
    && (s.failed <==> s.settled && s.w.settlements[0].Failed?)
    && (s.w.timerArmed <==> !s.settled)
    && (s.w.timerFired ==> s.settled)
    && (s.unsubTx <==> s.w.txOpen)
    && (s.w.txOpen ==> !s.settled && !s.w.sending)
    && SafeJobs(s)
  }

  /** At most one job-status subscription ever exists, and its handle is kept until failure. */
  ghost predicate SafeJobs(s: State) {
    && |s.w.suspended| <= 1
    && (!s.jobStatusSubscribed ==>
          && s.w.suspended == [] && s.w.watched == map[] && s.w.jobSubs == {}
          && s.unsubJobStatus.None? && s.w.emitted == [])
    && (s.w.suspended != [] ==> s.w.jobSubs == {} && s.unsubJobStatus.None? && s.w.suspended[0].event.jobIds != [])
    && (forall sub | sub in s.w.jobSubs :: s.unsubJobStatus == Some(sub))
    && (s.failed ==> s.w.jobSubs == {})
    && (s.jobStatusSubscribed ==> s.w.emitted != [] && s.w.emitted[0].WaitingForMatch? && s.w.emitted[0].jobIds != [])
    && CountWaiting(s.w.emitted) <= 1
    && (s.w.suspended != [] ==> s.w.watched == map[])
    && (forall a, b | a in s.w.watched && b in s.w.watched :: a == b)
    && s.w.jobSubs <= s.w.watched.Keys
  }

  lemma {:induction false} CountWaitingConcat(a: seq<Emission>, b: seq<Emission>)
    ensures CountWaiting(a + b) == CountWaiting(a) + CountWaiting(b)
  {
    if a == [] {
      assert a + b == b;
    } else {
      assert (a + b)[1..] == a[1..] + b;
      CountWaitingConcat(a[1..], b);
    }
  }

  lemma {:induction false} UpdatesDoNotWait(jobIds: seq<string>, statuses: seq<JobStatus>)
    ensures CountWaiting(Emissions(jobIds, statuses)) == 0
  {
    if statuses != [] {
      var n := |statuses| - 1;
      UpdatesDoNotWait(jobIds, statuses[..n]);
      CountWaitingConcat(Emissions(jobIds, statuses[..n]), Emission1(jobIds, statuses[n]));
    }
  }

  lemma FinishKeepsSafe(s: State, outcome: Outcome)
    requires SafeJobs(s)
    requires s.settled ==> Safe(s)
    requires !s.settled ==>
      s.w.settlements == [] && !s.failed && (s.unsubTx <==> s.w.txOpen) && (s.w.txOpen ==> !s.w.sending)
    ensures Safe(Finish(s, outcome))
  {
  }

  lemma StepKeepsSafe(s: State, step: Step)
    requires Safe(s) && Enabled(s, step)
    ensures Safe(Next(s, step))
  {
    match step
    case TimerFires => FinishKeepsSafe(s.(w := s.w.(timerArmed := false, timerFired := true)), Failed(SubmitTimeout));
    case TxStatusEvent(e, callbackError) => EventKeepsSafe(s, e, callbackError);
    case SetUpDone(i) => SetUpKeepsSafe(s, i);
    case SetUpFails(i, error) =>
      FinishKeepsSafe(s.(w := s.w.(suspended := Without(s.w.suspended, i))), Failed(Thrown(error)));
    case SendDone(unsubscribable) =>
    case SendFails(error) => FinishKeepsSafe(s.(w := s.w.(sending := false)), Failed(Thrown(error)));
    case JobUpdate(sub, statuses) =>
      UpdatesDoNotWait(s.w.watched[sub], statuses);
      CountWaitingConcat(s.w.emitted, Emissions(s.w.watched[sub], statuses));
  }

  lemma EventKeepsSafe(s: State, e: TxEvent, callbackError: Option<string>)
    requires Safe(s)
    ensures Safe(Next(s, TxStatusEvent(e, callbackError)))
  {
    if e.jobIds != [] && !s.jobStatusSubscribed {
      var t := s.(jobStatusSubscribed := true, w := s.w.(emitted := s.w.emitted + [WaitingForMatch(e.jobIds)]));
      CountWaitingConcat(s.w.emitted, [WaitingForMatch(e.jobIds)]);
      assert [WaitingForMatch(e.jobIds)][1..] == [];
      if callbackError.Some? {
        FinishKeepsSafe(t, Failed(Thrown(callbackError.value)));
      }
    } else if Verdict(e).Some? {
      FinishKeepsSafe(s, Verdict(e).value);
    }
  }

  lemma SetUpKeepsSafe(s: State, i: nat)
    requires Safe(s) && i < |s.w.suspended|
    ensures Safe(Next(s, SetUpDone(i)))
  {
    var h := s.w.suspended[i];
    assert Without(s.w.suspended, i) == [];
    var t := s.(w := s.w.(suspended := [], watched := s.w.watched[h.sub := h.event.jobIds]));
    var u := if s.failed then t else t.(unsubJobStatus := Some(h.sub), w := t.w.(jobSubs := s.w.jobSubs + {h.sub}));
    assert Safe(u);
    if Verdict(h.event).Some? {
      FinishKeepsSafe(u, Verdict(h.event).value);
    }
  }

  lemma {:induction false} RunKeepsSafe(s: State, steps: seq<Step>)
    requires Safe(s) && EnabledRun(s, steps)
    ensures Safe(Run(s, steps))
    decreases |steps|
  {
    if steps != [] {
      StepKeepsSafe(s, steps[0]);
      RunKeepsSafe(Next(s, steps[0]), steps[1..]);
    }
  }

  // ----- Main results

  /**
   In every reachable state: the promise has settled at most once; it has settled if the timeout fired, and
   the timer is armed only while it has not; `WaitingForMatch` was reported at most once and before anything else.
   */
  lemma SettlesAtMostOnce(steps: seq<Step>)
    requires EnabledRun(START, steps)
    ensures var s := Run(START, steps);
      && |s.w.settlements| <= 1
      && (s.settled <==> |s.w.settlements| == 1)
      && (s.w.timerFired ==> |s.w.settlements| == 1)
      && (s.w.timerArmed <==> s.w.settlements == [])
      && CountWaiting(s.w.emitted) <= 1
      && (s.w.emitted != [] ==> s.w.emitted[0].WaitingForMatch? && s.w.emitted[0].jobIds != [])
  {
    RunKeepsSafe(START, steps);
  }

  /** Job-status subscriptions the chain may be serving: those in hand and those still being set up. */
  function JobSubsInFlight(s: State): set<nat> {
    s.w.jobSubs + set h | h in s.w.suspended :: h.sub
  }

  /** The transaction subscription is in hand, or `signAndSend` may still deliver it. */
  predicate TxInFlight(s: State) {
    s.w.txOpen || s.w.sending
  }

  /**
   No leak: a settled promise whose `signAndSend` has completed has no transaction subscription; a failed one
   whose suspended handlers have all resumed has no job-status subscription either, even when the registration
   event arrived only after the failure.
   */
  lemma FailureLeavesNothingOpen(steps: seq<Step>)
    requires EnabledRun(START, steps)
    ensures var s := Run(START, steps);
      && (s.settled && !s.w.sending ==> !TxInFlight(s) && !s.w.timerArmed)
      && (s.failed && s.w.suspended == [] ==> JobSubsInFlight(s) == {})
  {
    RunKeepsSafe(START, steps);
  }

  lemma SettledStep(s: State, step: Step)
    requires s.settled && Enabled(s, step)
    ensures var t := Next(s, step); t.settled && t.w.settlements == s.w.settlements && t.failed == s.failed
  {
  }

  /** The first outcome is final, whatever still happens. */
  lemma {:induction false} SettledStaysSettled(s: State, steps: seq<Step>)
    requires s.settled && EnabledRun(s, steps)
    ensures var t := Run(s, steps); t.settled && t.w.settlements == s.w.settlements && t.failed == s.failed
    decreases |steps|
  {
    if steps != [] {
      SettledStep(s, steps[0]);
      SettledStaysSettled(Next(s, steps[0]), steps[1..]);
    }
  }

  /** What an event means for the deployment: a dispatch error comes first, and only a block means success. */
  function Says(e: TxEvent): Option<Outcome> {
    if e.dispatchError != None then Some(Failed(DispatchFailed(e.dispatchError.value)))
    else if e.status == InBlock then Some(Resolved(e.txHash))
    else if e.status == Waiting || e.status == Finalized then None
    else
      Some(Failed(if e.status == Usurped then TxUsurped
                  else if e.status == Dropped then TxDropped
                  else if e.status == Invalid then TxInvalid
                  else TxFinalityTimeout))
  }

  /** What a step would settle the promise with, were it still open. */
  function Decision(s: State, step: Step): Option<Outcome>
    requires Enabled(s, step)
  {
    match step
    case TimerFires => Some(Failed(SubmitTimeout))
    case TxStatusEvent(e, callbackError) =>
      if e.jobIds == [] || s.jobStatusSubscribed then Says(e)
      else if callbackError.Some? then Some(Failed(Thrown(callbackError.value)))
      else None
    case SetUpDone(i) => Says(s.w.suspended[i].event)
    case SetUpFails(_, error) => Some(Failed(Thrown(error)))
    case SendDone(_) => None
    case SendFails(error) => Some(Failed(Thrown(error)))
    case JobUpdate(_, _) => None
  }

  function FirstDecision(s: State, steps: seq<Step>): Option<Outcome>
    requires EnabledRun(s, steps)
    decreases |steps|
  {
    if steps == [] then None
    else if Decision(s, steps[0]).Some? then Decision(s, steps[0])
    else FirstDecision(Next(s, steps[0]), steps[1..])
  }

  lemma DecisionStep(s: State, step: Step)
    requires !s.settled && s.w.settlements == [] && Enabled(s, step)
    ensures var t := Next(s, step);
            if Decision(s, step).Some? then t.settled && t.w.settlements == [Decision(s, step).value]
            else !t.settled && t.w.settlements == []
  {
    match step
    case TxStatusEvent(e, callbackError) => DecisiveEvent(s, e, callbackError);
    case _ =>
  }

  lemma DecisiveEvent(s: State, e: TxEvent, callbackError: Option<string>)
    requires !s.settled && s.w.settlements == []
    ensures var t, step := Next(s, TxStatusEvent(e, callbackError)), TxStatusEvent(e, callbackError);
            if Decision(s, step).Some? then t.settled && t.w.settlements == [Decision(s, step).value]
            else !t.settled && t.w.settlements == []
  {
  }

  /** The promise settles with exactly the first decisive step of the run, and stays open if there is none. */
  lemma {:induction false} FirstDecisionWins(s: State, steps: seq<Step>)
    requires !s.settled && s.w.settlements == [] && EnabledRun(s, steps)
    ensures Run(s, steps).w.settlements == match FirstDecision(s, steps) case Some(o) => [o] case None => []
    decreases |steps|
  {
    if steps != [] {
      var t := Next(s, steps[0]);
      DecisionStep(s, steps[0]);
      if Decision(s, steps[0]).Some? {
        SettledStaysSettled(t, steps[1..]);
      } else {
        FirstDecisionWins(t, steps[1..]);
      }
    }
  }

  // ----- When an in-block event resolves

  /** The run goes on to settle with something else than `outcome`. */
  ghost predicate SettlesOtherwise(s: State, more: seq<Step>, outcome: Outcome) {
    EnabledRun(s, more) && Run(s, more).w.settlements != [] && Run(s, more).w.settlements != [outcome]
  }

  lemma RunOne(s: State, step: Step)
    requires Enabled(s, step)
    ensures EnabledRun(s, [step]) && Run(s, [step]) == Next(s, step)
  {
    assert [step][1..] == [];
  }

  /**
   An in-block event without dispatch error is sure to resolve the open promise exactly when its handler does not
   stop to subscribe to job statuses: it carries no registration, or an earlier event has subscribed already.
   Then it resolves at once; otherwise the timer can still win, so a deployment that has reached a block may be
   reported as timed out.
   */
  lemma InBlockResolvesIff(steps: seq<Step>, e: TxEvent, callbackError: Option<string>)
    requires EnabledRun(START, steps) && !Run(START, steps).settled
    requires e.status == InBlock && e.dispatchError.None?
    ensures var s := Run(START, steps);
            var t := Next(s, TxStatusEvent(e, callbackError));
      && ((forall more :: !SettlesOtherwise(t, more, Resolved(e.txHash))) <==> e.jobIds == [] || s.jobStatusSubscribed)
      && (e.jobIds == [] || s.jobStatusSubscribed ==> t.w.settlements == [Resolved(e.txHash)])
  {
    RunKeepsSafe(START, steps);
    var s := Run(START, steps);
    var t := Next(s, TxStatusEvent(e, callbackError));
    DecisiveEvent(s, e, callbackError);
    if e.jobIds == [] || s.jobStatusSubscribed {
      forall more ensures !SettlesOtherwise(t, more, Resolved(e.txHash)) {
        if EnabledRun(t, more) {
          SettledStaysSettled(t, more);
        }
      }
    } else if callbackError.Some? {
      assert SettlesOtherwise(t, [], Resolved(e.txHash));
    } else {
      TimerMayWin(t, e.txHash);
    }
  }

  lemma TimerMayWin(t: State, txHash: string)
    requires !t.settled && t.w.settlements == [] && t.w.timerArmed
    ensures SettlesOtherwise(t, [TimerFires], Resolved(txHash))
  {
    RunOne(t, TimerFires);
    DecisionStep(t, TimerFires);
  }

  /**
   Being in a block is not enough: the handler of an in-block event that carries the registration is still
   suspended when the timer fires, so a deployment that reached a block is reported as timed out.
   */
  lemma InBlockCanTimeOut(jobId: string, txHash: string)
    ensures var e := TxEvent(InBlock, [jobId], txHash, None);
            var steps := [TxStatusEvent(e, None), TimerFires, SetUpDone(0)];
            EnabledRun(START, steps) && Run(START, steps).w.settlements == [Failed(SubmitTimeout)]
  {
    var e := TxEvent(InBlock, [jobId], txHash, None);
    var steps := [TxStatusEvent(e, None), TimerFires, SetUpDone(0)];
    var s1 := Next(START, steps[0]);
    var s2 := Next(s1, TimerFires);
    assert s2.w.settlements == [Failed(SubmitTimeout)] && |s2.w.suspended| == 1;
    DecisionStep(START, steps[0]);
    SettledStep(s2, SetUpDone(0));
    var s3 := Next(s2, SetUpDone(0));
    assert EnabledRun(s3, []) && Run(s3, []) == s3;
    assert EnabledRun(s2, [SetUpDone(0)]) && Run(s2, [SetUpDone(0)]) == s3 by { assert [SetUpDone(0)][1..] == []; }
    var tail := [TimerFires, SetUpDone(0)];
    assert EnabledRun(s1, tail) && Run(s1, tail) == s3 by { assert tail[1..] == [SetUpDone(0)]; }
    assert steps[1..] == tail;
  }

  // ----- After success

  /** No job-status subscription is open or will be. */
  ghost predicate JobsDone(s: State) {
    s.jobStatusSubscribed && s.w.suspended == [] && s.w.jobSubs == {}
  }

  lemma {:induction false} RunStaysDone(s: State, steps: seq<Step>)
    requires JobsDone(s) && EnabledRun(s, steps)
    ensures JobsDone(Run(s, steps))
    decreases |steps|
  {
    if steps != [] {
      assert JobsDone(Next(s, steps[0]));
      RunStaysDone(Next(s, steps[0]), steps[1..]);
    }
  }

  /**
   The end of the success path: once an update has reported an assignment, no job-status subscription is open in
   any later state, and none is opened again.
   */
  lemma AssignmentEndsSubscription(before: seq<Step>, sub: nat, statuses: seq<JobStatus>, after: seq<Step>)
    requires EnabledRun(START, before) && Enabled(Run(START, before), JobUpdate(sub, statuses))
    requires AnyAssigned(statuses)
    requires EnabledRun(Next(Run(START, before), JobUpdate(sub, statuses)), after)
    ensures JobSubsInFlight(Run(Next(Run(START, before), JobUpdate(sub, statuses)), after)) == {}
  {
    RunKeepsSafe(START, before);
    var s := Run(START, before);
    var t := Next(s, JobUpdate(sub, statuses));
    assert JobsDone(t);
    RunStaysDone(t, after);
  }
}
