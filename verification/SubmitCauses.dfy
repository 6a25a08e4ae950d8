/**
 What every settlement, subscription and progress report of the submit loop goes back to, told by the steps of the
 run and the fields of its events alone.
 */
module SubmitCauses {
  import opened Basics
  import opened SubmitLoop
  import opened SubmitSafety

  // ----- The judgement of one event

  /** The step judges the event: its handler runs to the end, at once or after its suspension. */
  ghost predicate Judges(s: State, step: Step, e: TxEvent)
    requires Enabled(s, step)
  {
    match step
    case TxStatusEvent(x, _) => x == e && (e.jobIds == [] || s.jobStatusSubscribed)
    case SetUpDone(i) => s.w.suspended[i].event == e
    case _ => false
  }

  /**
   In every reachable state in which the promise is open, an event that is judged settles it exactly so: a dispatch
   error fails it whatever the status, a block resolves it with the hash, each of the four fatal statuses fails it
   with its own error, and a waiting or finalized transaction leaves it open.
   */
  lemma JudgementTable(steps: seq<Step>, step: Step, e: TxEvent)
    requires EnabledRun(START, steps) && Enabled(Run(START, steps), step)
    requires !Run(START, steps).settled && Judges(Run(START, steps), step, e)
    ensures var settlements := Next(Run(START, steps), step).w.settlements;
            var clean := e.dispatchError.None?;
      && (e.dispatchError.Some? ==> settlements == [Failed(DispatchFailed(e.dispatchError.value))])
      && (clean && e.status == InBlock ==> settlements == [Resolved(e.txHash)])
      && (clean && e.status == Usurped ==> settlements == [Failed(TxUsurped)])
      && (clean && e.status == Dropped ==> settlements == [Failed(TxDropped)])
      && (clean && e.status == Invalid ==> settlements == [Failed(TxInvalid)])
      && (clean && e.status == FinalityTimeout ==> settlements == [Failed(TxFinalityTimeout)])
      && (clean && (e.status == Waiting || e.status == Finalized) ==> settlements == [])
  {
    RunKeepsSafe(START, steps);
    DecisionStep(Run(START, steps), step);
  }

  // ----- The cause of a settlement

  /** The past brought the event. */
  ghost predicate Brought(past: seq<Step>, e: TxEvent) {
    exists callbackError :: TxStatusEvent(e, callbackError) in past
  }

  ghost predicate BroughtClean(past: seq<Step>, status: TxStatus) {
    exists e :: Brought(past, e) && e.status == status && e.dispatchError.None?
  }

  ghost predicate ThrownIn(past: seq<Step>, error: string) {
    || SendFails(error) in past
    || (exists i :: SetUpFails(i, error) in past)
    || (exists e :: TxStatusEvent(e, Some(error)) in past)
  }

  /** What must have happened for the promise to be settled like this. */
  ghost predicate Caused(past: seq<Step>, outcome: Outcome) {
    match outcome
    case Resolved(txHash) =>
      exists e :: Brought(past, e) && e.status == InBlock && e.dispatchError.None? && e.txHash == txHash
    case Failed(SubmitTimeout) => TimerFires in past
    case Failed(TxUsurped) => BroughtClean(past, Usurped)
    case Failed(TxDropped) => BroughtClean(past, Dropped)
    case Failed(TxInvalid) => BroughtClean(past, Invalid)
    case Failed(TxFinalityTimeout) => BroughtClean(past, FinalityTimeout)
    case Failed(DispatchFailed(error)) => exists e :: Brought(past, e) && e.dispatchError == Some(error)
    case Failed(Thrown(error)) => ThrownIn(past, error)
  }

  ghost predicate Explained(s: State, past: seq<Step>) {
    && (forall h | h in s.w.suspended :: Brought(past, h.event))
    && (forall outcome | outcome in s.w.settlements :: Caused(past, outcome))
  }

  lemma BroughtLater(past: seq<Step>, step: Step, e: TxEvent)
    requires Brought(past, e)
    ensures Brought(past + [step], e)
  {
    var c :| TxStatusEvent(e, c) in past;
    assert TxStatusEvent(e, c) in past + [step];
  }

  lemma ThrownLater(past: seq<Step>, step: Step, error: string)
    requires ThrownIn(past, error)
    ensures ThrownIn(past + [step], error)
  {
    if i :| SetUpFails(i, error) in past {
      assert SetUpFails(i, error) in past + [step];
    } else if e :| TxStatusEvent(e, Some(error)) in past {
      assert TxStatusEvent(e, Some(error)) in past + [step];
    }
  }

  lemma CausedLater(past: seq<Step>, step: Step, outcome: Outcome)
    requires Caused(past, outcome)
    ensures Caused(past + [step], outcome)
  {
    forall e | Brought(past, e) ensures Brought(past + [step], e) {
      BroughtLater(past, step, e);
    }
    match outcome
    case Failed(Thrown(error)) => ThrownLater(past, step, error);
    case _ =>
  }

  /** An event of the past explains what it says. */
  lemma SaidIsCaused(past: seq<Step>, e: TxEvent)
    requires Brought(past, e) && Says(e).Some?
    ensures Caused(past, Says(e).value)
  {
  }

  lemma NowBrought(past: seq<Step>, e: TxEvent, callbackError: Option<string>)
    ensures Brought(past + [TxStatusEvent(e, callbackError)], e)
  {
    assert TxStatusEvent(e, callbackError) in past + [TxStatusEvent(e, callbackError)];
  }

  /** A step settles the promise, if at all, with something that has its cause by then. */
  lemma DecisionIsCaused(s: State, past: seq<Step>, step: Step)
    requires Enabled(s, step) && Explained(s, past) && Decision(s, step).Some?
    ensures Caused(past + [step], Decision(s, step).value)
  {
    assert step in past + [step];
    match step
    case TxStatusEvent(e, callbackError) =>
      NowBrought(past, e, callbackError);
      if e.jobIds == [] || s.jobStatusSubscribed { SaidIsCaused(past + [step], e); }
    case SetUpDone(i) =>
      BroughtLater(past, step, s.w.suspended[i].event);
      SaidIsCaused(past + [step], s.w.suspended[i].event);
    case _ =>
  }

  /** Settling touches neither the suspended handlers nor what is watched or has been reported. */
  lemma JudgingIsQuiet(s: State, verdict: Option<Outcome>)
    ensures var t := FinishIf(s, verdict);
      t.w.suspended == s.w.suspended && t.w.watched == s.w.watched && t.w.emitted == s.w.emitted
      && t.w.sending == s.w.sending && t.w.timerFired == s.w.timerFired
  {
  }

  lemma EventSuspends(s: State, e: TxEvent, callbackError: Option<string>, h: Suspended)
    requires h in Next(s, TxStatusEvent(e, callbackError)).w.suspended
    ensures h in s.w.suspended || h.event == e
  {
    JudgingIsQuiet(s, Verdict(e));
  }

  lemma SetUpResumes(s: State, i: nat)
    requires i < |s.w.suspended|
    ensures Next(s, SetUpDone(i)).w.suspended == Without(s.w.suspended, i)
  {
  }

  lemma SuspendedAfter(s: State, step: Step, h: Suspended)
    requires Enabled(s, step) && h in Next(s, step).w.suspended
    ensures h in s.w.suspended || (step.TxStatusEvent? && h.event == step.event)
  {
    match step
    case TxStatusEvent(e, callbackError) => EventSuspends(s, e, callbackError, h);
    case SetUpDone(i) => SetUpResumes(s, i);
    case _ =>
  }

  lemma StepKeepsExplained(s: State, past: seq<Step>, step: Step)
    requires Safe(s) && Enabled(s, step) && Explained(s, past)
    ensures Explained(Next(s, step), past + [step])
  {
    var t := Next(s, step);
    forall h | h in t.w.suspended ensures Brought(past + [step], h.event) {
      SuspendedAfter(s, step, h);
      if h in s.w.suspended {
        BroughtLater(past, step, h.event);
      } else {
        NowBrought(past, step.event, step.callbackError);
      }
    }
    forall outcome | outcome in t.w.settlements ensures Caused(past + [step], outcome) {
      if s.settled {
        SettledStep(s, step);
        CausedLater(past, step, outcome);
      } else {
        DecisionStep(s, step);
        DecisionIsCaused(s, past, step);
      }
    }
  }

  lemma Onward(past: seq<Step>, steps: seq<Step>)
    requires steps != []
    ensures past + [steps[0]] + steps[1..] == past + steps
  {
  }

  lemma {:induction false} RunKeepsExplained(s: State, past: seq<Step>, steps: seq<Step>)
    requires Safe(s) && EnabledRun(s, steps) && Explained(s, past)
    ensures Explained(Run(s, steps), past + steps)
    decreases |steps|
  {
    if steps == [] {
      assert past + steps == past;
    } else {
      StepKeepsExplained(s, past, steps[0]);
      StepKeepsSafe(s, steps[0]);
      RunKeepsExplained(Next(s, steps[0]), past + [steps[0]], steps[1..]);
      Onward(past, steps);
    }
  }

  /**
   No outcome comes from nowhere: in every run, a promise that resolved with a hash did so because an event put the
   transaction with that hash into a block without a dispatch error, and each failure goes back to its own event, to
   the timer, or to an error thrown with that text.
   */
  lemma SettlementHasCause(steps: seq<Step>, outcome: Outcome)
    requires EnabledRun(START, steps) && outcome in Run(START, steps).w.settlements
    ensures Caused(steps, outcome)
  {
    RunKeepsExplained(START, [], steps);
    assert [] + steps == steps;
  }

  // ----- What is open

  ghost predicate SendOver(past: seq<Step>) {
    (exists unsubscribable :: SendDone(unsubscribable) in past) || (exists error :: SendFails(error) in past)
  }

  ghost predicate SetUp(past: seq<Step>) {
    exists i :: SetUpDone(i) in past
  }

  predicate TellsAssigned(statuses: seq<JobStatus>) {
    exists status :: status in statuses && status.Assigned?
  }

  ghost predicate AssignedIn(past: seq<Step>) {
    exists sub, statuses :: JobUpdate(sub, statuses) in past && TellsAssigned(statuses)
  }

  lemma {:induction false} AnyAssignedIff(statuses: seq<JobStatus>)
    ensures AnyAssigned(statuses) <==> TellsAssigned(statuses)
  {
    if statuses != [] {
      var n := |statuses| - 1;
      AnyAssignedIff(statuses[..n]);
      assert statuses == statuses[..n] + [statuses[n]];
    }
  }

  ghost predicate TracksSend(s: State, past: seq<Step>) {
    && (s.w.sending <==> !SendOver(past))
    && (s.w.txOpen <==> SendDone(true) in past && !s.settled)
    && (s.w.timerFired <==> TimerFires in past)
  }

  ghost predicate TracksJobs(s: State, past: seq<Step>) {
    && (s.w.watched != map[] <==> SetUp(past))
    && (AssignedIn(past) ==> s.w.watched != map[])
    && s.w.jobSubs == (if s.failed || AssignedIn(past) then {} else s.w.watched.Keys)
  }

  ghost predicate Tracks(s: State, past: seq<Step>) {
    TracksSend(s, past) && TracksJobs(s, past)
  }

  lemma PastGrows(past: seq<Step>, step: Step)
    ensures SendOver(past + [step]) <==> SendOver(past) || step.SendDone? || step.SendFails?
    ensures SetUp(past + [step]) <==> SetUp(past) || step.SetUpDone?
    ensures AssignedIn(past + [step])
            <==> AssignedIn(past) || (step.JobUpdate? && TellsAssigned(step.statuses))
  {
    assert step in past + [step];
    forall x | x in past ensures x in past + [step] {
    }
    if step.SendDone? { assert SendDone(step.unsubscribable) in past + [step]; }
    if step.SendFails? { assert SendFails(step.error) in past + [step]; }
    if step.SetUpDone? { assert SetUpDone(step.i) in past + [step]; }
    if step.JobUpdate? { assert JobUpdate(step.sub, step.statuses) in past + [step]; }
  }

  /** The rest of the machine leaves the sending and the timer as they are. */
  lemma OtherStepsDoNotSend(s: State, step: Step)
    requires Safe(s) && Enabled(s, step) && (step.TxStatusEvent? || step.SetUpDone?)
    ensures var t := Next(s, step);
      && t.w.sending == s.w.sending && t.w.timerFired == s.w.timerFired
      && (t.w.txOpen <==> s.w.txOpen && !t.settled) && (s.settled ==> t.settled)
  {
    if step.TxStatusEvent? {
      JudgingIsQuiet(s, Verdict(step.event));
    }
  }

  lemma StepKeepsTracksSend(s: State, past: seq<Step>, step: Step)
    requires Safe(s) && Enabled(s, step) && TracksSend(s, past)
    ensures TracksSend(Next(s, step), past + [step])
  {
    PastGrows(past, step);
    if step.TxStatusEvent? || step.SetUpDone? {
      OtherStepsDoNotSend(s, step);
    }
    if step.SendDone? {
      assert SendDone(true) !in past;
    }
  }

  /** A step that neither sets a subscription up nor updates one can only close what is open, by failing. */
  lemma OtherStepsKeepJobs(s: State, step: Step)
    requires Safe(s) && Enabled(s, step) && !step.SetUpDone? && !step.JobUpdate?
    ensures var t := Next(s, step);
      t.w.watched == s.w.watched && t.w.jobSubs == (if t.failed then {} else s.w.jobSubs) && (s.failed ==> t.failed)
  {
    StepKeepsSafe(s, step);
    if step.TxStatusEvent? {
      JudgingIsQuiet(s, Verdict(step.event));
    }
  }

  lemma SetUpOpens(s: State, i: nat)
    requires Safe(s) && i < |s.w.suspended|
    ensures var t := Next(s, SetUpDone(i));
            var sub := s.w.suspended[i].sub;
      && t.w.watched == map[sub := s.w.suspended[i].event.jobIds]
      && t.w.jobSubs == (if t.failed then {} else {sub})
  {
    StepKeepsSafe(s, SetUpDone(i));
  }

  lemma StepKeepsTracksJobs(s: State, past: seq<Step>, step: Step)
    requires Safe(s) && Enabled(s, step) && TracksJobs(s, past)
    ensures TracksJobs(Next(s, step), past + [step])
  {
    PastGrows(past, step);
    match step
    case SetUpDone(i) =>
      SetUpOpens(s, i);
      var sub := s.w.suspended[i].sub;
      assert sub in Next(s, step).w.watched;
      assert Next(s, step).w.watched.Keys == {sub};
    case JobUpdate(sub, statuses) =>
      AnyAssignedIff(statuses);
      assert forall x | x in s.w.watched :: x == sub;
    case _ => OtherStepsKeepJobs(s, step);
  }

  lemma StepKeepsTracks(s: State, past: seq<Step>, step: Step)
    requires Safe(s) && Enabled(s, step) && Tracks(s, past)
    ensures Tracks(Next(s, step), past + [step])
  {
    StepKeepsTracksSend(s, past, step);
    StepKeepsTracksJobs(s, past, step);
  }

  lemma {:induction false} RunKeepsTracks(s: State, past: seq<Step>, steps: seq<Step>)
    requires Safe(s) && EnabledRun(s, steps) && Tracks(s, past)
    ensures Tracks(Run(s, steps), past + steps)
    decreases |steps|
  {
    if steps == [] {
      assert past + steps == past;
    } else {
      StepKeepsTracks(s, past, steps[0]);
      StepKeepsSafe(s, steps[0]);
      RunKeepsTracks(Next(s, steps[0]), past + [steps[0]], steps[1..]);
      Onward(past, steps);
    }
  }

  /**
   Exactly what is open after any run: the transaction subscription as long as it was handed over and the promise is
   open; the job-status subscription once it is set up, until a failure or an assignment.  So it outlives success.
   */
  lemma OpenIff(steps: seq<Step>)
    requires EnabledRun(START, steps)
    ensures var s := Run(START, steps);
      && (s.w.sending <==> !SendOver(steps))
      && (s.w.txOpen <==> SendDone(true) in steps && !s.settled)
      && (s.w.timerFired <==> TimerFires in steps)
      && (s.w.jobSubs != {} <==> SetUp(steps) && !s.failed && !AssignedIn(steps))
  {
    RunKeepsTracks(START, [], steps);
    assert [] + steps == steps;
  }

  // ----- What is reported

  /** The reports of one update: for each matched or assigned job, in order. */
  function UpdateReports(jobIds: seq<string>, statuses: seq<JobStatus>): seq<Emission> {
    if statuses == [] then []
    else if statuses[0] == MatchedStatus then [Matched(jobIds)] + UpdateReports(jobIds, statuses[1..])
    else if statuses[0].Assigned? then [Acknowledged(statuses[0].count)] + UpdateReports(jobIds, statuses[1..])
    else UpdateReports(jobIds, statuses[1..])
  }

  lemma {:induction false} ReportOneMore(jobIds: seq<string>, statuses: seq<JobStatus>, status: JobStatus)
    ensures UpdateReports(jobIds, statuses + [status])
         == UpdateReports(jobIds, statuses) + UpdateReports(jobIds, [status])
  {
    if statuses == [] {
      assert [] + [status] == [status];
    } else {
      assert (statuses + [status])[1..] == statuses[1..] + [status];
      ReportOneMore(jobIds, statuses[1..], status);
    }
  }

  lemma {:induction false} EmissionsAreReports(jobIds: seq<string>, statuses: seq<JobStatus>)
    ensures Emissions(jobIds, statuses) == UpdateReports(jobIds, statuses)
  {
    if statuses != [] {
      var n := |statuses| - 1;
      EmissionsAreReports(jobIds, statuses[..n]);
      ReportOneMore(jobIds, statuses[..n], statuses[n]);
      assert statuses == statuses[..n] + [statuses[n]];
      assert [statuses[n]][1..] == [];
    }
  }

  /** The jobs that were announced are the jobs that are watched. */
  ghost predicate Consistent(s: State) {
    && (forall h | h in s.w.suspended :: s.w.emitted != [] && s.w.emitted[0] == WaitingForMatch(h.event.jobIds))
    && (forall sub | sub in s.w.watched :: s.w.emitted != [] && s.w.emitted[0] == WaitingForMatch(s.w.watched[sub]))
  }

  lemma ReportsOnlyGrow(s: State, step: Step)
    requires Safe(s) && Enabled(s, step)
    ensures s.w.emitted <= Next(s, step).w.emitted
  {
    match step
    case TxStatusEvent(e, callbackError) => JudgingIsQuiet(s, Verdict(e));
    case _ =>
  }

  lemma EventKeepsConsistent(s: State, e: TxEvent, callbackError: Option<string>)
    requires Safe(s) && Consistent(s)
    ensures Consistent(Next(s, TxStatusEvent(e, callbackError)))
  {
    JudgingIsQuiet(s, Verdict(e));
  }

  lemma SetUpKeepsConsistent(s: State, i: nat)
    requires Safe(s) && Consistent(s) && i < |s.w.suspended|
    ensures Consistent(Next(s, SetUpDone(i)))
  {
    SetUpResumes(s, i);
    SetUpOpens(s, i);
    ReportsOnlyGrow(s, SetUpDone(i));
    assert s.w.suspended[i] in s.w.suspended;
  }

  lemma StepKeepsConsistent(s: State, step: Step)
    requires Safe(s) && Enabled(s, step) && Consistent(s)
    ensures Consistent(Next(s, step))
  {
    match step
    case TxStatusEvent(e, callbackError) => EventKeepsConsistent(s, e, callbackError);
    case SetUpDone(i) => SetUpKeepsConsistent(s, i);
    case JobUpdate(_, _) =>
    case _ =>
      OtherStepsKeepJobs(s, step);
      ReportsOnlyGrow(s, step);
  }

  lemma {:induction false} RunKeepsConsistent(s: State, steps: seq<Step>)
    requires Safe(s) && EnabledRun(s, steps) && Consistent(s)
    ensures Consistent(Run(s, steps))
    decreases |steps|
  {
    if steps != [] {
      StepKeepsConsistent(s, steps[0]);
      StepKeepsSafe(s, steps[0]);
      RunKeepsConsistent(Next(s, steps[0]), steps[1..]);
    }
  }

  /**
   What each step of a run reports: the first event with a registration announces exactly its jobs, an update tells
   of those jobs what its statuses say, and nothing else reports anything.
   */
  lemma StepReports(steps: seq<Step>, step: Step)
    requires EnabledRun(START, steps) && Enabled(Run(START, steps), step)
    ensures var s := Run(START, steps);
            Next(s, step).w.emitted == s.w.emitted +
              (match step
               case TxStatusEvent(e, _) =>
                 if e.jobIds != [] && s.w.emitted == [] then [WaitingForMatch(e.jobIds)] else []
               case JobUpdate(_, statuses) =>
                 if s.w.emitted != [] && s.w.emitted[0].WaitingForMatch?
                 then UpdateReports(s.w.emitted[0].jobIds, statuses) else []
               case _ => [])
  {
    RunKeepsSafe(START, steps);
    RunKeepsConsistent(START, steps);
    var s := Run(START, steps);
    match step
    case JobUpdate(sub, statuses) => UpdateTells(s, sub, statuses);
    case TxStatusEvent(e, callbackError) => EventTells(s, e, callbackError);
    case _ =>
      OthersTellNothing(s, step);
      assert s.w.emitted + [] == s.w.emitted;
  }

  lemma UpdateTells(s: State, sub: nat, statuses: seq<JobStatus>)
    requires Consistent(s) && sub in s.w.watched
    ensures s.w.emitted != [] && s.w.emitted[0].WaitingForMatch?
    ensures Next(s, JobUpdate(sub, statuses)).w.emitted
         == s.w.emitted + UpdateReports(s.w.emitted[0].jobIds, statuses)
  {
    EmissionsAreReports(s.w.watched[sub], statuses);
  }

  lemma EventTells(s: State, e: TxEvent, callbackError: Option<string>)
    requires Safe(s)
    ensures Next(s, TxStatusEvent(e, callbackError)).w.emitted
         == s.w.emitted + (if e.jobIds != [] && s.w.emitted == [] then [WaitingForMatch(e.jobIds)] else [])
  {
    JudgingIsQuiet(s, Verdict(e));
  }

  lemma OthersTellNothing(s: State, step: Step)
    requires Enabled(s, step) && !step.TxStatusEvent? && !step.JobUpdate?
    ensures Next(s, step).w.emitted == s.w.emitted
  {
    if step.SetUpDone? {
      SetUpTellsNothing(s, step.i);
    }
  }

  lemma SetUpTellsNothing(s: State, i: nat)
    requires i < |s.w.suspended|
    ensures Next(s, SetUpDone(i)).w.emitted == s.w.emitted
  {
  }
}
