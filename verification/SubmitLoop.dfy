/**
 The hardened submit loop as interleaved steps: the timeout timer, transaction status events, the set-up of
 the job-status subscription, job-status updates and the completion of `signAndSend` may happen in any order.
 One step is one callback, or the resumption of one suspended function after its `await`.  Updates of a job-status
 subscription are assumed to come only after its set-up has been awaited, as the chain library delivers them.
 */
module SubmitLoop {
  import opened Basics

  datatype TxStatus = Waiting | InBlock | Usurped | Dropped | Invalid | FinalityTimeout | Finalized

  /** A status event: the job ids of its registration events, in order, and the dispatch error if there is one. */
  datatype TxEvent = TxEvent(status: TxStatus, jobIds: seq<string>, txHash: string, dispatchError: Option<string>)

  datatype Failure =
    | SubmitTimeout | TxUsurped | TxDropped | TxInvalid | TxFinalityTimeout
    | DispatchFailed(error: string) | Thrown(error: string)

  datatype Outcome = Resolved(txHash: string) | Failed(failure: Failure)

  /** Progress reported through the status callback. */
  datatype Emission =
    | WaitingForMatch(jobIds: seq<string>)
    | Matched(jobIds: seq<string>)
    | Acknowledged(count: nat)

  datatype JobStatus = Absent | Open | MatchedStatus | Assigned(count: nat)

  /** A `handleEvent` suspended while job-status subscription `sub` is being set up. */
  datatype Suspended = Suspended(sub: nat, event: TxEvent)

  /**
   What the outside world has open for the loop: the armed timer, the unfinished `signAndSend`, suspended handlers,
   the transaction subscription, the jobs that each job-status subscription ever set up watches, and those of these
   subscriptions that are not cancelled; and what it has been told: how the promise was settled (each `resolve` or
   `reject` call) and the progress reported.
   */
  datatype World = World(
    timerArmed: bool, timerFired: bool, sending: bool, suspended: seq<Suspended>,
    txOpen: bool, nextSub: nat, watched: map<nat, seq<string>>, jobSubs: set<nat>,
    settlements: seq<Outcome>, emitted: seq<Emission>)

  /** The closure variables of the loop, and the world around it. */
  datatype State = State(
    settled: bool, failed: bool, unsubTx: bool, unsubJobStatus: Option<nat>, jobStatusSubscribed: bool, w: World)

  datatype Step =
    | TimerFires
    | TxStatusEvent(event: TxEvent, callbackError: Option<string>)
    | SetUpDone(i: nat)
    | SetUpFails(i: nat, error: string)
    | SendDone(unsubscribable: bool)
    | SendFails(error: string)
    | JobUpdate(sub: nat, statuses: seq<JobStatus>)

  /** Steps the runtime can take.  Events and updates may still be in flight after their subscription is cancelled. */
  predicate Enabled(s: State, step: Step) {
    match step
    case TimerFires => s.w.timerArmed
    case TxStatusEvent(_, _) => true
    case SetUpDone(i) => i < |s.w.suspended|
    case SetUpFails(i, _) => i < |s.w.suspended|
    case SendDone(_) => s.w.sending
    case SendFails(_) => s.w.sending
    case JobUpdate(sub, _) => sub in s.w.watched
  }

  const START := State(false, false, false, None, false, World(true, false, true, [], false, 0, map[], {}, [], []))

  /** `finish`: settle the promise unless it is settled, and tear down what must not outlive it. */
  function Finish(s: State, outcome: Outcome): State {
    if s.settled then s
    else
      State(true, s.failed || outcome.Failed?, false,
        if outcome.Failed? then None else s.unsubJobStatus, s.jobStatusSubscribed,
        s.w.(timerArmed := false, txOpen := s.w.txOpen && !s.unsubTx, settlements := s.w.settlements + [outcome],
             jobSubs := if outcome.Failed? && s.unsubJobStatus.Some? then s.w.jobSubs - {s.unsubJobStatus.value}
                        else s.w.jobSubs))
  }

  /** The last part of `handleEvent`: what a status event decides, if anything. */
  function Verdict(e: TxEvent): Option<Outcome> {
    if e.dispatchError.Some? then Some(Failed(DispatchFailed(e.dispatchError.value)))
    else
      match e.status
      case InBlock => Some(Resolved(e.txHash))
      case Usurped => Some(Failed(TxUsurped))
      case Dropped => Some(Failed(TxDropped))
      case Invalid => Some(Failed(TxInvalid))
      case FinalityTimeout => Some(Failed(TxFinalityTimeout))
      case Finalized => None
      case Waiting => None
  }

  function FinishIf(s: State, verdict: Option<Outcome>): State {
    match verdict
    case Some(outcome) => Finish(s, outcome)
    case None => s
  }

  function Without<T>(xs: seq<T>, i: nat): seq<T>
    requires i < |xs|
  {
    xs[..i] + xs[i + 1..]
  }

  function Emission1(jobIds: seq<string>, status: JobStatus): seq<Emission> {
    match status
    case MatchedStatus => [Matched(jobIds)]
    case Assigned(n) => [Acknowledged(n)]
    case _ => []
  }

  function Emissions(jobIds: seq<string>, statuses: seq<JobStatus>): seq<Emission> {
    if statuses == [] then []
    else Emissions(jobIds, statuses[..|statuses| - 1]) + Emission1(jobIds, statuses[|statuses| - 1])
  }

  predicate AnyAssigned(statuses: seq<JobStatus>) {
    statuses != [] && (AnyAssigned(statuses[..|statuses| - 1]) || statuses[|statuses| - 1].Assigned?)
  }

  lemma OneMoreStatus(jobIds: seq<string>, statuses: seq<JobStatus>, i: nat)
    requires i < |statuses|
    ensures Emissions(jobIds, statuses[..i + 1]) == Emissions(jobIds, statuses[..i]) + Emission1(jobIds, statuses[i])
    ensures AnyAssigned(statuses[..i + 1]) <==> AnyAssigned(statuses[..i]) || statuses[i].Assigned?
  {
    assert statuses[..i + 1][..i] == statuses[..i];
  }

  function OnTxEvent(s: State, e: TxEvent, callbackError: Option<string>): State {
    if e.jobIds == [] || s.jobStatusSubscribed then FinishIf(s, Verdict(e))
    else
      var t := s.(jobStatusSubscribed := true, w := s.w.(emitted := s.w.emitted + [WaitingForMatch(e.jobIds)]));
      if callbackError.Some? then Finish(t, Failed(Thrown(callbackError.value)))
      else t.(w := t.w.(suspended := s.w.suspended + [Suspended(s.w.nextSub, e)], nextSub := s.w.nextSub + 1))
  }

  function OnSetUp(s: State, i: nat): State
    requires i < |s.w.suspended|
  {
    var h := s.w.suspended[i];
    var rest := Without(s.w.suspended, i);
    FinishIf(
      if s.failed then s.(w := s.w.(suspended := rest, watched := s.w.watched[h.sub := h.event.jobIds]))
      else s.(unsubJobStatus := Some(h.sub),
              w := s.w.(suspended := rest, watched := s.w.watched[h.sub := h.event.jobIds],
                        jobSubs := s.w.jobSubs + {h.sub})),
      Verdict(h.event))
  }

  function Next(s: State, step: Step): State
    requires Enabled(s, step)
  {
    match step
    case TimerFires => Finish(s.(w := s.w.(timerArmed := false, timerFired := true)), Failed(SubmitTimeout))
    case TxStatusEvent(e, callbackError) => OnTxEvent(s, e, callbackError)
    case SetUpDone(i) => OnSetUp(s, i)
    case SetUpFails(i, error) =>
      Finish(s.(w := s.w.(suspended := Without(s.w.suspended, i))), Failed(Thrown(error)))
    case SendDone(unsubscribable) =>
      if !unsubscribable || s.settled then s.(w := s.w.(sending := false))
      else s.(unsubTx := true, w := s.w.(sending := false, txOpen := true))
    case SendFails(error) => Finish(s.(w := s.w.(sending := false)), Failed(Thrown(error)))
    case JobUpdate(sub, statuses) =>
      s.(w := s.w.(emitted := s.w.emitted + Emissions(s.w.watched[sub], statuses),
                   jobSubs := if AnyAssigned(statuses) then s.w.jobSubs - {sub} else s.w.jobSubs))
  }

  predicate EnabledRun(s: State, steps: seq<Step>)
    decreases |steps|
  {
    steps == [] || (Enabled(s, steps[0]) && EnabledRun(Next(s, steps[0]), steps[1..]))
  }

  function Run(s: State, steps: seq<Step>): State
    requires EnabledRun(s, steps)
    decreases |steps|
  {
    if steps == [] then s else Run(Next(s, steps[0]), steps[1..])
  }

  // ----- The loop itself

  class Submission {
    var settled: bool
    var failed: bool
    var unsubTx: bool
    var unsubJobStatus: Option<nat>
    var jobStatusSubscribed: bool

    var world: World

    function Now(): State
      reads this
    {
      State(settled, failed, unsubTx, unsubJobStatus, jobStatusSubscribed, world)
    }

    constructor ()
      ensures Now() == START
    {
      settled, failed, unsubTx, unsubJobStatus, jobStatusSubscribed := false, false, false, None, false;
      world := World(true, false, true, [], false, 0, map[], {}, [], []);
    }

    method Settle(outcome: Outcome)
      modifies this
      ensures Now() == Finish(old(Now()), outcome)
    {
      if settled {
        return;
      }
      settled := true;
      world := world.(timerArmed := false);
      if unsubTx {
        world := world.(txOpen := false);
      }
      unsubTx := false;
      if outcome.Failed? {
        failed := true;
        if unsubJobStatus.Some? {
          world := world.(jobSubs := world.jobSubs - {unsubJobStatus.value});
        }
        unsubJobStatus := None;
      }
      world := world.(settlements := world.settlements + [outcome]);
    }

    method OnTimer()
      requires Enabled(Now(), TimerFires)
      modifies this
      ensures Now() == Next(old(Now()), TimerFires)
    {
      world := world.(timerArmed := false, timerFired := true);
      Settle(Failed(SubmitTimeout));
    }

    /** The end of `handleEvent`, with or without a suspension before it. */
    method Judge(e: TxEvent)
      modifies this
      ensures Now() == FinishIf(old(Now()), Verdict(e))
    {
      if e.dispatchError.Some? {
        Settle(Failed(DispatchFailed(e.dispatchError.value)));
      } else if e.status == InBlock {
        Settle(Resolved(e.txHash));
      } else if e.status == Usurped {
        Settle(Failed(TxUsurped));
      } else if e.status == Dropped {
        Settle(Failed(TxDropped));
      } else if e.status == Invalid {
        Settle(Failed(TxInvalid));
      } else if e.status == FinalityTimeout {
        Settle(Failed(TxFinalityTimeout));
      }
    }

    method HandleEvent(e: TxEvent, callbackError: Option<string>)
      modifies this
      ensures Now() == Next(old(Now()), TxStatusEvent(e, callbackError))
    {
      if |e.jobIds| > 0 && !jobStatusSubscribed {
        jobStatusSubscribed := true;
        world := world.(emitted := world.emitted + [WaitingForMatch(e.jobIds)]);
        if callbackError.Some? {
          Settle(Failed(Thrown(callbackError.value)));
          return;
        }
        world := world.(suspended := world.suspended + [Suspended(world.nextSub, e)], nextSub := world.nextSub + 1);
        return;
      }
      Judge(e);
    }

    method ResumeHandler(i: nat)
      requires Enabled(Now(), SetUpDone(i))
      modifies this
      ensures Now() == Next(old(Now()), SetUpDone(i))
    {
      var h := world.suspended[i];
      world := world.(suspended := Without(world.suspended, i));
      world := world.(watched := world.watched[h.sub := h.event.jobIds]);
      if !failed {
        world := world.(jobSubs := world.jobSubs + {h.sub});
        unsubJobStatus := Some(h.sub);
      }
      Judge(h.event);
    }

    method HandlerThrows(i: nat, error: string)
      requires Enabled(Now(), SetUpFails(i, error))
      modifies this
      ensures Now() == Next(old(Now()), SetUpFails(i, error))
    {
      world := world.(suspended := Without(world.suspended, i));
      Settle(Failed(Thrown(error)));
    }

    method OnSent(unsubscribable: bool)
      requires Enabled(Now(), SendDone(unsubscribable))
      modifies this
      ensures Now() == Next(old(Now()), SendDone(unsubscribable))
    {
      world := world.(sending := false);
      if unsubscribable && !settled {
        world := world.(txOpen := true);
        unsubTx := true;
      }
    }

    method OnSendError(error: string)
      requires Enabled(Now(), SendFails(error))
      modifies this
      ensures Now() == Next(old(Now()), SendFails(error))
    {
      world := world.(sending := false);
      Settle(Failed(Thrown(error)));
    }

    method ReportStatus(sub: nat, jobIds: seq<string>, status: JobStatus)
      modifies this`world
      ensures world == old(world).(
                emitted := old(world).emitted + Emission1(jobIds, status),
                jobSubs := if status.Assigned? then old(world).jobSubs - {sub} else old(world).jobSubs)
    {
      if status.MatchedStatus? {
        world := world.(emitted := world.emitted + [Matched(jobIds)]);
      } else if status.Assigned? {
        world := world.(emitted := world.emitted + [Acknowledged(status.count)]);
        world := world.(jobSubs := world.jobSubs - {sub});
      }
    }

    /** The `forEach` over the statuses of the watched jobs. */
    method ReportStatuses(sub: nat, jobIds: seq<string>, statuses: seq<JobStatus>)
      modifies this`world
      ensures world == old(world).(
                emitted := old(world).emitted + Emissions(jobIds, statuses),
                jobSubs := if AnyAssigned(statuses) then old(world).jobSubs - {sub} else old(world).jobSubs)
    {
      var i := 0;
      while i < |statuses|
        invariant 0 <= i <= |statuses|
        invariant world == old(world).(
                    emitted := old(world).emitted + Emissions(jobIds, statuses[..i]),
                    jobSubs := if AnyAssigned(statuses[..i]) then old(world).jobSubs - {sub} else old(world).jobSubs)
      {
        OneMoreStatus(jobIds, statuses, i);
        ReportStatus(sub, jobIds, statuses[i]);
        i := i + 1;
      }
      assert statuses[..i] == statuses;
    }

    method OnJobUpdate(sub: nat, statuses: seq<JobStatus>)
      requires Enabled(Now(), JobUpdate(sub, statuses))
      modifies this`world
      ensures Now() == Next(old(Now()), JobUpdate(sub, statuses))
    {
      ReportStatuses(sub, world.watched[sub], statuses);
    }
  }
}
