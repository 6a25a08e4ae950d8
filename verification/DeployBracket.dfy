/**
 A deployment holds the wallet lock around the submit loop.  The lock is asked for first (when the caller gave
 a way to ask), the loop runs, and the lock is released whatever the outcome; every `await` is a separate step,
 so steps of the loop may come between and after them.
 */
module DeployBracket {
  import opened Basics
  import opened SubmitLoop
  import Safety = SubmitSafety

  datatype Ending =
    | Deployed(txHash: string)
    | SubmitFailed(failure: Failure)
    | BuildFailed(error: string)
    | LockFailed(error: string)

  datatype Phase = Acquiring | Submitting | Releasing(ending: Ending) | Ended(ending: Ending)

  /** `asksLock`: whether the options bring `acquireSubmitLock`.  `begun`: whether the submit loop exists yet. */
  datatype Deploy = Deploy(asksLock: bool, phase: Phase, held: bool, releases: nat, begun: bool, loop: State)

  datatype Move =
    | Granted
    | Refused(error: string)
    | NoLockAsked
    | Begin(buildError: Option<string>)
    | Loop(step: Step)
    | Settled
    | Released
    | ReleaseFails(error: string)

  function Idle(asksLock: bool): Deploy {
    Deploy(asksLock, Acquiring, false, 0, false, START)
  }

  predicate Possible(d: Deploy, m: Move) {
    match m
    case Granted => d.phase.Acquiring? && d.asksLock
    case Refused(_) => d.phase.Acquiring? && d.asksLock
    case NoLockAsked => d.phase.Acquiring? && !d.asksLock
    case Begin(_) => d.phase.Submitting? && !d.begun
    case Loop(step) => d.begun && Enabled(d.loop, step)
    case Settled => d.phase.Submitting? && d.begun && d.loop.w.settlements != []
    case Released => d.phase.Releasing?
    case ReleaseFails(_) => d.phase.Releasing?
  }

  function EndingOf(outcome: Outcome): Ending {
    match outcome
    case Resolved(txHash) => Deployed(txHash)
    case Failed(failure) => SubmitFailed(failure)
  }

  /** `finally { await releaseSubmitLock?.() }`. */
  function Finally(d: Deploy, ending: Ending): Deploy {
    d.(phase := if d.asksLock then Releasing(ending) else Ended(ending))
  }

  function After(d: Deploy, m: Move): Deploy
    requires Possible(d, m)
  {
    match m
    case Granted => d.(phase := Submitting, held := true)
    case Refused(error) => d.(phase := Ended(LockFailed(error)))
    case NoLockAsked => d.(phase := Submitting)
    case Begin(Some(error)) => Finally(d, BuildFailed(error))
    case Begin(None) => d.(begun := true)
    case Loop(step) => d.(loop := Next(d.loop, step))
    case Settled => Finally(d, EndingOf(d.loop.w.settlements[0]))
    case Released => d.(phase := Ended(d.phase.ending), held := false, releases := d.releases + 1)
    case ReleaseFails(error) => d.(phase := Ended(LockFailed(error)))
  }

  predicate PossibleRun(d: Deploy, moves: seq<Move>)
    decreases |moves|
  {
    moves == [] || (Possible(d, moves[0]) && PossibleRun(After(d, moves[0]), moves[1..]))
  }

  function Play(d: Deploy, moves: seq<Move>): Deploy
    requires PossibleRun(d, moves)
    decreases |moves|
  {
    if moves == [] then d else Play(After(d, moves[0]), moves[1..])
  }

  // ----- The bracket itself

  class Deployment {
    const asksLock: bool
    const submission: Submission
    var phase: Phase
    var begun: bool
    // The other side of the lock.
    var held: bool
    var releases: nat

    function Now(): Deploy
      reads this, submission
    {
      Deploy(asksLock, phase, held, releases, begun, submission.Now())
    }

    constructor (asksLock: bool)
      ensures Now() == Idle(asksLock) && fresh(submission)
    {
      this.asksLock := asksLock;
      phase, begun, held, releases := Acquiring, false, false, 0;
      submission := new Submission();
    }

    /** The resumption after `await options.acquireSubmitLock()`. */
    method OnLock(refusal: Option<string>)
      requires Possible(Now(), if refusal.Some? then Refused(refusal.value) else Granted)
      modifies this
      ensures Now() == After(old(Now()), if refusal.Some? then Refused(refusal.value) else Granted)
    {
      if refusal.Some? {
        phase := Ended(LockFailed(refusal.value));
        return;
      }
      held := true;
      phase := Submitting;
    }

    method SkipLock()
      requires Possible(Now(), NoLockAsked)
      modifies this
      ensures Now() == After(old(Now()), NoLockAsked)
    {
      phase := Submitting;
    }

    method LeaveTry(ending: Ending)
      modifies this`phase
      ensures Now() == Finally(old(Now()), ending)
    {
      if asksLock {
        phase := Releasing(ending);
      } else {
        phase := Ended(ending);
      }
    }

    method OnBegin(buildError: Option<string>)
      requires Possible(Now(), Begin(buildError))
      modifies this
      ensures Now() == After(old(Now()), Begin(buildError))
    {
      if buildError.Some? {
        LeaveTry(BuildFailed(buildError.value));
      } else {
        begun := true;
      }
    }

    /** The resumption after `await registerJobHardened(…)`. */
    method OnSettled()
      requires Possible(Now(), Settled)
      modifies this
      ensures Now() == After(old(Now()), Settled)
    {
      LeaveTry(EndingOf(submission.world.settlements[0]));
    }

    /** The resumption after `await releaseSubmitLock()`. */
    method OnReleased(failure: Option<string>)
      requires Possible(Now(), if failure.Some? then ReleaseFails(failure.value) else Released)
      modifies this
      ensures Now() == After(old(Now()), if failure.Some? then ReleaseFails(failure.value) else Released)
    {
      if failure.Some? {
        phase := Ended(LockFailed(failure.value));
        return;
      }
      held, releases := false, releases + 1;
      phase := Ended(phase.ending);
    }
  }

  // ----- Invariant

  /** An ending tells what the loop settled with. */
  ghost predicate Tells(ending: Ending, d: Deploy) {
    match ending
    case Deployed(txHash) => d.begun && d.loop.w.settlements == [Resolved(txHash)]
    case SubmitFailed(failure) => d.begun && d.loop.w.settlements == [Failed(failure)]
    case BuildFailed(_) => !d.begun
    case LockFailed(_) => d.asksLock && (d.begun ==> d.loop.settled && d.held)
  }

  ghost predicate Ordered(d: Deploy) {
    && Safety.Safe(d.loop)
    && match d.phase
       case Acquiring => !d.begun && !d.held && d.releases == 0
       case Submitting => d.held == d.asksLock && d.releases == 0
       case Releasing(ending) => d.asksLock && d.held && d.releases == 0 && !ending.LockFailed? && Tells(ending, d)
       case Ended(ending) =>
         Tells(ending, d) && if d.asksLock && !ending.LockFailed? then !d.held && d.releases == 1 else d.releases == 0
  }

  lemma LoopKeepsOrdered(d: Deploy, step: Step)
    requires Ordered(d) && Possible(d, Loop(step))
    ensures Ordered(After(d, Loop(step)))
  {
    Safety.StepKeepsSafe(d.loop, step);
    if d.loop.settled {
      Safety.SettledStep(d.loop, step);
    }
  }

  lemma MoveKeepsOrdered(d: Deploy, m: Move)
    requires Ordered(d) && Possible(d, m)
    ensures Ordered(After(d, m))
  {
    if m.Loop? {
      LoopKeepsOrdered(d, m.step);
    }
  }

  lemma {:induction false} PlayKeepsOrdered(d: Deploy, moves: seq<Move>)
    requires Ordered(d) && PossibleRun(d, moves)
    ensures Ordered(Play(d, moves))
    decreases |moves|
  {
    if moves != [] {
      MoveKeepsOrdered(d, moves[0]);
      PlayKeepsOrdered(After(d, moves[0]), moves[1..]);
    }
  }

  // ----- Main results

  /**
   From the moment the submit loop exists until its promise has settled, a deployment that asks for the lock
   holds it; once the lock is given up, the promise has settled.
   */
  lemma LockCoversSubmission(asksLock: bool, moves: seq<Move>)
    requires PossibleRun(Idle(asksLock), moves)
    ensures var d := Play(Idle(asksLock), moves);
      && d.asksLock == asksLock
      && (d.begun && !d.loop.settled ==> d.held == asksLock)
      && (d.begun && asksLock && !d.held ==> d.loop.settled && d.releases == 1)
  {
    PlayKeepsOrdered(Idle(asksLock), moves);
    AsksForever(Idle(asksLock), moves);
  }

  lemma {:induction false} AsksForever(d: Deploy, moves: seq<Move>)
    requires PossibleRun(d, moves) && (d.held ==> d.asksLock)
    ensures Play(d, moves).asksLock == d.asksLock && (Play(d, moves).held ==> d.asksLock)
    decreases |moves|
  {
    if moves != [] {
      AsksForever(After(d, moves[0]), moves[1..]);
    }
  }

  /**
   A deployment ends with what its promise settled with, whether that was success or failure, and by then it has
   released the lock exactly once, unless the lock itself failed.
   */
  lemma EndsReleased(asksLock: bool, moves: seq<Move>)
    requires PossibleRun(Idle(asksLock), moves) && Play(Idle(asksLock), moves).phase.Ended?
    ensures var d := Play(Idle(asksLock), moves);
      var ending := d.phase.ending;
      && (ending.Deployed? ==> d.loop.w.settlements == [Resolved(ending.txHash)])
      && (ending.SubmitFailed? ==> d.loop.w.settlements == [Failed(ending.failure)])
      && (ending.BuildFailed? ==> !d.begun)
      && (ending.LockFailed? ==> asksLock && d.releases == 0)
      && (!ending.LockFailed? ==> !d.held && d.releases == if asksLock then 1 else 0)
      && (d.begun && !d.loop.w.sending ==> !Safety.TxInFlight(d.loop))
  {
    PlayKeepsOrdered(Idle(asksLock), moves);
    AsksForever(Idle(asksLock), moves);
  }

  /**
   The lock does not cover a `signAndSend` that is still running when the timer fires: the deployment ends, the
   lock is free for another process, and the transaction may yet be sent.
   */
  lemma SendMayOutliveLock()
    ensures var moves := [Granted, Begin(None), Loop(TimerFires), Settled, Released];
      && PossibleRun(Idle(true), moves)
      && var d := Play(Idle(true), moves);
         !d.held && d.loop.w.sending && d.phase == Ended(SubmitFailed(SubmitTimeout))
  {
    var moves := [Granted, Begin(None), Loop(TimerFires), Settled, Released];
    var d0 := Idle(true);
    var d2 := After(After(d0, Granted), Begin(None));
    var d3 := After(d2, Loop(TimerFires));
    assert d3.loop.w.settlements == [Failed(SubmitTimeout)];
    var d5 := After(After(d3, Settled), Released);
    TwoMoves(d3, Settled, Released, []);
    TwoMoves(d0, Granted, Begin(None), [Loop(TimerFires), Settled, Released]);
    assert [Settled, Released] + [] == [Settled, Released];
    assert [Loop(TimerFires), Settled, Released][1..] == [Settled, Released];
    assert [Granted, Begin(None)] + [Loop(TimerFires), Settled, Released] == moves;
  }

  /** The run goes on to give up the lock while `signAndSend` is running. */
  ghost predicate SendsUnlocked(d: Deploy, more: seq<Move>) {
    PossibleRun(d, more) && Play(d, more).loop.w.sending && !Play(d, more).held
  }

  /**
   While a deployment that holds the lock waits for its submission, the lock is sure to cover `signAndSend` to its
   end exactly when that end has been reached: as long as it is running, the promise can settle first.
   */
  lemma LockCoversSendIff(moves: seq<Move>)
    requires PossibleRun(Idle(true), moves)
    requires Play(Idle(true), moves).phase.Submitting? && Play(Idle(true), moves).begun
    ensures var d := Play(Idle(true), moves);
            (forall more :: !SendsUnlocked(d, more)) <==> !d.loop.w.sending
  {
    PlayKeepsOrdered(Idle(true), moves);
    AsksForever(Idle(true), moves);
    var d := Play(Idle(true), moves);
    if d.loop.w.sending {
      SendOutlives(d);
    } else {
      forall more ensures !SendsUnlocked(d, more) {
        if PossibleRun(d, more) {
          SendStaysOver(d, more);
        }
      }
    }
  }

  lemma SendOutlives(d: Deploy)
    requires Ordered(d) && d.asksLock && d.phase.Submitting? && d.begun && d.loop.w.sending
    ensures exists more :: SendsUnlocked(d, more)
  {
    if d.loop.settled {
      SettledSendOutlives(d);
    } else {
      var t := After(d, Loop(TimerFires));
      LoopKeepsOrdered(d, TimerFires);
      Safety.DecisionStep(d.loop, TimerFires);
      SettledSendOutlives(t);
      var more := [Settled, Released];
      assert ([Loop(TimerFires)] + more)[1..] == more;
      assert SendsUnlocked(d, [Loop(TimerFires)] + more);
    }
  }

  lemma SettledSendOutlives(d: Deploy)
    requires Ordered(d) && d.asksLock && d.phase.Submitting? && d.begun && d.loop.w.sending && d.loop.settled
    ensures SendsUnlocked(d, [Settled, Released])
  {
    TwoMoves(d, Settled, Released, []);
    assert [Settled, Released] + [] == [Settled, Released];
  }

  /** A `signAndSend` that is over never starts again. */
  lemma SendStepStaysOver(s: State, step: Step)
    requires !s.w.sending && Enabled(s, step)
    ensures !Next(s, step).w.sending
  {
    match step
    case TxStatusEvent(e, callbackError) => EventStaysOver(s, e, callbackError);
    case SetUpDone(i) => SetUpStaysOver(s, i);
    case _ =>
  }

  lemma EventStaysOver(s: State, e: TxEvent, callbackError: Option<string>)
    requires !s.w.sending
    ensures !Next(s, TxStatusEvent(e, callbackError)).w.sending
  {
  }

  lemma SetUpStaysOver(s: State, i: nat)
    requires !s.w.sending && i < |s.w.suspended|
    ensures !Next(s, SetUpDone(i)).w.sending
  {
  }

  lemma MoveStaysOver(d: Deploy, m: Move)
    requires !d.loop.w.sending && Possible(d, m)
    ensures !After(d, m).loop.w.sending
  {
    if m.Loop? {
      SendStepStaysOver(d.loop, m.step);
    }
  }

  lemma {:induction false} SendStaysOver(d: Deploy, moves: seq<Move>)
    requires !d.loop.w.sending && PossibleRun(d, moves)
    ensures !Play(d, moves).loop.w.sending
    decreases |moves|
  {
    if moves != [] {
      MoveStaysOver(d, moves[0]);
      SendStaysOver(After(d, moves[0]), moves[1..]);
    }
  }

  lemma TwoMoves(d: Deploy, a: Move, b: Move, rest: seq<Move>)
    requires Possible(d, a) && Possible(After(d, a), b) && PossibleRun(After(After(d, a), b), rest)
    ensures PossibleRun(d, [a, b] + rest)
    ensures Play(d, [a, b] + rest) == Play(After(After(d, a), b), rest)
  {
    assert ([a, b] + rest)[1..] == [b] + rest;
    assert ([b] + rest)[1..] == rest;
  }

  // ----- The cause of an ending

  /** What must have happened for a deployment to end without its promise's outcome. */
  ghost predicate CausedBy(past: seq<Move>, ending: Ending) {
    match ending
    case LockFailed(error) => Refused(error) in past || ReleaseFails(error) in past
    case BuildFailed(error) => Begin(Some(error)) in past
    case _ => true
  }

  ghost predicate Accounted(d: Deploy, past: seq<Move>) {
    && (d.phase.Releasing? ==> CausedBy(past, d.phase.ending))
    && (d.phase.Ended? ==> CausedBy(past, d.phase.ending))
  }

  lemma {:induction false} PlayKeepsAccounted(d: Deploy, past: seq<Move>, moves: seq<Move>)
    requires PossibleRun(d, moves) && Accounted(d, past)
    ensures Accounted(Play(d, moves), past + moves)
    decreases |moves|
  {
    if moves == [] {
      assert past + moves == past;
    } else {
      var now := past + [moves[0]];
      assert moves[0] in now && forall m | m in past :: m in now;
      PlayKeepsAccounted(After(d, moves[0]), now, moves[1..]);
      assert now + moves[1..] == past + moves;
    }
  }

  /** A failure of the lock or of building the extrinsic is reported with the very error that was met. */
  lemma EndingHasCause(asksLock: bool, moves: seq<Move>)
    requires PossibleRun(Idle(asksLock), moves) && Play(Idle(asksLock), moves).phase.Ended?
    ensures CausedBy(moves, Play(Idle(asksLock), moves).phase.ending)
  {
    PlayKeepsAccounted(Idle(asksLock), [], moves);
    assert [] + moves == moves;
  }
}
