/**
 The environment-variable stage of a deployment: acknowledgements reported by the submit loop and a timer
 compete to start one submission.
 */
module EnvStage {
  import opened Basics
  import opened SubmitLoop
  import Safety = SubmitSafety

  const TWO_MINUTES := 2 * 60 * 1000

  datatype Config = Config(numberOfReplicas: nat, startTime: int)

  /** A submission of the environment variables: for which job, and when it began. */
  datatype Start = Start(jobId: string, at: int)

  /**
   The closure variables of the stage, the armed timers with the instants they are due, the submissions begun
   and the number of attempts that failed for want of a job id.
   */
  datatype Stage = Stage(
    envHasBeenSet: bool, envTimer: Option<nat>, jobId: Option<string>,
    timers: map<nat, int>, nextTimer: nat, starts: seq<Start>, rejected: nat)

  datatype Event = Reported(status: Emission, now: int) | Fired(timer: nat, now: int)

  const IDLE := Stage(false, None, None, map[], 0, [], 0)

  /** A timer that was cleared, or has fired, never fires again. */
  predicate Possible(s: Stage, e: Event) {
    e.Fired? ==> e.timer in s.timers
  }

  function SetEnv(s: Stage, now: int): Stage {
    var t := s.(envHasBeenSet := true, envTimer := None,
                timers := if s.envTimer.Some? then s.timers - {s.envTimer.value} else s.timers);
    match s.jobId
    case Some(id) => t.(starts := s.starts + [Start(id, now)])
    case None => t.(rejected := s.rejected + 1)
  }

  function OnAcknowledged(c: Config, s: Stage, count: nat, now: int): Stage {
    var timeToJobStart := c.startTime - now;
    if count >= c.numberOfReplicas || timeToJobStart <= TWO_MINUTES then SetEnv(s, now)
    else if s.envTimer.Some? then s
    else s.(envTimer := Some(s.nextTimer), nextTimer := s.nextTimer + 1,
            timers := s.timers[s.nextTimer := now + (timeToJobStart - TWO_MINUTES)])
  }

  function Advance(c: Config, s: Stage, e: Event): Stage
    requires Possible(s, e)
  {
    match e
    case Fired(timer, now) => SetEnv(s.(timers := s.timers - {timer}), now)
    case Reported(WaitingForMatch(jobIds), _) =>
      s.(jobId := if jobIds == [] then None else Some(jobIds[0]))
    case Reported(Acknowledged(count), now) => if s.envHasBeenSet then s else OnAcknowledged(c, s, count, now)
    case Reported(Matched(_), _) => s
  }

  predicate PossibleRun(c: Config, s: Stage, events: seq<Event>)
    decreases |events|
  {
    events == [] || (Possible(s, events[0]) && PossibleRun(c, Advance(c, s, events[0]), events[1..]))
  }

  function Play(c: Config, s: Stage, events: seq<Event>): Stage
    requires PossibleRun(c, s, events)
    decreases |events|
  {
    if events == [] then s else Play(c, Advance(c, s, events[0]), events[1..])
  }

  class EnvVarStage {
    const config: Config
    var envHasBeenSet: bool
    var envTimer: Option<nat>
    var jobId: Option<string>
    // The runtime's side: armed timers, and what has been submitted so far.
    var timers: map<nat, int>
    var nextTimer: nat
    var starts: seq<Start>
    var rejected: nat

    function Now(): Stage
      reads this
    {
      Stage(envHasBeenSet, envTimer, jobId, timers, nextTimer, starts, rejected)
    }

    constructor (config: Config)
      ensures this.config == config && Now() == IDLE
    {
      this.config := config;
      envHasBeenSet, envTimer, jobId, timers, nextTimer, starts, rejected := false, None, None, map[], 0, [], 0;
    }

    method BeginSubmission(now: int)
      modifies this
      ensures Now() == SetEnv(old(Now()), now)
    {
      envHasBeenSet := true;
      if envTimer.Some? {
        timers := timers - {envTimer.value};
      }
      envTimer := None;
      if jobId.None? {
        rejected := rejected + 1;
        return;
      }
      starts := starts + [Start(jobId.value, now)];
    }

    method OnStatus(status: Emission, now: int)
      modifies this
      ensures Now() == Advance(config, old(Now()), Reported(status, now))
    {
      if status.WaitingForMatch? {
        jobId := if status.jobIds == [] then None else Some(status.jobIds[0]);
      }
      if status.Acknowledged? && !envHasBeenSet {
        var timeToJobStart := config.startTime - now;
        if status.count >= config.numberOfReplicas {
          BeginSubmission(now);
        } else if timeToJobStart <= TWO_MINUTES {
          BeginSubmission(now);
        } else if envTimer.None? {
          timers := timers[nextTimer := now + (timeToJobStart - TWO_MINUTES)];
          envTimer := Some(nextTimer);
          nextTimer := nextTimer + 1;
        }
      }
    }

    method OnTimer(timer: nat, now: int)
      requires timer in timers
      modifies this
      ensures Now() == Advance(config, old(Now()), Fired(timer, now))
    {
      timers := timers - {timer};
      BeginSubmission(now);
    }
  }

  // ----- Invariant

  /** At most one submission, or one pending timer that is due two minutes before the job starts; never both. */
  ghost predicate Consistent(c: Config, s: Stage) {
    && (s.envHasBeenSet ==> s.timers == map[] && |s.starts| + s.rejected == 1)
    && (!s.envHasBeenSet ==> s.starts == [] && s.rejected == 0)
    && (match s.envTimer
        case Some(t) => s.timers == map[t := c.startTime - TWO_MINUTES]
        case None => s.timers == map[])
  }

  lemma AdvanceKeepsConsistent(c: Config, s: Stage, e: Event)
    requires Consistent(c, s) && Possible(s, e)
    ensures Consistent(c, Advance(c, s, e))
  {
    match e
    case Fired(timer, now) => assert s.timers - {timer} == map[];
    case Reported(Acknowledged(_), _) =>
      assert s.envTimer.Some? ==> s.timers - {s.envTimer.value} == map[];
    case _ =>
  }

  lemma {:induction false} PlayKeepsConsistent(c: Config, s: Stage, events: seq<Event>)
    requires Consistent(c, s) && PossibleRun(c, s, events)
    ensures Consistent(c, Play(c, s, events))
    decreases |events|
  {
    if events != [] {
      AdvanceKeepsConsistent(c, s, events[0]);
      PlayKeepsConsistent(c, Advance(c, s, events[0]), events[1..]);
    }
  }

  // ----- What the submit loop reports

  /** The progress reports among the events, in order. */
  function Reports(events: seq<Event>): seq<Emission> {
    if events == [] then []
    else if events[0].Reported? then [events[0].status] + Reports(events[1..])
    else Reports(events[1..])
  }

  /** As the submit loop reports: one `WaitingForMatch` naming at least one job comes before everything else. */
  ghost predicate Announced(reports: seq<Emission>) {
    reports == [] || (reports[0].WaitingForMatch? && reports[0].jobIds != []
                      && forall i | 1 <= i < |reports| :: !reports[i].WaitingForMatch?)
  }

  /** The first job of the first announcement. */
  function FirstJob(reports: seq<Emission>): Option<string> {
    if reports != [] && reports[0].WaitingForMatch? && reports[0].jobIds != [] then Some(reports[0].jobIds[0]) else None
  }

  lemma {:induction false} CountedOnce(reports: seq<Emission>)
    requires Safety.CountWaiting(reports) == 0
    ensures forall i | 0 <= i < |reports| :: !reports[i].WaitingForMatch?
  {
    if reports != [] {
      CountedOnce(reports[1..]);
      assert reports == [reports[0]] + reports[1..];
    }
  }

  /** Whatever the submit loop has reported in any run is announced in that sense. */
  lemma LoopAnnounces(steps: seq<Step>)
    requires EnabledRun(START, steps)
    ensures Announced(Run(START, steps).w.emitted)
  {
    Safety.RunKeepsSafe(START, steps);
    var reports := Run(START, steps).w.emitted;
    if reports != [] {
      CountedOnce(reports[1..]);
    }
  }

  /** Once the job id is known and no new one is announced, it stays the one every submission uses. */
  ghost predicate Knows(s: Stage, jobId: string) {
    s.jobId == Some(jobId) && s.rejected == 0 && forall x | x in s.starts :: x.jobId == jobId
  }

  lemma AdvanceKnows(c: Config, s: Stage, e: Event, jobId: string)
    requires Possible(s, e) && Knows(s, jobId)
    requires e.Reported? ==> !e.status.WaitingForMatch?
    ensures Knows(Advance(c, s, e), jobId)
  {
    var t := Advance(c, s, e);
    assert t.starts == s.starts || t.starts == s.starts + [Start(jobId, e.now)];
  }

  lemma {:induction false} PlayKnows(c: Config, s: Stage, events: seq<Event>, jobId: string)
    requires PossibleRun(c, s, events) && Knows(s, jobId)
    requires forall i | 0 <= i < |Reports(events)| :: !Reports(events)[i].WaitingForMatch?
    ensures Knows(Play(c, s, events), jobId)
    decreases |events|
  {
    if events != [] {
      if events[0].Reported? {
        assert Reports(events)[0] == events[0].status;
      }
      forall i | 0 <= i < |Reports(events[1..])| ensures !Reports(events[1..])[i].WaitingForMatch? {
        var n := if events[0].Reported? then i + 1 else i;
        assert Reports(events)[n] == Reports(events[1..])[i];
        assert !Reports(events)[n].WaitingForMatch?;
      }
      AdvanceKnows(c, s, events[0], jobId);
      PlayKnows(c, Advance(c, s, events[0]), events[1..], jobId);
    }
  }

  lemma {:induction false} AnnouncedPlay(c: Config, s: Stage, events: seq<Event>)
    requires PossibleRun(c, s, events) && Announced(Reports(events)) && s == IDLE
    ensures var t := Play(c, s, events);
            if events == [] then t == IDLE else Reports(events) != [] && Knows(t, Reports(events)[0].jobIds[0])
  {
    if events != [] {
      assert events[0].Reported?;
      assert Reports(events)[0] == events[0].status;
      assert Reports(events)[1..] == Reports(events[1..]);
      PlayKnows(c, Advance(c, s, events[0]), events[1..], events[0].status.jobIds[0]);
    }
  }

  // ----- Main results

  /**
   For every interleaving of timer firings with what any run of the submit loop reports: the submission begins
   at most once, with the first announced job id and never without one, and no timer outlives its beginning.
   */
  lemma StartsAtMostOnce(c: Config, steps: seq<Step>, events: seq<Event>)
    requires EnabledRun(START, steps) && PossibleRun(c, IDLE, events)
    requires Reports(events) <= Run(START, steps).w.emitted
    ensures var s := Play(c, IDLE, events);
      && |s.starts| <= 1
      && s.rejected == 0
      && (s.starts != [] ==> s.timers == map[] && FirstJob(Run(START, steps).w.emitted) == Some(s.starts[0].jobId))
  {
    LoopAnnounces(steps);
    PlayKeepsConsistent(c, IDLE, events);
    AnnouncedPlay(c, IDLE, events);
  }

  /**
   Never dropped: as soon as an acknowledgement has been reported, the submission has begun or exactly one timer
   is pending, due two minutes before the job starts; and both stay true for as long as events keep coming.
   */
  lemma NeverDropped(c: Config, steps: seq<Step>, events: seq<Event>, k: nat)
    requires EnabledRun(START, steps) && PossibleRun(c, IDLE, events)
    requires Reports(events) <= Run(START, steps).w.emitted
    requires k < |events| && events[k].Reported? && events[k].status.Acknowledged?
    ensures var s := Play(c, IDLE, events);
      && s.rejected == 0
      && if s.starts == [] then |s.timers| == 1 && forall t | t in s.timers :: s.timers[t] == c.startTime - TWO_MINUTES
         else |s.starts| == 1 && s.timers == map[]
  {
    StartsAtMostOnce(c, steps, events);
    PlayKeepsConsistent(c, IDLE, events);
    Underway(c, IDLE, events, k);
  }

  lemma {:induction false} Underway(c: Config, s: Stage, events: seq<Event>, k: nat)
    requires PossibleRun(c, s, events)
    requires s.envHasBeenSet || s.envTimer.Some?
             || (k < |events| && events[k].Reported? && events[k].status.Acknowledged?)
    ensures var t := Play(c, s, events); t.envHasBeenSet || t.envTimer.Some?
    decreases |events|
  {
    if events != [] {
      Underway(c, Advance(c, s, events[0]), events[1..], if k == 0 then 0 else k - 1);
    }
  }

  lemma {:induction false} PlayOneMore(c: Config, s: Stage, events: seq<Event>, e: Event)
    requires PossibleRun(c, s, events) && Possible(Play(c, s, events), e)
    ensures PossibleRun(c, s, events + [e]) && Play(c, s, events + [e]) == Advance(c, Play(c, s, events), e)
    ensures Reports(events + [e]) == Reports(events) + (if e.Reported? then [e.status] else [])
    decreases |events|
  {
    if events == [] {
      assert [] + [e] == [e] && [e][1..] == [];
    } else {
      assert (events + [e])[1..] == events[1..] + [e];
      PlayOneMore(c, Advance(c, s, events[0]), events[1..], e);
    }
  }

  /**
   Nothing is postponed without need: at the first acknowledgement that covers every replica, or comes when no
   more than two minutes are left, the submission begins at that very event unless it has begun before.
   */
  lemma UrgentStartsNow(c: Config, steps: seq<Step>, events: seq<Event>, count: nat, now: int)
    requires EnabledRun(START, steps) && PossibleRun(c, IDLE, events)
    requires Reports(events) + [Acknowledged(count)] <= Run(START, steps).w.emitted
    requires count >= c.numberOfReplicas || c.startTime - now <= TWO_MINUTES
    ensures var s := Play(c, IDLE, events);
            var t := Advance(c, s, Reported(Acknowledged(count), now));
      && FirstJob(Run(START, steps).w.emitted).Some?
      && t.timers == map[]
      && t.starts == if s.starts == [] then [Start(FirstJob(Run(START, steps).w.emitted).value, now)] else s.starts
  {
    var s := Play(c, IDLE, events);
    var e := Reported(Acknowledged(count), now);
    PlayOneMore(c, IDLE, events, e);
    PlayKeepsConsistent(c, IDLE, events);
    PlayKeepsConsistent(c, IDLE, events + [e]);
    StartsAtMostOnce(c, steps, events);
    StartsAtMostOnce(c, steps, events + [e]);
    LoopAnnounces(steps);
  }

  /**
   And nothing is hurried: an acknowledgement that does not cover all replicas, with more than two minutes left,
   begins no submission; it leaves exactly one timer, which fires two minutes before the job starts.
   */
  lemma EarlyAcknowledgementWaits(c: Config, steps: seq<Step>, events: seq<Event>, count: nat, now: int)
    requires EnabledRun(START, steps) && PossibleRun(c, IDLE, events)
    requires Reports(events) <= Run(START, steps).w.emitted
    requires count < c.numberOfReplicas && c.startTime - now > 120000
    ensures var s := Play(c, IDLE, events);
            var t := Advance(c, s, Reported(Acknowledged(count), now));
      && t.starts == s.starts
      && (s.starts == [] ==>
            |t.timers| == 1 && forall timer | timer in t.timers :: t.timers[timer] == c.startTime - 120000)
  {
    StartsAtMostOnce(c, steps, events);
    PlayKeepsConsistent(c, IDLE, events);
  }
}
