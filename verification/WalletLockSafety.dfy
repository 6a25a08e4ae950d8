/**
 What the wallet lock guarantees over every interleaving.  Exclusion hangs on one thing: whether the removal of a
 stale lock still removes a stale lock by the time it happens.
 */
module WalletLockSafety {
  import opened Basics
  import opened Digits
  import opened WalletLock

  // ----- The exact condition

  ghost predicate LiveOwner(w: World, n: nat) {
    Live(w, n) && Owns(w.agents[n])
  }

  ghost predicate NoOwner(w: World) {
    forall n :: !LiveOwner(w, n)
  }

  ghost predicate AtMostOneOwner(w: World) {
    forall m, n :: LiveOwner(w, m) && LiveOwner(w, n) ==> m == n
  }

  /** The lock that is stolen, if it is anyone's, is that of a dead process. */
  ghost predicate HarmlessSteal(w: World, step: Step) {
    step.Steal? ==> NoOwner(w)
  }

  ghost predicate HarmlessRun(o: Options, w: World, steps: seq<Step>)
    requires EnabledRun(o, w, steps)
    decreases |steps|
  {
    steps == [] || (HarmlessSteal(w, steps[0]) && HarmlessRun(o, Next(o, w, steps[0]), steps[1..]))
  }

  /** The lock file at the path is the one that call `n` created. */
  ghost predicate HasTheFile(w: World, n: nat)
    requires n in w.agents && Owns(w.agents[n])
  {
    w.disk.file.Some? && w.disk.file.value.inode == w.agents[n].phase.inode
  }

  ghost predicate Exclusive(w: World) {
    && (w.disk.file.Some? ==> w.disk.file.value.inode < w.disk.nextInode)
    && (forall n | n in w.agents && Owns(w.agents[n]) :: w.agents[n].phase.inode < w.disk.nextInode)
    && (forall m, n | m in w.agents && n in w.agents && m != n && Owns(w.agents[m]) && Owns(w.agents[n]) ::
          w.agents[m].phase.inode != w.agents[n].phase.inode)
    && (forall n | LiveOwner(w, n) :: HasTheFile(w, n))
  }

  lemma ExclusiveMeansOne(w: World)
    requires Exclusive(w)
    ensures AtMostOneOwner(w)
  {
    forall m, n | LiveOwner(w, m) && LiveOwner(w, n) ensures m == n {
      assert HasTheFile(w, m) && HasTheFile(w, n);
    }
  }

  /** The call takes nothing into its possession. */
  ghost predicate Quiet(a: Agent, b: Agent) {
    b.pid == a.pid && (Owns(b) ==> Owns(a) && b.phase.inode == a.phase.inode && b.phase.since == a.phase.since)
  }

  lemma QuietKeepsExclusive(w: World, n: nat, b: Agent)
    requires Exclusive(w) && n in w.agents && Quiet(w.agents[n], b)
    ensures Exclusive(Put(w, n, (w.disk, b)))
  {
    var v := Put(w, n, (w.disk, b));
    forall m | LiveOwner(v, m) ensures HasTheFile(v, m) {
      assert LiveOwner(w, m) && HasTheFile(w, m);
    }
  }

  lemma CreateKeepsExclusive(o: Options, w: World, n: nat)
    requires Exclusive(w) && Enabled(w, TryCreate(n)) && w.disk.file.None?
    ensures Exclusive(Next(o, w, TryCreate(n)))
  {
    var v := Next(o, w, TryCreate(n));
    assert forall m | LiveOwner(v, m) :: m == n || LiveOwner(w, m);
  }

  lemma WriteKeepsExclusive(o: Options, w: World, n: nat)
    requires Exclusive(w) && Enabled(w, WriteOwner(n))
    ensures Exclusive(Next(o, w, WriteOwner(n)))
  {
    var v := Next(o, w, WriteOwner(n));
    forall m | LiveOwner(v, m) ensures HasTheFile(v, m) {
      assert LiveOwner(w, m) && HasTheFile(w, m);
    }
  }

  /** Removing the file is safe when no live call other than `n` owns it, and `n` owns it no longer. */
  lemma RemovalKeepsExclusive(w: World, n: nat, b: Agent)
    requires Exclusive(w) && n in w.agents && b.pid == w.agents[n].pid && !Owns(b)
    requires forall m | LiveOwner(w, m) :: m == n
    ensures Exclusive(Put(w, n, (w.disk.(file := None), b))) && NoOwner(Put(w, n, (w.disk.(file := None), b)))
  {
    var v := Put(w, n, (w.disk.(file := None), b));
    forall m ensures !LiveOwner(v, m) {
      if LiveOwner(v, m) {
        assert LiveOwner(w, m);
      }
    }
  }

  lemma TimeKeepsExclusive(o: Options, w: World, step: Step)
    requires Exclusive(w) && Enabled(w, step) && (step.Tick? || step.Call? || step.Die?)
    ensures Exclusive(Next(o, w, step))
  {
    var v := Next(o, w, step);
    forall m | LiveOwner(v, m) ensures HasTheFile(v, m) {
      assert LiveOwner(w, m) && HasTheFile(w, m);
    }
  }

  /** What a quiet step makes of its call. */
  function QuietResult(o: Options, w: World, step: Step): Option<(nat, Agent)>
    requires Enabled(w, step)
  {
    match step
    case TryCreate(n) => if w.disk.file.Some? then Some((n, TryCreateSpec(w.disk, w.agents[n], w.now).1)) else None
    case FailToWrite(n) => Some((n, w.agents[n].(phase := WriteFailed)))
    case Stat(n) => Some((n, StatSpec(o, w.disk, w.agents[n], w.now)))
    case ReadOwner(n) => Some((n, ReadSpec(o, w.disk, w.agents[n], w.now)))
    case Probe(n) => Some((n, ProbeSpec(o, w.agents[n], w.now, w.dead)))
    case Wake(n) => Some((n, w.agents[n].(phase := Trying)))
    case CallRelease(n) => Some((n, ReleaseSpec(w.agents[n])))
    case _ => None
  }

  lemma QuietResultIs(o: Options, w: World, step: Step)
    requires Enabled(w, step) && QuietResult(o, w, step).Some?
    ensures var (n, b) := QuietResult(o, w, step).value;
            n in w.agents && Quiet(w.agents[n], b) && Next(o, w, step) == Put(w, n, (w.disk, b))
  {
  }

  lemma StepKeepsExclusive(o: Options, w: World, step: Step)
    requires Exclusive(w) && Enabled(w, step) && HarmlessSteal(w, step)
    ensures Exclusive(Next(o, w, step))
  {
    if QuietResult(o, w, step).Some? {
      var (n, b) := QuietResult(o, w, step).value;
      QuietResultIs(o, w, step);
      QuietKeepsExclusive(w, n, b);
    } else {
      match step
      case TryCreate(n) => CreateKeepsExclusive(o, w, n);
      case WriteOwner(n) => WriteKeepsExclusive(o, w, n);
      case Steal(n) => RemovalKeepsExclusive(w, n, StealSpec(w.disk, w.agents[n]).1);
      case Remove(n) =>
        ExclusiveMeansOne(w);
        assert LiveOwner(w, n);
        RemovalKeepsExclusive(w, n, RemoveSpec(w.disk, w.agents[n]).1);
      case _ => TimeKeepsExclusive(o, w, step);
    }
  }

  lemma {:induction false} RunKeepsExclusive(o: Options, w: World, steps: seq<Step>)
    requires Exclusive(w) && EnabledRun(o, w, steps) && HarmlessRun(o, w, steps)
    ensures Exclusive(Run(o, w, steps))
    decreases |steps|
  {
    if steps != [] {
      StepKeepsExclusive(o, w, steps[0]);
      RunKeepsExclusive(o, Next(o, w, steps[0]), steps[1..]);
    }
  }

  /**
   Mutual exclusion: as long as no steal takes the lock of a live call, at most one live call is ever between
   creating the lock file and removing it, whatever clocks and crashes do.
   */
  lemma HarmlessStealsExclude(o: Options, w: World, steps: seq<Step>)
    requires Initial(w) && EnabledRun(o, w, steps) && HarmlessRun(o, w, steps)
    ensures AtMostOneOwner(Run(o, w, steps))
  {
    RunKeepsExclusive(o, w, steps);
    ExclusiveMeansOne(Run(o, w, steps));
  }

  /**
   And that is exactly what it takes: in every state that such a run reaches, a steal followed by the thief's own
   creation attempt leaves at most one live owner if and only if the steal takes no live call's lock.
   */
  lemma StealExcludesIff(o: Options, w: World, steps: seq<Step>, n: nat)
    requires Initial(w) && EnabledRun(o, w, steps) && HarmlessRun(o, w, steps)
    requires Enabled(Run(o, w, steps), Steal(n))
    ensures var v := Run(o, w, steps);
            var stolen := Next(o, v, Steal(n));
      && Enabled(stolen, TryCreate(n))
      && (AtMostOneOwner(Next(o, stolen, TryCreate(n))) <==> HarmlessSteal(v, Steal(n)))
  {
    RunKeepsExclusive(o, w, steps);
    var v := Run(o, w, steps);
    var stolen := Next(o, v, Steal(n));
    var created := Next(o, stolen, TryCreate(n));
    assert LiveOwner(created, n);
    if HarmlessSteal(v, Steal(n)) {
      StepKeepsExclusive(o, v, Steal(n));
      StepKeepsExclusive(o, stolen, TryCreate(n));
      ExclusiveMeansOne(created);
    } else {
      var m :| LiveOwner(v, m);
      assert LiveOwner(created, m) && m != n;
    }
  }

  // ----- When steals are harmless

  /** No live owner keeps the lock for longer than `staleMs`. */
  predicate Prompt(o: Options, w: World, step: Step) {
    step.Tick? ==>
      forall n | n in w.agents ::
        Live(w, n) && Owns(w.agents[n]) ==> w.now + step.ms - w.agents[n].phase.since <= o.staleMs
  }

  /** The call that a step belongs to. */
  function CallOf(step: Step): Option<nat> {
    match step
    case Tick(_) => None
    case Call(_, _) => None
    case Die(_) => None
    case TryCreate(n) => Some(n)
    case WriteOwner(n) => Some(n)
    case FailToWrite(n) => Some(n)
    case Stat(n) => Some(n)
    case ReadOwner(n) => Some(n)
    case Probe(n) => Some(n)
    case Steal(n) => Some(n)
    case Wake(n) => Some(n)
    case CallRelease(n) => Some(n)
    case Remove(n) => Some(n)
  }

  /** Between `stat` and the removal of a stale lock. */
  ghost predicate Deciding(w: World, n: nat) {
    Live(w, n) && (w.agents[n].phase.Inspecting? || w.agents[n].phase.Suspecting? || w.agents[n].phase.Stealing?)
  }

  /** The staleness check and the removal of a stale lock happen as if they were one step; only crashes come between. */
  ghost predicate Undivided(w: World, step: Step) {
    forall n: nat :: Deciding(w, n) ==> step.Die? || CallOf(step) == Some(n)
  }

  /** A run that meets both assumptions throughout. */
  ghost predicate AssumedRun(o: Options, w: World, steps: seq<Step>)
    requires EnabledRun(o, w, steps)
    decreases |steps|
  {
    steps == []
    || (Prompt(o, w, steps[0]) && Undivided(w, steps[0]) && AssumedRun(o, Next(o, w, steps[0]), steps[1..]))
  }

  /** The owner's file does not look stale to anyone. */
  ghost predicate LooksFresh(o: Options, w: World, n: nat)
    requires LiveOwner(w, n)
  {
    && HasTheFile(w, n)
    && w.agents[n].phase.since <= w.now
    && w.disk.file.value.mtime >= w.agents[n].phase.since
    && (w.disk.file.value.owner.Some? ==> w.disk.file.value.owner.value == w.agents[n].pid)
    && w.now - w.agents[n].phase.since <= o.staleMs
  }

  /** What a deciding call has found out is still so. */
  ghost predicate Informed(w: World, n: nat)
    requires Deciding(w, n)
  {
    && (w.agents[n].phase.Suspecting? ==>
          w.disk.file.Some? && w.disk.file.value.owner == Some(w.agents[n].phase.owner))
    && (w.agents[n].phase.Stealing? ==> NoOwner(w))
  }

  ghost predicate Timely(o: Options, w: World) {
    && Exclusive(w)
    && (forall n | LiveOwner(w, n) :: LooksFresh(o, w, n))
    && (forall n | Deciding(w, n) :: Informed(w, n))
  }

  /** After an undivided step of call `n` nobody else is deciding. */
  lemma OthersDoNotDecide(w: World, step: Step, n: nat, disk: Disk, b: Agent)
    requires Enabled(w, step) && CallOf(step) == Some(n) && n in w.agents && Undivided(w, step)
    ensures forall m | Deciding(Put(w, n, (disk, b)), m) :: m == n
  {
    forall m | Deciding(Put(w, n, (disk, b)), m) ensures m == n {
      if m != n {
        assert Deciding(w, m);
      }
    }
  }

  lemma DeadHasNoOwner(o: Options, w: World, n: nat)
    requires Timely(o, w) && Enabled(w, Probe(n)) && w.agents[n].phase.owner in w.dead
    ensures NoOwner(w)
  {
    assert Deciding(w, n) && Informed(w, n);
  }

  lemma QuietKeepsFresh(o: Options, w: World, n: nat, b: Agent)
    requires Timely(o, w) && n in w.agents && Quiet(w.agents[n], b)
    ensures var v := Put(w, n, (w.disk, b)); forall m | LiveOwner(v, m) :: LiveOwner(w, m) && LooksFresh(o, v, m)
  {
    var v := Put(w, n, (w.disk, b));
    forall m | LiveOwner(v, m) ensures LiveOwner(w, m) && LooksFresh(o, v, m) {
      assert LiveOwner(w, m) && LooksFresh(o, w, m);
    }
  }

  lemma QuietKeepsTimely(o: Options, w: World, step: Step)
    requires Timely(o, w) && Enabled(w, step) && Undivided(w, step) && QuietResult(o, w, step).Some?
    ensures Timely(o, Next(o, w, step))
  {
    var (n, b) := QuietResult(o, w, step).value;
    QuietResultIs(o, w, step);
    QuietKeepsExclusive(w, n, b);
    QuietKeepsFresh(o, w, n, b);
    OthersDoNotDecide(w, step, n, w.disk, b);
    var v := Next(o, w, step);
    if Deciding(v, n) {
      InformedByStep(o, w, step);
      assert NoOwner(w) ==> NoOwner(v);
    }
  }

  /** The step that makes a call decide tells it the truth. */
  lemma InformedByStep(o: Options, w: World, step: Step)
    requires Timely(o, w) && Enabled(w, step) && QuietResult(o, w, step).Some?
    ensures var (_, b) := QuietResult(o, w, step).value;
      && (b.phase.Suspecting? ==> w.disk.file.Some? && w.disk.file.value.owner == Some(b.phase.owner))
      && (b.phase.Stealing? ==> NoOwner(w))
  {
    match step
    case Probe(n) => if w.agents[n].phase.owner in w.dead { DeadHasNoOwner(o, w, n); }
    case _ =>
  }

  lemma CreateKeepsTimely(o: Options, w: World, n: nat)
    requires Timely(o, w) && Enabled(w, TryCreate(n)) && Undivided(w, TryCreate(n)) && w.disk.file.None?
    ensures Timely(o, Next(o, w, TryCreate(n)))
  {
    CreateKeepsExclusive(o, w, n);
    var (disk, b) := TryCreateSpec(w.disk, w.agents[n], w.now);
    OthersDoNotDecide(w, TryCreate(n), n, disk, b);
    var v := Next(o, w, TryCreate(n));
    assert forall m | LiveOwner(v, m) :: m == n || LiveOwner(w, m);
  }

  lemma WriteKeepsTimely(o: Options, w: World, n: nat)
    requires Timely(o, w) && Enabled(w, WriteOwner(n)) && Undivided(w, WriteOwner(n))
    ensures Timely(o, Next(o, w, WriteOwner(n)))
  {
    WriteKeepsExclusive(o, w, n);
    var (disk, b) := WriteOwnerSpec(w.disk, w.agents[n], w.now);
    OthersDoNotDecide(w, WriteOwner(n), n, disk, b);
    ExclusiveMeansOne(w);
    var v := Next(o, w, WriteOwner(n));
    assert LiveOwner(w, n) && LooksFresh(o, w, n);
    forall m | LiveOwner(v, m) ensures LooksFresh(o, v, m) {
      assert LiveOwner(w, m);
    }
  }

  lemma RemovalKeepsTimely(o: Options, w: World, step: Step)
    requires Timely(o, w) && Enabled(w, step) && Undivided(w, step) && (step.Steal? || step.Remove?)
    ensures Timely(o, Next(o, w, step))
  {
    var n := step.n;
    var b := if step.Steal? then StealSpec(w.disk, w.agents[n]).1 else RemoveSpec(w.disk, w.agents[n]).1;
    if step.Steal? {
      assert Deciding(w, n) && Informed(w, n);
    } else {
      ExclusiveMeansOne(w);
      assert LiveOwner(w, n);
    }
    RemovalKeepsExclusive(w, n, b);
    OthersDoNotDecide(w, step, n, w.disk.(file := None), b);
  }

  lemma TimeKeepsTimely(o: Options, w: World, step: Step)
    requires Timely(o, w) && Enabled(w, step) && (step.Tick? || step.Call? || step.Die?)
    requires Prompt(o, w, step) && Undivided(w, step)
    ensures Timely(o, Next(o, w, step))
  {
    TimeKeepsExclusive(o, w, step);
    var v := Next(o, w, step);
    forall m | LiveOwner(v, m) ensures LiveOwner(w, m) && LooksFresh(o, v, m) {
      assert LiveOwner(w, m) && LooksFresh(o, w, m);
    }
    forall m | Deciding(v, m) ensures Informed(v, m) {
      assert Deciding(w, m) && Informed(w, m);
      assert NoOwner(w) ==> NoOwner(v);
    }
  }

  lemma StepKeepsTimely(o: Options, w: World, step: Step)
    requires Timely(o, w) && Enabled(w, step) && Prompt(o, w, step) && Undivided(w, step)
    ensures Timely(o, Next(o, w, step)) && HarmlessSteal(w, step)
  {
    if step.Steal? {
      assert Deciding(w, step.n) && Informed(w, step.n);
    }
    if QuietResult(o, w, step).Some? {
      QuietKeepsTimely(o, w, step);
    } else {
      match step
      case TryCreate(n) => CreateKeepsTimely(o, w, n);
      case WriteOwner(n) => WriteKeepsTimely(o, w, n);
      case Steal(_) => RemovalKeepsTimely(o, w, step);
      case Remove(_) => RemovalKeepsTimely(o, w, step);
      case _ => TimeKeepsTimely(o, w, step);
    }
  }

  /** Where owners are prompt and checks undivided, no steal takes a live call's lock. */
  lemma {:induction false} AssumedIsHarmless(o: Options, w: World, steps: seq<Step>)
    requires Timely(o, w) && EnabledRun(o, w, steps) && AssumedRun(o, w, steps)
    ensures HarmlessRun(o, w, steps) && Timely(o, Run(o, w, steps))
    decreases |steps|
  {
    if steps != [] {
      StepKeepsTimely(o, w, steps[0]);
      AssumedIsHarmless(o, Next(o, w, steps[0]), steps[1..]);
    }
  }

  /** Under the two assumptions, at most one live call is ever between creating the lock file and removing it. */
  lemma MutualExclusion(o: Options, w: World, steps: seq<Step>)
    requires Initial(w) && EnabledRun(o, w, steps) && AssumedRun(o, w, steps)
    ensures AtMostOneOwner(Run(o, w, steps))
  {
    AssumedIsHarmless(o, w, steps);
    HarmlessStealsExclude(o, w, steps);
  }

  /**
   Releasing never deletes a successor's lock: whatever a call does from its first release on, the file it
   removes is the one it created, and every call of the release function after the first removes nothing.
   */
  lemma ReleaseDeletesOnlyOwnLock(o: Options, w: World, steps: seq<Step>, n: nat)
    requires Initial(w) && EnabledRun(o, w, steps) && HarmlessRun(o, w, steps)
    ensures var v := Run(o, w, steps);
      && (Enabled(v, Remove(n)) ==> HasTheFile(v, n) && Next(o, v, Remove(n)).disk.file.None?)
      && (Enabled(v, CallRelease(n)) && !v.agents[n].phase.Holding? ==> Next(o, v, CallRelease(n)) == v)
  {
    RunKeepsExclusive(o, w, steps);
    var v := Run(o, w, steps);
    if Enabled(v, Remove(n)) {
      assert LiveOwner(v, n);
    }
    if Enabled(v, CallRelease(n)) && !v.agents[n].phase.Holding? {
      assert v.agents[n := v.agents[n]] == v.agents;
    }
  }

  // ----- A harmful steal

  /** Two calls of live processes on an abandoned lock that has grown old; `disk` and their phases vary. */
  function Rivals(o: Options, p: Pid, q: Pid, disk: Disk, a: (Phase, nat, nat), b: (Phase, nat, nat)): World {
    var now := o.staleMs + 1;
    World(now, disk, map[0 := Agent(p, now, a.0, a.1, a.2, 0), 1 := Agent(q, now, b.0, b.1, b.2, 0)], {})
  }

  function OldLock(inode: nat, mtime: int): Disk {
    Disk(Some(LockFile(inode, None, mtime)), inode + 1)
  }

  lemma RivalsCall(o: Options, p: Pid, q: Pid)
    ensures var w := World(o.staleMs + 1, OldLock(0, 0), map[], {});
      && Enabled(w, Call(0, p)) && Enabled(Next(o, w, Call(0, p)), Call(1, q))
      && Next(o, Next(o, w, Call(0, p)), Call(1, q)) == Rivals(o, p, q, OldLock(0, 0), (Trying, 0, 0), (Trying, 0, 0))
  {
  }

  lemma RivalsTry(o: Options, p: Pid, q: Pid)
    ensures var w := Rivals(o, p, q, OldLock(0, 0), (Trying, 0, 0), (Trying, 0, 0));
      && Enabled(w, TryCreate(0)) && Enabled(Next(o, w, TryCreate(0)), TryCreate(1))
      && Next(o, Next(o, w, TryCreate(0)), TryCreate(1))
         == Rivals(o, p, q, OldLock(0, 0), (Blocked, 1, 0), (Blocked, 1, 0))
  {
  }

  lemma RivalsStat(o: Options, p: Pid, q: Pid)
    ensures var w := Rivals(o, p, q, OldLock(0, 0), (Blocked, 1, 0), (Blocked, 1, 0));
      && Enabled(w, Stat(0)) && Enabled(Next(o, w, Stat(0)), Stat(1))
      && Next(o, Next(o, w, Stat(0)), Stat(1))
         == Rivals(o, p, q, OldLock(0, 0), (Stealing, 1, 0), (Stealing, 1, 0))
  {
  }

  lemma FirstRivalSteals(o: Options, p: Pid, q: Pid)
    ensures var w := Rivals(o, p, q, OldLock(0, 0), (Stealing, 1, 0), (Stealing, 1, 0));
      && Enabled(w, Steal(0)) && Enabled(Next(o, w, Steal(0)), TryCreate(0))
      && Next(o, Next(o, w, Steal(0)), TryCreate(0))
         == Rivals(o, p, q, OldLock(1, o.staleMs + 1), (Writing(1, o.staleMs + 1), 2, 1), (Stealing, 1, 0))
  {
  }

  lemma SecondRivalSteals(o: Options, p: Pid, q: Pid)
    ensures var w := Rivals(o, p, q, OldLock(1, o.staleMs + 1), (Writing(1, o.staleMs + 1), 2, 1), (Stealing, 1, 0));
      && Enabled(w, Steal(1)) && Enabled(Next(o, w, Steal(1)), TryCreate(1))
      && Next(o, Next(o, w, Steal(1)), TryCreate(1))
         == Rivals(o, p, q, OldLock(2, o.staleMs + 1), (Writing(1, o.staleMs + 1), 2, 1),
             (Writing(2, o.staleMs + 1), 2, 1))
  {
  }

  lemma TwoSteps(o: Options, w: World, a: Step, b: Step, v: World, rest: seq<Step>)
    requires Enabled(w, a) && Enabled(Next(o, w, a), b) && Next(o, Next(o, w, a), b) == v && EnabledRun(o, v, rest)
    ensures EnabledRun(o, w, [a, b] + rest)
    ensures Run(o, w, [a, b] + rest) == Run(o, v, rest)
  {
    assert ([a, b] + rest)[1..] == [b] + rest && ([b] + rest)[1..] == rest;
  }

  lemma RivalsBothSteal(o: Options, p: Pid, q: Pid)
    ensures var w := Rivals(o, p, q, OldLock(0, 0), (Stealing, 1, 0), (Stealing, 1, 0));
            var steps := [Steal(0), TryCreate(0)] + ([Steal(1), TryCreate(1)] + []);
            EnabledRun(o, w, steps) && !AtMostOneOwner(Run(o, w, steps))
  {
    var t := o.staleMs + 1;
    var w := Rivals(o, p, q, OldLock(0, 0), (Stealing, 1, 0), (Stealing, 1, 0));
    var v := Rivals(o, p, q, OldLock(1, t), (Writing(1, t), 2, 1), (Stealing, 1, 0));
    var u := Rivals(o, p, q, OldLock(2, t), (Writing(1, t), 2, 1), (Writing(2, t), 2, 1));
    FirstRivalSteals(o, p, q);
    SecondRivalSteals(o, p, q);
    TwoSteps(o, v, Steal(1), TryCreate(1), u, []);
    TwoSteps(o, w, Steal(0), TryCreate(0), v, [Steal(1), TryCreate(1)] + []);
    assert LiveOwner(u, 0) && LiveOwner(u, 1);
  }

  /**
   A concrete harmful steal: calls 0 and 1 both find an abandoned lock too old, call 0 removes it and creates its
   own, and call 1 then removes that one and creates another.  Both believe that they hold the lock.
   */
  lemma DividedStealBreaksExclusion(o: Options, p: Pid, q: Pid)
    ensures var w := World(o.staleMs + 1, OldLock(0, 0), map[], {});
            var steps := [Call(0, p), Call(1, q)] + ([TryCreate(0), TryCreate(1)] + ([Stat(0), Stat(1)]
                         + ([Steal(0), TryCreate(0)] + ([Steal(1), TryCreate(1)] + []))));
      && Initial(w) && EnabledRun(o, w, steps) && !AtMostOneOwner(Run(o, w, steps))
  {
    var w := World(o.staleMs + 1, OldLock(0, 0), map[], {});
    var w1 := Rivals(o, p, q, OldLock(0, 0), (Trying, 0, 0), (Trying, 0, 0));
    var w2 := Rivals(o, p, q, OldLock(0, 0), (Blocked, 1, 0), (Blocked, 1, 0));
    var w3 := Rivals(o, p, q, OldLock(0, 0), (Stealing, 1, 0), (Stealing, 1, 0));
    RivalsBothSteal(o, p, q);
    var r3 := [Steal(0), TryCreate(0)] + ([Steal(1), TryCreate(1)] + []);
    RivalsStat(o, p, q);
    TwoSteps(o, w2, Stat(0), Stat(1), w3, r3);
    var r2 := [Stat(0), Stat(1)] + r3;
    RivalsTry(o, p, q);
    TwoSteps(o, w1, TryCreate(0), TryCreate(1), w2, r2);
    RivalsCall(o, p, q);
    TwoSteps(o, w, Call(0, p), Call(1, q), w1, [TryCreate(0), TryCreate(1)] + r2);
  }

  // ----- How often a call tries, and for how long

  /** `ceil(a / b)`. */
  function CeilDiv(a: nat, b: nat): nat
    requires b > 0
  {
    (a + b - 1) / b
  }

  /** What the clock says about a call: each sleep took a poll interval and began before the deadline. */
  ghost predicate Paced(o: Options, w: World, a: Agent) {
    && a.attempts == a.sleeps + a.steals + (if a.phase.Trying? || a.phase.Sleeping? then 0 else 1)
    && (a.sleeps > 0 ==> o.pollMs * (a.sleeps - 1) < o.maxWaitMs)
    && (if a.phase.Sleeping? then a.phase.until else w.now) >= a.startedAt + o.pollMs * a.sleeps
    && (a.phase.TimedOut? ==> w.now >= a.startedAt + o.maxWaitMs)
  }

  ghost predicate AllPaced(o: Options, w: World) {
    forall n | n in w.agents :: Paced(o, w, w.agents[n])
  }

  lemma CallStepIsPaced(o: Options, w: World, step: Step, n: nat)
    requires Enabled(w, step) && CallOf(step) == Some(n) && n in w.agents && Paced(o, w, w.agents[n])
    ensures n in Next(o, w, step).agents && Paced(o, w, Next(o, w, step).agents[n])
  {
    if w.agents[n].phase.Blocked? || w.agents[n].phase.Inspecting? || w.agents[n].phase.Suspecting? {
      var a := w.agents[n];
      assert o.pollMs * (a.sleeps + 1) == o.pollMs * a.sleeps + o.pollMs;
    }
  }

  lemma StepKeepsPaced(o: Options, w: World, step: Step)
    requires AllPaced(o, w) && Enabled(w, step)
    ensures AllPaced(o, Next(o, w, step))
  {
    var v := Next(o, w, step);
    if CallOf(step).Some? {
      CallStepIsPaced(o, w, step, CallOf(step).value);
    }
    forall n | n in v.agents ensures Paced(o, v, v.agents[n]) {
      if n in w.agents && v.agents[n] == w.agents[n] {
        assert Paced(o, w, w.agents[n]);
      }
    }
  }

  lemma {:induction false} RunKeepsPaced(o: Options, w: World, steps: seq<Step>)
    requires AllPaced(o, w) && EnabledRun(o, w, steps)
    ensures AllPaced(o, Run(o, w, steps))
    decreases |steps|
  {
    if steps != [] {
      StepKeepsPaced(o, w, steps[0]);
      RunKeepsPaced(o, Next(o, w, steps[0]), steps[1..]);
    }
  }

  lemma SleepsFit(poll: nat, wait: nat, sleeps: nat)
    requires poll > 0 && (sleeps > 0 ==> poll * (sleeps - 1) < wait)
    ensures sleeps <= CeilDiv(wait, poll)
  {
    var c := CeilDiv(wait, poll);
    assert wait + poll - 1 == poll * c + (wait + poll - 1) % poll;
    if sleeps > 0 {
      assert poll * (c - (sleeps - 1)) == poll * c - poll * (sleeps - 1);
      MultipleIsFar(poll, c - (sleeps - 1));
    }
  }

  /**
   A call makes at most one creation attempt per poll interval of its waiting time, one more at the end, and
   one more for each stale lock it steals; and it gives up no sooner than its waiting time is over.
   */
  lemma AttemptsAreBounded(o: Options, w: World, steps: seq<Step>, n: nat)
    requires o.pollMs > 0 && Initial(w) && EnabledRun(o, w, steps)
    requires n in Run(o, w, steps).agents
    ensures var v := Run(o, w, steps);
            var a := v.agents[n];
      && a.attempts <= a.steals + CeilDiv(o.maxWaitMs, o.pollMs) + 1
      && (a.phase.TimedOut? ==> v.now >= a.startedAt + o.maxWaitMs)
  {
    RunKeepsPaced(o, w, steps);
    var a := Run(o, w, steps).agents[n];
    assert Paced(o, Run(o, w, steps), a);
    SleepsFit(o.pollMs, o.maxWaitMs, a.sleeps);
  }

  // ----- A call that is alone gets an abandoned lock

  /** The next step of a call that acquires the lock, if it has one that it can take now. */
  function OwnStep(w: World, n: nat): Option<Step> {
    if !Live(w, n) then None
    else
      match w.agents[n].phase
      case Trying => Some(TryCreate(n))
      case Blocked => Some(Stat(n))
      case Inspecting => Some(ReadOwner(n))
      case Suspecting(_) => Some(Probe(n))
      case Stealing => Some(Steal(n))
      case Sleeping(until) => if w.now >= until then Some(Wake(n)) else None
      case Writing(_, _) => Some(WriteOwner(n))
      case _ => None
  }

  /** The world after at most `k` further steps of call `n`, with nobody else acting. */
  function Alone(o: Options, w: World, n: nat, k: nat): World
    decreases k
  {
    if k == 0 || OwnStep(w, n).None? then w else Alone(o, Next(o, w, OwnStep(w, n).value), n, k - 1)
  }

  /** The lock is free, too old, or was left behind by a dead process. */
  predicate Abandoned(o: Options, w: World) {
    w.disk.file.Some? ==>
      || Aged(o, w.disk.file.value, w.now)
      || (w.disk.file.value.owner.Some? && w.disk.file.value.owner.value in w.dead)
  }

  ghost predicate Obtains(o: Options, w: World, n: nat, k: nat) {
    var v := Alone(o, w, n, k);
    n in v.agents && v.agents[n].phase.Holding? && v.disk.file.Some? && v.disk.file.value.owner == Some(v.agents[n].pid)
  }

  lemma OneMoreStep(o: Options, w: World, n: nat, k: nat)
    requires OwnStep(w, n).Some? && Obtains(o, Next(o, w, OwnStep(w, n).value), n, k)
    ensures Obtains(o, w, n, k + 1)
  {
  }

  lemma FreeLockIsObtained(o: Options, w: World, n: nat)
    requires Live(w, n) && w.agents[n].phase.Trying? && w.disk.file.None?
    ensures Obtains(o, w, n, 2)
  {
    var v := Next(o, w, TryCreate(n));
    var u := Next(o, v, WriteOwner(n));
    assert Alone(o, u, n, 0) == u;
    OneMoreStep(o, v, n, 0);
    OneMoreStep(o, w, n, 1);
  }

  lemma DoomedLockIsObtained(o: Options, w: World, n: nat)
    requires Live(w, n) && w.agents[n].phase.Stealing?
    ensures Obtains(o, w, n, 3)
  {
    FreeLockIsObtained(o, Next(o, w, Steal(n)), n);
    OneMoreStep(o, w, n, 2);
  }

  lemma SuspectLockIsObtained(o: Options, w: World, n: nat)
    requires Live(w, n) && w.agents[n].phase.Inspecting?
    requires w.disk.file.Some? && w.disk.file.value.owner.Some? && w.disk.file.value.owner.value in w.dead
    ensures Obtains(o, w, n, 5)
  {
    var v := Next(o, w, ReadOwner(n));
    DoomedLockIsObtained(o, Next(o, v, Probe(n)), n);
    OneMoreStep(o, v, n, 3);
    OneMoreStep(o, w, n, 4);
  }

  /**
   Progress: a call that finds the lock abandoned and is not disturbed holds it after at most seven steps of its own.
   */
  lemma AbandonedLockIsObtained(o: Options, w: World, n: nat)
    requires Live(w, n) && w.agents[n].phase.Trying? && Abandoned(o, w)
    ensures exists k :: 0 <= k <= 7 && Obtains(o, w, n, k)
  {
    if w.disk.file.None? {
      FreeLockIsObtained(o, w, n);
    } else {
      var blocked := Next(o, w, TryCreate(n));
      var v := Next(o, blocked, Stat(n));
      if Aged(o, w.disk.file.value, w.now) {
        DoomedLockIsObtained(o, v, n);
        OneMoreStep(o, blocked, n, 3);
        OneMoreStep(o, w, n, 4);
      } else {
        SuspectLockIsObtained(o, v, n);
        OneMoreStep(o, blocked, n, 5);
        OneMoreStep(o, w, n, 6);
      }
    }
  }

  // ----- Releasing frees the lock

  /**
   A holder's first release frees the lock: the removal is enabled by the call, it removes the file, and any other
   live call that is about to try then obtains the lock with two steps of its own.
   */
  lemma ReleaseFreesLock(o: Options, w: World, steps: seq<Step>, n: nat, m: nat)
    requires Initial(w) && EnabledRun(o, w, steps) && HarmlessRun(o, w, steps)
    requires Enabled(Run(o, w, steps), CallRelease(n)) && Run(o, w, steps).agents[n].phase.Holding?
    requires m != n && Live(Run(o, w, steps), m) && Run(o, w, steps).agents[m].phase.Trying?
    ensures var released := Next(o, Run(o, w, steps), CallRelease(n));
      && released.disk == Run(o, w, steps).disk
      && Enabled(released, Remove(n))
      && var freed := Next(o, released, Remove(n));
         freed.disk.file.None? && NoOwner(freed) && Obtains(o, freed, m, 2)
  {
    RunKeepsExclusive(o, w, steps);
    var v := Run(o, w, steps);
    var released := Next(o, v, CallRelease(n));
    StepKeepsExclusive(o, v, CallRelease(n));
    ExclusiveMeansOne(released);
    assert LiveOwner(released, n);
    RemovalKeepsExclusive(released, n, RemoveSpec(released.disk, released.agents[n]).1);
    FreeLockIsObtained(o, Next(o, released, Remove(n)), m);
  }

  /**
   The whole decision of a waiting call, by what is on disk and on the clock: it steals a file older than `staleMs` or
   one whose recorded owner has died, and otherwise gives up at its deadline or sleeps exactly one poll interval.
   */
  lemma DecisionTable(o: Options, w: World, step: Step, n: nat)
    requires Enabled(w, step) && (step == Stat(n) || step == ReadOwner(n) || step == Probe(n))
    ensures var a, b := w.agents[n], Next(o, w, step).agents[n];
      var file := w.disk.file;
      var old_ := step.Stat? && file.Some? && w.now - file.value.mtime > o.staleMs;
      var young := step.Stat? && file.Some? && w.now - file.value.mtime <= o.staleMs;
      var owned := step.ReadOwner? && file.Some? && file.value.owner.Some?;
      var orphaned := step.Probe? && a.phase.owner in w.dead;
      && Next(o, w, step).disk == w.disk && Next(o, w, step).now == w.now
      && (old_ || orphaned ==> b.phase == Stealing)
      && (young ==> b.phase == Inspecting)
      && (owned ==> b.phase == Suspecting(file.value.owner.value))
      && (!old_ && !orphaned && !young && !owned ==>
            b.phase == if w.now >= a.startedAt + o.maxWaitMs then TimedOut else Sleeping(w.now + o.pollMs))
  {
  }

  /**
   A call that created the file but fails to write its pid leaves the file behind without an owner, so everyone else
   finds it taken until it is older than `staleMs`.
   */
  lemma FailedWriteBlocks(o: Options, w: World, n: nat, m: nat)
    requires Exclusive(w) && Enabled(w, FailToWrite(n)) && w.disk.file.Some? && w.disk.file.value.owner.None?
    requires m != n && Live(w, m) && w.agents[m].phase.Blocked?
    ensures var v := Next(o, w, FailToWrite(n));
      && v.disk == w.disk && v.agents[n].phase == WriteFailed && NoOwner(v)
      && (Next(o, v, Stat(m)).agents[m].phase == Stealing <==> w.now - w.disk.file.value.mtime > o.staleMs)
  {
    ExclusiveMeansOne(w);
    assert LiveOwner(w, n) && HasTheFile(w, n);
    var v := Next(o, w, FailToWrite(n));
    forall k ensures !LiveOwner(v, k) {
      assert LiveOwner(v, k) ==> LiveOwner(w, k);
    }
  }
}
