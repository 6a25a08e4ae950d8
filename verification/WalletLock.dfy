/**
 The cross-process wallet lock: a file created with the exclusive flag, stolen when stale, removed on release.
 Any number of processes make any number of calls; every file operation, and the check that a process is alive,
 is one step.
 */
module WalletLock {
  import opened Basics

  type Pid = nat

  datatype Options = Options(staleMs: nat, maxWaitMs: nat, pollMs: nat)

  /** `inode` tells two files created one after the other at the same path apart; `owner` is the recorded pid. */
  datatype LockFile = LockFile(inode: nat, owner: Option<Pid>, mtime: int)

  datatype Disk = Disk(file: Option<LockFile>, nextInode: nat)

  /** Where one call of `acquireWalletLock`, and the release function it returned, stand. */
  datatype Phase =
    | Trying
    | Blocked
    | Inspecting
    | Suspecting(owner: Pid)
    | Stealing
    | Sleeping(until: int)
    | TimedOut
    | Writing(inode: nat, since: int)
    | WriteFailed
    | Holding(inode: nat, since: int)
    | Releasing(inode: nat, since: int)
    | Released

  datatype Agent = Agent(pid: Pid, startedAt: int, phase: Phase, attempts: nat, steals: nat, sleeps: nat)

  // ----- Single steps of a call

  function TryCreateSpec(d: Disk, a: Agent, now: int): (Disk, Agent) {
    var b := a.(attempts := a.attempts + 1);
    if d.file.Some? then (d, b.(phase := Blocked))
    else (Disk(Some(LockFile(d.nextInode, None, now)), d.nextInode + 1), b.(phase := Writing(d.nextInode, now)))
  }

  /** Writing goes to the file that was created, even if the path has another file by now. */
  function WriteOwnerSpec(d: Disk, a: Agent, now: int): (Disk, Agent)
    requires a.phase.Writing?
  {
    (if d.file.Some? && d.file.value.inode == a.phase.inode
     then d.(file := Some(LockFile(a.phase.inode, Some(a.pid), now))) else d,
     a.(phase := Holding(a.phase.inode, a.phase.since)))
  }

  /** The lock is not stale: give up at the deadline, otherwise sleep. */
  function WaitSpec(o: Options, a: Agent, now: int): Agent {
    if now >= a.startedAt + o.maxWaitMs then a.(phase := TimedOut)
    else a.(phase := Sleeping(now + o.pollMs), sleeps := a.sleeps + 1)
  }

  predicate Aged(o: Options, file: LockFile, now: int) {
    now - file.mtime > o.staleMs
  }

  /** `stat`: an old file is stale, a missing one is not, and of any other the owner is looked up. */
  function StatSpec(o: Options, d: Disk, a: Agent, now: int): Agent {
    match d.file
    case None => WaitSpec(o, a, now)
    case Some(file) => if Aged(o, file, now) then a.(phase := Stealing) else a.(phase := Inspecting)
  }

  /** `readFile`: without a recorded owner the age alone decides. */
  function ReadSpec(o: Options, d: Disk, a: Agent, now: int): Agent {
    if d.file.Some? && d.file.value.owner.Some? then a.(phase := Suspecting(d.file.value.owner.value))
    else WaitSpec(o, a, now)
  }

  /** `process.kill(pid, 0)`. */
  function ProbeSpec(o: Options, a: Agent, now: int, dead: set<Pid>): Agent
    requires a.phase.Suspecting?
  {
    if a.phase.owner in dead then a.(phase := Stealing) else WaitSpec(o, a, now)
  }

  function StealSpec(d: Disk, a: Agent): (Disk, Agent) {
    (d.(file := None), a.(phase := Trying, steals := a.steals + 1))
  }

  /** Calling the release function: the first call sets the flag, later calls do nothing. */
  function ReleaseSpec(a: Agent): Agent {
    if a.phase.Holding? then a.(phase := Releasing(a.phase.inode, a.phase.since)) else a
  }

  function RemoveSpec(d: Disk, a: Agent): (Disk, Agent) {
    (d.(file := None), a.(phase := Released))
  }

  // ----- The calls as code

  class LockPath {
    var disk: Disk

    constructor ()
      ensures disk == Disk(None, 0)
    {
      disk := Disk(None, 0);
    }
  }

  class LockCall {
    const path: LockPath
    const options: Options
    var agent: Agent

    constructor (path: LockPath, options: Options, pid: Pid, now: int)
      ensures this.path == path && this.options == options && agent == Agent(pid, now, Trying, 0, 0, 0)
    {
      this.path := path;
      this.options := options;
      agent := Agent(pid, now, Trying, 0, 0, 0);
    }

    method TryCreate(now: int)
      modifies this`agent, path
      ensures (path.disk, agent) == TryCreateSpec(old(path.disk), old(agent), now)
    {
      agent := agent.(attempts := agent.attempts + 1);
      if path.disk.file.Some? {
        agent := agent.(phase := Blocked);
        return;
      }
      agent := agent.(phase := Writing(path.disk.nextInode, now));
      path.disk := Disk(Some(LockFile(path.disk.nextInode, None, now)), path.disk.nextInode + 1);
    }

    method WriteOwner(now: int)
      requires agent.phase.Writing?
      modifies this`agent, path
      ensures (path.disk, agent) == WriteOwnerSpec(old(path.disk), old(agent), now)
    {
      if path.disk.file.Some? && path.disk.file.value.inode == agent.phase.inode {
        path.disk := path.disk.(file := Some(LockFile(agent.phase.inode, Some(agent.pid), now)));
      }
      agent := agent.(phase := Holding(agent.phase.inode, agent.phase.since));
    }

    method Wait(now: int)
      modifies this`agent
      ensures agent == WaitSpec(options, old(agent), now)
    {
      if now >= agent.startedAt + options.maxWaitMs {
        agent := agent.(phase := TimedOut);
        return;
      }
      agent := agent.(phase := Sleeping(now + options.pollMs), sleeps := agent.sleeps + 1);
    }

    method Stat(now: int)
      modifies this`agent
      ensures agent == StatSpec(options, path.disk, old(agent), now)
    {
      if path.disk.file.None? {
        Wait(now);
      } else if now - path.disk.file.value.mtime > options.staleMs {
        agent := agent.(phase := Stealing);
      } else {
        agent := agent.(phase := Inspecting);
      }
    }

    method ReadOwner(now: int)
      modifies this`agent
      ensures agent == ReadSpec(options, path.disk, old(agent), now)
    {
      if path.disk.file.Some? && path.disk.file.value.owner.Some? {
        agent := agent.(phase := Suspecting(path.disk.file.value.owner.value));
      } else {
        Wait(now);
      }
    }

    method Probe(now: int, dead: set<Pid>)
      requires agent.phase.Suspecting?
      modifies this`agent
      ensures agent == ProbeSpec(options, old(agent), now, dead)
    {
      if agent.phase.owner in dead {
        agent := agent.(phase := Stealing);
      } else {
        Wait(now);
      }
    }

    method Steal()
      modifies this`agent, path
      ensures (path.disk, agent) == StealSpec(old(path.disk), old(agent))
    {
      path.disk := path.disk.(file := None);
      agent := agent.(phase := Trying, steals := agent.steals + 1);
    }

    method Release()
      modifies this`agent
      ensures agent == ReleaseSpec(old(agent))
    {
      if !agent.phase.Holding? {
        return;
      }
      agent := agent.(phase := Releasing(agent.phase.inode, agent.phase.since));
    }

    method Remove()
      modifies this`agent, path
      ensures (path.disk, agent) == RemoveSpec(old(path.disk), old(agent))
    {
      path.disk := path.disk.(file := None);
      agent := agent.(phase := Released);
    }
  }

  // ----- Many processes

  /** Calls are numbered; several of them may belong to one process. */
  datatype World = World(now: int, disk: Disk, agents: map<nat, Agent>, dead: set<Pid>)

  datatype Step =
    | Tick(ms: nat)
    | Call(n: nat, pid: Pid)
    | TryCreate(n: nat)
    | WriteOwner(n: nat)
    | FailToWrite(n: nat)
    | Stat(n: nat)
    | ReadOwner(n: nat)
    | Probe(n: nat)
    | Steal(n: nat)
    | Wake(n: nat)
    | CallRelease(n: nat)
    | Remove(n: nat)
    | Die(pid: Pid)

  predicate Live(w: World, n: nat) {
    n in w.agents && w.agents[n].pid !in w.dead
  }

  /** Between the exclusive creation of the lock file and its removal. */
  predicate Owns(a: Agent) {
    a.phase.Writing? || a.phase.Holding? || a.phase.Releasing?
  }

  predicate Enabled(w: World, step: Step) {
    match step
    case Tick(_) => true
    case Call(n, pid) => n !in w.agents && pid !in w.dead
    case TryCreate(n) => Live(w, n) && w.agents[n].phase.Trying?
    case WriteOwner(n) => Live(w, n) && w.agents[n].phase.Writing?
    case FailToWrite(n) => Live(w, n) && w.agents[n].phase.Writing?
    case Stat(n) => Live(w, n) && w.agents[n].phase.Blocked?
    case ReadOwner(n) => Live(w, n) && w.agents[n].phase.Inspecting?
    case Probe(n) => Live(w, n) && w.agents[n].phase.Suspecting?
    case Steal(n) => Live(w, n) && w.agents[n].phase.Stealing?
    case Wake(n) => Live(w, n) && w.agents[n].phase.Sleeping? && w.now >= w.agents[n].phase.until
    case CallRelease(n) => Live(w, n)
        && (w.agents[n].phase.Holding? || w.agents[n].phase.Releasing? || w.agents[n].phase.Released?)
    case Remove(n) => Live(w, n) && w.agents[n].phase.Releasing?
    case Die(_) => true
  }

  function Put(w: World, n: nat, r: (Disk, Agent)): World {
    w.(disk := r.0, agents := w.agents[n := r.1])
  }

  function Next(o: Options, w: World, step: Step): World
    requires Enabled(w, step)
  {
    match step
    case Tick(ms) => w.(now := w.now + ms)
    case Call(n, pid) => w.(agents := w.agents[n := Agent(pid, w.now, Trying, 0, 0, 0)])
    case TryCreate(n) => Put(w, n, TryCreateSpec(w.disk, w.agents[n], w.now))
    case WriteOwner(n) => Put(w, n, WriteOwnerSpec(w.disk, w.agents[n], w.now))
    case FailToWrite(n) => Put(w, n, (w.disk, w.agents[n].(phase := WriteFailed)))
    case Stat(n) => Put(w, n, (w.disk, StatSpec(o, w.disk, w.agents[n], w.now)))
    case ReadOwner(n) => Put(w, n, (w.disk, ReadSpec(o, w.disk, w.agents[n], w.now)))
    case Probe(n) => Put(w, n, (w.disk, ProbeSpec(o, w.agents[n], w.now, w.dead)))
    case Steal(n) => Put(w, n, StealSpec(w.disk, w.agents[n]))
    case Wake(n) => Put(w, n, (w.disk, w.agents[n].(phase := Trying)))
    case CallRelease(n) => Put(w, n, (w.disk, ReleaseSpec(w.agents[n])))
    case Remove(n) => Put(w, n, RemoveSpec(w.disk, w.agents[n]))
    case Die(pid) => w.(dead := w.dead + {pid})
  }

  predicate EnabledRun(o: Options, w: World, steps: seq<Step>)
    decreases |steps|
  {
    steps == [] || (Enabled(w, steps[0]) && EnabledRun(o, Next(o, w, steps[0]), steps[1..]))
  }

  function Run(o: Options, w: World, steps: seq<Step>): World
    requires EnabledRun(o, w, steps)
    decreases |steps|
  {
    if steps == [] then w else Run(o, Next(o, w, steps[0]), steps[1..])
  }

  /** Nobody has called yet; a lock file of some long-gone process may already be there. */
  ghost predicate Initial(w: World) {
    w.agents == map[] && (w.disk.file.Some? ==> w.disk.file.value.inode < w.disk.nextInode)
  }
}
