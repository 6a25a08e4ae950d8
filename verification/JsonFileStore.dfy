/**
 The file-backed store: every call reloads the snapshot from the file, runs the in-memory call and writes
 the file back.  Calls that do not overlap make it indistinguishable from one in-memory store.
 */
module JsonFileStore {
  import opened Basics
  import opened StableSort
  import opened ReplicatedStore
  import opened StoreConvergence

  /** The file holds a serialised snapshot, or does not exist yet. */
  class SnapshotFile<V> {
    var content: Option<Snapshot<V>>

    constructor ()
      ensures content == None
    {
      content := None;
    }
  }

  function View<V>(content: Option<Snapshot<V>>): Snapshot<V> {
    match content case Some(s) => s case None => Empty()
  }

  /** Which calls write the file back: every writing call that did not throw, except an unsuccessful release. */
  predicate Flushes<V>(reply: Reply<V>) {
    match reply
    case Written(r) => r.Ok?
    case Leased(r) => r.Ok?
    case Released(b) => b
    case _ => false
  }

  // ----- What one store object does

  /** The file, and the snapshot that a store object holds in memory. */
  datatype Opened<V> = Opened(content: Option<Snapshot<V>>, cache: Snapshot<V>)

  function ReloadSpec<V>(f: Opened<V>): Opened<V> {
    f.(cache := View(f.content))
  }

  /** The in-memory call, on whatever the object holds. */
  ghost function CallSpec<V>(hash: Hash<V>, f: Opened<V>, op: Op<V>): (Opened<V>, Reply<V>) {
    var (s, reply) := Step(hash, f.cache, op);
    (f.(cache := s), reply)
  }

  function FlushSpec<V>(f: Opened<V>): Opened<V> {
    f.(content := Some(f.cache))
  }

  ghost function FileStep<V>(hash: Hash<V>, f: Opened<V>, op: Op<V>): (Opened<V>, Reply<V>) {
    var (g, reply) := CallSpec(hash, ReloadSpec(f), op);
    (if Flushes(reply) then FlushSpec(g) else g, reply)
  }

  class JsonFileReplicatedDocumentStore<V(0,!new)> {
    const memory: MemoryReplicatedDocumentStore<V>
    const file: SnapshotFile<V>

    ghost function Now(): Opened<V>
      reads memory, file
    {
      Opened(file.content, memory.snapshot)
    }

    constructor (hash: Hash<V>, file: SnapshotFile<V>)
      ensures this.file == file && fresh(memory) && memory.hash == hash && memory.snapshot == Empty()
    {
      this.file := file;
      memory := new MemoryReplicatedDocumentStore(hash, None);
    }

    method Reload()
      modifies memory`snapshot
      ensures Now() == ReloadSpec(old(Now()))
    {
      match file.content
      case Some(s) => memory.snapshot := s;
      case None => memory.snapshot := Snapshot(0, map[], [], map[]);
    }

    method Flush()
      modifies file
      ensures Now() == FlushSpec(old(Now()))
    {
      file.content := Some(memory.snapshot);
    }

    method Get(id: string, ghost now: int) returns (r: Option<Document<V>>)
      modifies memory`snapshot
      ensures (Now(), Found(r)) == FileStep(memory.hash, old(Now()), Op.Get(id, now))
    {
      Reload();
      r := memory.Get(id);
    }

    /** Any listing of the store in the file; under a total order there is only one, by `ListingIsUnique`. */
    method List(le: (string, string) -> bool) returns (r: seq<Document<V>>)
      requires TotalPreorder(le)
      modifies memory`snapshot
      ensures Now() == ReloadSpec(old(Now()))
      ensures IsListing(le, View(file.content), r)
    {
      Reload();
      r := memory.List(le);
    }

    method Put(id: string, value: V, expected: Option<Revision>, now: int) returns (r: Result<Document<V>, Error>)
      modifies memory`snapshot, file
      ensures (Now(), Written(r)) == FileStep(memory.hash, old(Now()), Op.Put(id, value, expected, now))
    {
      Reload();
      r := memory.Put(id, value, expected, now);
      if r.Ok? {
        Flush();
      }
    }

    method Delete(id: string, expected: Option<Revision>, now: int) returns (r: Result<Document<V>, Error>)
      modifies memory`snapshot, file
      ensures (Now(), Written(r)) == FileStep(memory.hash, old(Now()), Op.Delete(id, expected, now))
    {
      Reload();
      r := memory.Delete(id, expected, now);
      if r.Ok? {
        Flush();
      }
    }

    method ChangesSince(k: int, ghost now: int) returns (r: seq<Change<V>>)
      modifies memory`snapshot
      ensures (Now(), Feed(r)) == FileStep(memory.hash, old(Now()), Op.ChangesSince(k, now))
    {
      Reload();
      r := memory.ChangesSince(k);
    }

    method AcquireLease(name: string, ownerId: string, ttlMs: real, now: int, token: string)
      returns (r: Result<Option<Lease>, Error>)
      modifies memory`snapshot, file
      ensures (Now(), Leased(r)) == FileStep(memory.hash, old(Now()), Op.Acquire(name, ownerId, ttlMs, now, token))
    {
      Reload();
      r := memory.AcquireLease(name, ownerId, ttlMs, now, token);
      if r.Ok? {
        Flush();
      }
    }

    method ReleaseLease(name: string, token: string, ghost now: int) returns (released: bool)
      modifies memory`snapshot, file
      ensures (Now(), Released(released)) == FileStep(memory.hash, old(Now()), Op.Release(name, token, now))
    {
      Reload();
      released := memory.ReleaseLease(name, token);
      if released {
        Flush();
      }
    }
  }

  // ----- Refinement

  /** A file and the snapshots that the store objects opened on it hold. */
  datatype FileWorld<V> = FileWorld(content: Option<Snapshot<V>>, caches: seq<Snapshot<V>>)

  /** A call on store object `n`: it works on its own cache and leaves those of the other objects stale. */
  ghost function CallOn<V>(hash: Hash<V>, w: FileWorld<V>, n: nat, op: Op<V>): (FileWorld<V>, Reply<V>)
    requires n < |w.caches|
  {
    var (f, reply) := FileStep(hash, Opened(w.content, w.caches[n]), op);
    (FileWorld(f.content, w.caches[n := f.cache]), reply)
  }

  /** A sequence of calls, each made on some store object; the calls do not overlap. */
  ghost function FileRun<V>(hash: Hash<V>, w: FileWorld<V>, calls: seq<(nat, Op<V>)>): (FileWorld<V>, seq<Reply<V>>)
    requires forall c | c in calls :: c.0 < |w.caches|
    decreases |calls|
  {
    if calls == [] then (w, [])
    else
      var (w1, reply) := CallOn(hash, w, calls[0].0, calls[0].1);
      var (w', replies) := FileRun(hash, w1, calls[1..]);
      (w', [reply] + replies)
  }

  function Ops<V>(calls: seq<(nat, Op<V>)>): (ops: seq<Op<V>>)
    ensures |ops| == |calls|
  {
    if calls == [] then [] else [calls[0].1] + Ops(calls[1..])
  }

  /** A call that does not write the file back has not changed the snapshot either, so the file stays right. */
  lemma UnflushedIsUnchanged<V>(hash: Hash<V>, s: Snapshot<V>, op: Op<V>)
    ensures !Flushes(Step(hash, s, op).1) ==> Step(hash, s, op).0 == s
  {
  }

  /** One call on an object with any cache does to the file's view what it does to a store in memory. */
  lemma CallRefines<V>(hash: Hash<V>, f: Opened<V>, op: Op<V>)
    ensures var (g, reply) := FileStep(hash, f, op);
            (View(g.content), reply) == Step(hash, View(f.content), op) && g.cache == View(g.content)
  {
    UnflushedIsUnchanged(hash, View(f.content), op);
  }

  /**
   Any number of store objects on one file, whatever each of them holds in memory, answer exactly as one
   in-memory store would, and the file always holds that store's snapshot.
   */
  lemma {:induction false} FileRefinesMemory<V>(hash: Hash<V>, w: FileWorld<V>, calls: seq<(nat, Op<V>)>)
    requires forall c | c in calls :: c.0 < |w.caches|
    ensures var (w', replies) := FileRun(hash, w, calls);
      && View(w'.content) == Run(hash, View(w.content), Ops(calls))
      && |replies| == |calls|
      && forall i | 0 <= i < |calls| :: replies[i] == ReplyAt(hash, View(w.content), Ops(calls), i)
    decreases |calls|
  {
    if calls != [] {
      var (w1, reply) := CallOn(hash, w, calls[0].0, calls[0].1);
      CallRefines(hash, Opened(w.content, w.caches[calls[0].0]), calls[0].1);
      FileRefinesMemory(hash, w1, calls[1..]);
      assert Ops(calls)[1..] == Ops(calls[1..]);
      var replies := FileRun(hash, w, calls).1;
      forall i | 0 <= i < |calls| ensures replies[i] == ReplyAt(hash, View(w.content), Ops(calls), i) {
        if i > 0 {
          assert replies[i] == FileRun(hash, w1, calls[1..]).1[i - 1];
        }
      }
    }
  }

  /** What the objects hold in memory influences neither the replies nor the file. */
  lemma CachesDoNotMatter<V>(hash: Hash<V>, w: FileWorld<V>, v: FileWorld<V>, calls: seq<(nat, Op<V>)>)
    requires |w.caches| == |v.caches| && w.content == v.content
    requires forall c | c in calls :: c.0 < |w.caches|
    ensures FileRun(hash, w, calls).1 == FileRun(hash, v, calls).1
    ensures View(FileRun(hash, w, calls).0.content) == View(FileRun(hash, v, calls).0.content)
  {
    FileRefinesMemory(hash, w, calls);
    FileRefinesMemory(hash, v, calls);
  }

  /** From an absent file on, every listing a store object may answer is the reply of the in-memory store. */
  lemma ListingIsTheReply<V(!new)>(
    hash: Hash<V>, caches: seq<Snapshot<V>>, calls: seq<(nat, Op<V>)>, le: (string, string) -> bool,
    r: seq<Document<V>>)
    requires TotalOrder(le) && forall c | c in calls :: c.0 < |caches|
    ensures var (w, _) := FileRun(hash, FileWorld(None, caches), calls);
            IsListing(le, View(w.content), r) <==> r == ListSpec(Run(hash, Empty(), Ops(calls)), le)
  {
    FileRefinesMemory(hash, FileWorld(None, caches), calls);
    ReachableIsCoherent(hash, Ops(calls));
    ListingIsUnique(le, Run(hash, Empty(), Ops(calls)), r);
  }

  /**
   Exactly when the file is touched: a successful write, a granted or refused lease and a successful release write the
   whole snapshot; reads and failures leave the file as it was, absent or present.
   */
  lemma FileTouchedIff<V>(hash: Hash<V>, f: Opened<V>, op: Op<V>)
    ensures var (g, reply) := FileStep(hash, f, op);
      && (reply.Written? && reply.document.Ok? ==> g.content == Some(g.cache))
      && (reply.Leased? && reply.lease.Ok? ==> g.content == Some(g.cache))
      && (reply == Released(true) ==> g.content == Some(g.cache))
      && (reply.Written? && reply.document.Err? ==> g.content == f.content)
      && (reply.Leased? && reply.lease.Err? ==> g.content == f.content)
      && (reply == Released(false) ==> g.content == f.content)
      && (op.Get? || op.List? || op.ChangesSince? ==> g.content == f.content)
  {
  }
}
