/** Optimistic concurrency: no lost update, no ABA, and nothing happens when a write is refused. */
module StoreRevisions {
  import opened Basics
  import opened ReplicatedStore
  import opened StoreConvergence

  /** The document a write addresses and the revision its author believes current. */
  function Target<V>(op: Op<V>): Option<(string, Option<Revision>)> {
    match op
    case Put(id, _, expected, _) => Some((id, expected))
    case Delete(id, expected, _) => Some((id, expected))
    case _ => None
  }

  predicate WriteSucceeded<V>(reply: Reply<V>) {
    reply.Written? && reply.document.Ok?
  }

  ghost predicate Wins<V>(hash: Hash<V>, s: Snapshot<V>, op: Op<V>) {
    WriteSucceeded(Step(hash, s, op).1)
  }

  /** A refused call leaves the snapshot exactly as it was. */
  lemma RefusalChangesNothing<V>(hash: Hash<V>, s: Snapshot<V>, op: Op<V>)
    ensures match Step(hash, s, op).1
            case Written(r) => r.Err? ==> Step(hash, s, op).0 == s
            case Leased(r) => r.Err? || r.value.None? ==> Step(hash, s, op).0 == s
            case Released(b) => !b ==> Step(hash, s, op).0 == s
            case _ => Step(hash, s, op).0 == s
  {
  }

  /** A call changes a document exactly when it is a successful write to that id, and then it logs one change. */
  lemma StepOnDocument<V>(hash: Hash<V>, s: Snapshot<V>, op: Op<V>, id: string)
    requires Coherent(s)
    ensures var t := Step(hash, s, op).0;
            if Wins(hash, s, op) && Target(op).value.0 == id
            then CountChanges(t.changes, id) == CountChanges(s.changes, id) + 1
            else
              && CountChanges(t.changes, id) == CountChanges(s.changes, id)
              && Lookup(t.documents, id) == Lookup(s.documents, id)
  {
    if Wins(hash, s, op) {
      WinOnDocument(hash, s, op, id);
    }
  }

  /** A winning write records its document: one more change, of its own id. */
  lemma WinRecords<V>(hash: Hash<V>, s: Snapshot<V>, op: Op<V>)
    requires Coherent(s) && Wins(hash, s, op)
    ensures var (t, reply) := Step(hash, s, op);
            var d := reply.document.value;
            Target(op).Some? && d.id == Target(op).value.0 && t == Record(s, d.id, d)
  {
  }

  lemma WinOnDocument<V>(hash: Hash<V>, s: Snapshot<V>, op: Op<V>, id: string)
    requires Coherent(s) && Wins(hash, s, op)
    ensures var t := Step(hash, s, op).0;
      && Target(op).Some?
      && CountChanges(t.changes, id) == CountChanges(s.changes, id) + (if Target(op).value.0 == id then 1 else 0)
      && (Target(op).value.0 != id ==> Lookup(t.documents, id) == Lookup(s.documents, id))
  {
    WinRecords(hash, s, op);
    CountOneMore(s.changes, ChangeFromDocument(Step(hash, s, op).1.document.value), id);
  }

  lemma {:induction false} RunOnDocument<V>(hash: Hash<V>, s: Snapshot<V>, ops: seq<Op<V>>, id: string)
    requires Coherent(s)
    ensures var t := Run(hash, s, ops);
      && CountChanges(t.changes, id) >= CountChanges(s.changes, id)
      && (CountChanges(t.changes, id) == CountChanges(s.changes, id)
          ==> Lookup(t.documents, id) == Lookup(s.documents, id))
    decreases |ops|
  {
    if ops != [] {
      StepOnDocument(hash, s, ops[0], id);
      StepKeepsCoherent(hash, s, ops[0]);
      RunOnDocument(hash, Step(hash, s, ops[0]).0, ops[1..], id);
    }
  }

  /** In a coherent store a revision names one point in a document's history. */
  lemma RevisionIsCurrentIff<V>(hash: Hash<V>, s: Snapshot<V>, ops: seq<Op<V>>, id: string)
    requires Coherent(s)
    ensures var t := Run(hash, s, ops);
            RevOf(Lookup(t.documents, id)) == RevOf(Lookup(s.documents, id))
            <==> CountChanges(t.changes, id) == CountChanges(s.changes, id)
  {
    RunKeepsCoherent(hash, s, ops);
    RunOnDocument(hash, s, ops, id);
    GenerationOf(s, id);
    GenerationOf(Run(hash, s, ops), id);
  }

  /**
   A writer that read document `id` in state `s` and writes after any number of calls succeeds exactly when
   none of those calls changed the document: no update is lost, and a document that was changed back
   (or deleted and re-created) is not mistaken for the one that was read.
   */
  lemma PutWinsIffUnchanged<V>(
    hash: Hash<V>, s: Snapshot<V>, ops: seq<Op<V>>, id: string, value: V, now: int)
    requires Coherent(s)
    ensures var t := Run(hash, s, ops);
            PutSpec(hash, t, id, value, RevOf(Lookup(s.documents, id)), now).1.Ok?
            <==> CountChanges(t.changes, id) == CountChanges(s.changes, id)
  {
    RevisionIsCurrentIff(hash, s, ops, id);
  }

  /** The same for deletions, which in addition need something to delete. */
  lemma DeleteWinsIffUnchanged<V>(hash: Hash<V>, s: Snapshot<V>, ops: seq<Op<V>>, id: string, now: int)
    requires Coherent(s)
    ensures var t := Run(hash, s, ops);
            DeleteSpec(hash, t, id, RevOf(Lookup(s.documents, id)), now).1.Ok?
            <==> CountChanges(t.changes, id) == CountChanges(s.changes, id) > 0
  {
    RevisionIsCurrentIff(hash, s, ops, id);
  }

  /** Without an expected revision a put only creates, and a delete never succeeds: tombstones count as written. */
  lemma BlindWriteOnlyCreates<V>(hash: Hash<V>, s: Snapshot<V>, id: string, value: V, now: int)
    requires Coherent(s)
    ensures PutSpec(hash, s, id, value, None, now).1.Ok? <==> CountChanges(s.changes, id) == 0
    ensures DeleteSpec(hash, s, id, None, now).1.Err?
  {
    GenerationOf(s, id);
  }

  /**
   A winning put shows exactly the new value under its id, a winning delete hides the id, and nothing else changes.
   */
  lemma WinningWriteIsVisible<V>(hash: Hash<V>, s: Snapshot<V>, op: Op<V>)
    requires Coherent(s) && Wins(hash, s, op)
    ensures var (t, reply) := Step(hash, s, op);
            var d := reply.document.value;
      && d.sequence == t.sequence == s.sequence + 1 && d.updatedAt == op.now
      && d.rev == Revision(CountChanges(s.changes, d.id) + 1, hash(d.sequence, d.value))
      && t.leases == s.leases
      && match op
         case Put(id, value, _, _) => d.id == id && d.value == value && !d.deleted && Live(t) == Live(s)[id := d]
         case Delete(id, _, _) =>
           d.id == id && d.deleted && d.value == s.documents[id].value && Live(t) == Live(s) - {id}
         case _ => false
  {
    var d := Step(hash, s, op).1.document.value;
    GenerationOf(s, op.id);
    WinRecords(hash, s, op);
    LiveAfterRecord(s, op.id, d);
  }

  lemma LiveAfterRecord<V>(s: Snapshot<V>, id: string, d: Document<V>)
    ensures Live(Record(s, id, d)) == if d.deleted then Live(s) - {id} else Live(s)[id := d]
  {
  }

  function Generation(r: Option<Revision>): nat {
    match r case Some(v) => v.generation case None => 0
  }

  lemma WinnerMoves<V>(hash: Hash<V>, s: Snapshot<V>, op: Op<V>)
    requires Coherent(s) && Wins(hash, s, op)
    ensures CountChanges(s.changes, Target(op).value.0) == Generation(Target(op).value.1)
    ensures CountChanges(Step(hash, s, op).0.changes, Target(op).value.0) == Generation(Target(op).value.1) + 1
  {
    GenerationOf(s, Target(op).value.0);
    StepOnDocument(hash, s, op, Target(op).value.0);
  }

  lemma StaleWriteLoses<V>(hash: Hash<V>, s: Snapshot<V>, op: Op<V>)
    requires Coherent(s) && Target(op).Some?
    requires CountChanges(s.changes, Target(op).value.0) > Generation(Target(op).value.1)
    ensures !Wins(hash, s, op)
  {
    GenerationOf(s, Target(op).value.0);
  }

  /** After a change past generation `g`, no write that expects generation `g` can win. */
  lemma {:induction false} LateWriterLoses<V>(hash: Hash<V>, s: Snapshot<V>, ops: seq<Op<V>>, j: nat)
    requires Coherent(s) && j < |ops| && Target(ops[j]).Some?
    requires CountChanges(s.changes, Target(ops[j]).value.0) > Generation(Target(ops[j]).value.1)
    ensures !WriteSucceeded(ReplyAt(hash, s, ops, j))
    decreases j
  {
    if j == 0 {
      StaleWriteLoses(hash, s, ops[0]);
    } else {
      var id := Target(ops[j]).value.0;
      StepOnDocument(hash, s, ops[0], id);
      StepKeepsCoherent(hash, s, ops[0]);
      LateWriterLoses(hash, Step(hash, s, ops[0]).0, ops[1..], j - 1);
    }
  }

  /** Of all writers in a run that expect the same revision of the same document, at most one wins. */
  lemma {:induction false} AtMostOneWriterWins<V>(hash: Hash<V>, s: Snapshot<V>, ops: seq<Op<V>>, i: nat, j: nat)
    requires Coherent(s) && i < j < |ops|
    requires Target(ops[i]).Some? && Target(ops[i]) == Target(ops[j])
    ensures !(WriteSucceeded(ReplyAt(hash, s, ops, i)) && WriteSucceeded(ReplyAt(hash, s, ops, j)))
    decreases i
  {
    var t := Step(hash, s, ops[0]).0;
    StepKeepsCoherent(hash, s, ops[0]);
    if i > 0 {
      AtMostOneWriterWins(hash, t, ops[1..], i - 1, j - 1);
    } else if Wins(hash, s, ops[0]) {
      WinnerMoves(hash, s, ops[0]);
      LateWriterLoses(hash, t, ops[1..], j - 1);
    }
  }

  // ----- What is logged, and what a refusal says

  /** A winning write logs one change, which mirrors its document; only a deletion's has no value. */
  lemma ChangeMirrorsDocument<V>(hash: Hash<V>, s: Snapshot<V>, op: Op<V>)
    requires Coherent(s) && Wins(hash, s, op)
    ensures var (t, reply) := Step(hash, s, op);
            var d := reply.document.value;
      && |t.changes| == |s.changes| + 1 && t.changes[..|s.changes|] == s.changes
      && var c := t.changes[|s.changes|];
         && c.id == d.id && c.sequence == d.sequence && c.rev == d.rev && c.updatedAt == d.updatedAt
         && (c.deleted <==> op.Delete?)
         && c.value == if op.Delete? then None else Some(d.value)
  {
    WinningWriteIsVisible(hash, s, op);
    WinRecords(hash, s, op);
  }

  /** A refused write names the document, the revision its author expected and the one it has, if it has any. */
  lemma RefusalSaysWhy<V>(hash: Hash<V>, s: Snapshot<V>, op: Op<V>)
    requires op.Put? || op.Delete?
    ensures var reply := Step(hash, s, op).1;
            var known := op.id in s.documents;
      && reply.Written?
      && (reply.document.Err? ==>
            reply.document.error
            == RevisionConflict(op.id, op.expected, if known then Some(s.documents[op.id].rev) else None))
      && (reply.document.Err? <==>
            if known then op.expected != Some(s.documents[op.id].rev) else op.expected.Some? || op.Delete?)
  {
  }

  /** A lease request fails exactly when its time to live is not a positive integer, and says which it was. */
  lemma LeaseFailsIff<V>(hash: Hash<V>, s: Snapshot<V>, op: Op<V>)
    requires op.Acquire?
    ensures var reply := Step(hash, s, op).1;
      && reply.Leased?
      && (reply.lease.Ok? <==> exists n: nat :: n > 0 && PositiveInteger(op.ttlMs, n))
      && (reply.lease.Err? ==> reply.lease.error == InvalidLeaseTtl(op.ttlMs))
  {
    if ValidTtl(op.ttlMs) {
      assert PositiveInteger(op.ttlMs, op.ttlMs.Floor);
    }
  }

  predicate PositiveInteger(x: real, n: nat) {
    x == n as real
  }
}
