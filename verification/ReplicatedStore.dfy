/**
 The replicated document store: optimistic revisions, tombstones, a change log and named leases.
 The functions say what one call does to a snapshot; the class performs the calls by updating its
 snapshot in place.  A revision is the pair that the text `generation-hash` spells.
 */
module ReplicatedStore {
  import opened Basics
  import opened StableSort

  datatype Revision = Revision(generation: nat, hash: string)

  datatype Document<V> = Document(
    id: string, rev: Revision, sequence: nat, updatedAt: int, value: V, deleted: bool)

  datatype Change<V> = Change(
    sequence: nat, id: string, rev: Revision, updatedAt: int, deleted: bool, value: Option<V>)

  datatype Lease = Lease(name: string, ownerId: string, token: string, acquiredAt: int, expiresAt: int)

  datatype Snapshot<V> = Snapshot(
    sequence: nat,
    documents: map<string, Document<V>>,
    changes: seq<Change<V>>,
    leases: map<string, Lease>)

  datatype Error =
    | RevisionConflict(id: string, expected: Option<Revision>, actual: Option<Revision>)
    | InvalidLeaseTtl(ttlMs: real)

  /** The hexadecimal prefix of SHA-256 over sequence number and value. */
  type Hash<!V> = (nat, V) -> string

  function Empty<V>(): Snapshot<V> {
    Snapshot(0, map[], [], map[])
  }

  /** What a store may be constructed from: any part of a snapshot may be missing. */
  datatype PartialSnapshot<V> = PartialSnapshot(
    sequence: Option<nat>,
    documents: Option<map<string, Document<V>>>,
    changes: Option<seq<Change<V>>>,
    leases: Option<map<string, Lease>>)

  function Lookup<T>(m: map<string, T>, key: string): Option<T> {
    if key in m then Some(m[key]) else None
  }

  function GetOr<T>(x: Option<T>, otherwise: T): T {
    match x
    case Some(v) => v
    case None => otherwise
  }

  function RevOf<V>(existing: Option<Document<V>>): Option<Revision> {
    match existing
    case Some(d) => Some(d.rev)
    case None => None
  }

  // ----- Stateless helpers

  function AssertExpectedRevision<V>(id: string, existing: Option<Document<V>>, expected: Option<Revision>)
    : Option<Error>
  {
    if expected == RevOf(existing) then None
    else Some(RevisionConflict(id, expected, RevOf(existing)))
  }

  function NextRevision<V>(hash: Hash<V>, previous: Option<Revision>, sequence: nat, value: V): Revision {
    Revision((match previous case Some(r) => r.generation case None => 0) + 1, hash(sequence, value))
  }

  function ChangeFromDocument<V>(d: Document<V>): Change<V> {
    Change(d.sequence, d.id, d.rev, d.updatedAt, d.deleted, if d.deleted then None else Some(d.value))
  }

  // ----- What each call does to a snapshot

  function Record<V>(s: Snapshot<V>, id: string, d: Document<V>): Snapshot<V> {
    s.(sequence := d.sequence, documents := s.documents[id := d], changes := s.changes + [ChangeFromDocument(d)])
  }

  function PutSpec<V>(hash: Hash<V>, s: Snapshot<V>, id: string, value: V, expected: Option<Revision>, now: int)
    : (Snapshot<V>, Result<Document<V>, Error>)
  {
    var existing := Lookup(s.documents, id);
    match AssertExpectedRevision(id, existing, expected)
    case Some(e) => (s, Err(e))
    case None =>
      var sequence := s.sequence + 1;
      var d := Document(id, NextRevision(hash, RevOf(existing), sequence, value), sequence, now, value, false);
      (Record(s, id, d), Ok(d))
  }

  function DeleteSpec<V>(hash: Hash<V>, s: Snapshot<V>, id: string, expected: Option<Revision>, now: int)
    : (Snapshot<V>, Result<Document<V>, Error>)
  {
    var existing := Lookup(s.documents, id);
    match AssertExpectedRevision(id, existing, expected)
    case Some(e) => (s, Err(e))
    case None =>
      match existing
      case None => (s, Err(RevisionConflict(id, expected, None)))
      case Some(old_) =>
        var sequence := s.sequence + 1;
        var d := old_.(rev := NextRevision(hash, Some(old_.rev), sequence, old_.value),
                       sequence := sequence, updatedAt := now, deleted := true);
        (Record(s, id, d), Ok(d))
  }

  function BySequence<V>(): (Change<V>, Change<V>) -> bool {
    (a: Change<V>, b: Change<V>) => a.sequence <= b.sequence
  }

  function After<V>(k: int): Change<V> -> bool {
    (c: Change<V>) => c.sequence > k
  }

  function ChangesSinceSpec<V>(s: Snapshot<V>, k: int): seq<Change<V>> {
    Sort(BySequence(), Filter(After(k), s.changes))
  }

  lemma FeedIsAllAndOnly<V(!new)>(s: Snapshot<V>, k: int)
    ensures var r := ChangesSinceSpec(s, k);
      && (forall c | c in r :: c in s.changes && c.sequence > k)
      && (forall c | c in s.changes && c.sequence > k :: c in r)
      && (forall i, j :: 0 <= i < j < |r| ==> r[i].sequence <= r[j].sequence)
  {
    var kept := Filter(After(k), s.changes);
    SortPermutes(BySequence(), kept);
    SortSorts(BySequence(), kept);
    var r := ChangesSinceSpec(s, k);
    forall i | 0 <= i < |r| ensures r[i] in s.changes && r[i].sequence > k {
      var c := r[i];
      assert c in r;
      assert c in kept by { assert multiset(r) == multiset(kept); assert c in multiset(r); }
      FilterMember(After(k), s.changes, c);
    }
    forall c | c in s.changes && c.sequence > k ensures c in r {
      FilterMember(After(k), s.changes, c);
    }
    forall i, j | 0 <= i < j < |r| ensures r[i].sequence <= r[j].sequence {
      assert BySequence()(r[i], r[j]);
    }
  }

  /** `Number.isInteger(ttlMs) && ttlMs > 0`. */
  predicate ValidTtl(ttlMs: real) {
    ttlMs.Floor as real == ttlMs && ttlMs > 0.0
  }

  function AcquireSpec<V>(s: Snapshot<V>, name: string, ownerId: string, ttlMs: real, now: int, token: string)
    : (Snapshot<V>, Result<Option<Lease>, Error>)
  {
    if !ValidTtl(ttlMs) then (s, Err(InvalidLeaseTtl(ttlMs)))
    else if name in s.leases && s.leases[name].expiresAt > now && s.leases[name].ownerId != ownerId then (s, Ok(None))
    else
      var lease := Lease(name, ownerId, token, now, now + ttlMs.Floor);
      (s.(leases := s.leases[name := lease]), Ok(Some(lease)))
  }

  function ReleaseSpec<V>(s: Snapshot<V>, name: string, token: string): (Snapshot<V>, bool) {
    if name !in s.leases || s.leases[name].token != token then (s, false)
    else (s.(leases := s.leases - {name}), true)
  }

  // ----- Listing

  ghost function LiveIds<V>(s: Snapshot<V>): set<string> {
    set id | id in s.documents && !s.documents[id].deleted
  }

  /** The live ids in the order in which the documents object happens to list its entries. */
  ghost predicate Enumerates<V>(ids: seq<string>, s: Snapshot<V>) {
    Distinct(ids) && forall id :: id in ids <==> id in LiveIds(s)
  }

  function DocumentsAt<V>(s: Snapshot<V>, ids: seq<string>): (ds: seq<Document<V>>)
    requires forall id | id in ids :: id in s.documents
    ensures |ds| == |ids| && forall i | 0 <= i < |ds| :: ds[i] == s.documents[ids[i]]
  {
    if ids == [] then [] else [s.documents[ids[0]]] + DocumentsAt(s, ids[1..])
  }

  /** `left.id.localeCompare(right.id)`. */
  function ById<V>(le: (string, string) -> bool): (Document<V>, Document<V>) -> bool {
    (a: Document<V>, b: Document<V>) => le(a.id, b.id)
  }

  lemma ByIdIsPreorder<V(!new)>(le: (string, string) -> bool)
    requires TotalPreorder(le)
    ensures TotalPreorder(ById<V>(le))
  {
    forall a: Document<V>, b: Document<V>, c: Document<V> | ById(le)(a, b) && ById(le)(b, c) ensures ById(le)(a, c) {
      assert le(a.id, b.id) && le(b.id, c.id);
    }
    forall a: Document<V>, b: Document<V> ensures ById(le)(a, b) || ById(le)(b, a) {
      assert le(a.id, b.id) || le(b.id, a.id);
    }
  }

  /** All live documents, each once, sorted by id. */
  ghost predicate IsListing<V>(le: (string, string) -> bool, s: Snapshot<V>, r: seq<Document<V>>) {
    && Sorted(ById(le), r)
    && exists ids :: Enumerates(ids, s) && multiset(r) == multiset(DocumentsAt(s, ids))
  }

  ghost function SomeOrder(ids: set<string>): (r: seq<string>)
    ensures Distinct(r) && forall id :: id in r <==> id in ids
  {
    if ids == {} then []
    else
      var id :| id in ids;
      [id] + SomeOrder(ids - {id})
  }

  ghost function ListSpec<V>(s: Snapshot<V>, le: (string, string) -> bool): seq<Document<V>> {
    Sort(ById(le), DocumentsAt(s, SomeOrder(LiveIds(s))))
  }

  lemma ListSpecIsListing<V(!new)>(s: Snapshot<V>, le: (string, string) -> bool)
    requires TotalPreorder(le)
    ensures IsListing(le, s, ListSpec(s, le))
  {
    var ids := SomeOrder(LiveIds(s));
    ListIsListing(le, s, ids, ListSpec(s, le));
  }

  lemma ListIsListing<V(!new)>(le: (string, string) -> bool, s: Snapshot<V>, ids: seq<string>, r: seq<Document<V>>)
    requires TotalPreorder(le) && Enumerates(ids, s) && r == Sort(ById(le), DocumentsAt(s, ids))
    ensures IsListing(le, s, r)
  {
    SortPermutes(ById(le), DocumentsAt(s, ids));
    ByIdIsPreorder<V>(le);
    SortSorts(ById(le), DocumentsAt(s, ids));
  }

  // ----- The in-memory store

  class MemoryReplicatedDocumentStore<V(0,!new)> {
    const hash: Hash<V>
    var snapshot: Snapshot<V>

    /** Parts that the given snapshot does not have start empty. */
    constructor (hash: Hash<V>, initial: Option<PartialSnapshot<V>>)
      ensures this.hash == hash
      ensures initial.None? ==> snapshot == Empty()
      ensures initial.Some? ==>
        && (match initial.value.sequence case Some(n) => snapshot.sequence == n case None => snapshot.sequence == 0)
        && (match initial.value.documents
            case Some(m) => snapshot.documents == m
            case None => snapshot.documents == map[])
        && (match initial.value.changes case Some(c) => snapshot.changes == c case None => snapshot.changes == [])
        && (match initial.value.leases case Some(m) => snapshot.leases == m case None => snapshot.leases == map[])
    {
      var given := if initial.Some? then initial.value else PartialSnapshot(None, None, None, None);
      this.hash := hash;
      this.snapshot := Snapshot(
        GetOr(given.sequence, 0), GetOr(given.documents, map[]), GetOr(given.changes, []), GetOr(given.leases, map[]));
    }

    method Get(id: string) returns (r: Option<Document<V>>)
      ensures r.Some? <==> id in snapshot.documents && !snapshot.documents[id].deleted
      ensures r.Some? ==> r.value == snapshot.documents[id]
    {
      var document := Lookup(snapshot.documents, id);
      if document.Some? && !document.value.deleted {
        r := document;
      } else {
        r := None;
      }
    }

    /** The entries of the documents object, in whatever order it lists them, filtered and sorted. */
    method List(le: (string, string) -> bool) returns (r: seq<Document<V>>)
      requires TotalPreorder(le)
      ensures IsListing(le, snapshot, r)
    {
      var ids: seq<string> := [];
      var rest := snapshot.documents.Keys;
      while rest != {}
        invariant rest <= snapshot.documents.Keys
        invariant Distinct(ids)
        invariant forall id :: id in ids <==> id in LiveIds(snapshot) && id !in rest
        decreases rest
      {
        var id :| id in rest;
        rest := rest - {id};
        if !snapshot.documents[id].deleted {
          ids := ids + [id];
        }
      }
      assert Enumerates(ids, snapshot);
      r := Sort(ById(le), DocumentsAt(snapshot, ids));
      ListIsListing(le, snapshot, ids, r);
    }

    method NextSequence() returns (sequence: nat)
      modifies this`snapshot
      ensures snapshot == old(snapshot).(sequence := old(snapshot).sequence + 1)
      ensures sequence == snapshot.sequence
    {
      snapshot := snapshot.(sequence := snapshot.sequence + 1);
      sequence := snapshot.sequence;
    }

    method Store(id: string, document: Document<V>)
      modifies this`snapshot
      ensures snapshot == old(snapshot).(
                documents := old(snapshot).documents[id := document],
                changes := old(snapshot).changes + [ChangeFromDocument(document)])
    {
      snapshot := snapshot.(documents := snapshot.documents[id := document]);
      snapshot := snapshot.(changes := snapshot.changes + [ChangeFromDocument(document)]);
    }

    method Put(id: string, value: V, expected: Option<Revision>, now: int) returns (r: Result<Document<V>, Error>)
      modifies this`snapshot
      ensures (snapshot, r) == PutSpec(hash, old(snapshot), id, value, expected, now)
    {
      var existing := Lookup(snapshot.documents, id);
      var conflict := AssertExpectedRevision(id, existing, expected);
      if conflict.Some? {
        return Err(conflict.value);
      }
      var sequence := NextSequence();
      var document := Document(id, NextRevision(hash, RevOf(existing), sequence, value), sequence, now, value, false);
      Store(id, document);
      r := Ok(document);
    }

    method Delete(id: string, expected: Option<Revision>, now: int) returns (r: Result<Document<V>, Error>)
      modifies this`snapshot
      ensures (snapshot, r) == DeleteSpec(hash, old(snapshot), id, expected, now)
    {
      var existing := Lookup(snapshot.documents, id);
      var conflict := AssertExpectedRevision(id, existing, expected);
      if conflict.Some? {
        return Err(conflict.value);
      }
      if existing.None? {
        return Err(RevisionConflict(id, expected, None));
      }
      var sequence := NextSequence();
      var document := existing.value.(
        rev := NextRevision(hash, Some(existing.value.rev), sequence, existing.value.value),
        sequence := sequence, updatedAt := now, deleted := true);
      Store(id, document);
      r := Ok(document);
    }

    method ChangesSince(k: int) returns (r: seq<Change<V>>)
      ensures r == ChangesSinceSpec(snapshot, k)
      ensures forall c | c in r :: c in snapshot.changes && c.sequence > k
      ensures forall c | c in snapshot.changes && c.sequence > k :: c in r
      ensures forall i, j :: 0 <= i < j < |r| ==> r[i].sequence <= r[j].sequence
    {
      r := Filter(After(k), snapshot.changes);
      r := Sort(BySequence(), r);
      FeedIsAllAndOnly(snapshot, k);
    }

    method AcquireLease(name: string, ownerId: string, ttlMs: real, now: int, token: string)
      returns (r: Result<Option<Lease>, Error>)
      modifies this`snapshot
      ensures (snapshot, r) == AcquireSpec(old(snapshot), name, ownerId, ttlMs, now, token)
    {
      if !ValidTtl(ttlMs) {
        return Err(InvalidLeaseTtl(ttlMs));
      }
      var existing := Lookup(snapshot.leases, name);
      if existing.Some? && existing.value.expiresAt > now && existing.value.ownerId != ownerId {
        return Ok(None);
      }
      var lease := Lease(name, ownerId, token, now, now + ttlMs.Floor);
      snapshot := snapshot.(leases := snapshot.leases[name := lease]);
      r := Ok(Some(lease));
    }

    method ReleaseLease(name: string, token: string) returns (released: bool)
      modifies this`snapshot
      ensures (snapshot, released) == ReleaseSpec(old(snapshot), name, token)
    {
      var existing := Lookup(snapshot.leases, name);
      if existing.None? || existing.value.token != token {
        return false;
      }
      snapshot := snapshot.(leases := snapshot.leases - {name});
      released := true;
    }
  }

  // ----- Calls and runs

  /** One call, with the clock reading, the random token and the string order it uses. */
  datatype Op<V> =
    | Put(id: string, value: V, expected: Option<Revision>, now: int)
    | Delete(id: string, expected: Option<Revision>, now: int)
    | Acquire(name: string, ownerId: string, ttlMs: real, now: int, token: string)
    | Release(name: string, token: string, now: int)
    | Get(id: string, now: int)
    | List(le: (string, string) -> bool, now: int)
    | ChangesSince(k: int, now: int)

  datatype Reply<V> =
    | Written(document: Result<Document<V>, Error>)
    | Leased(lease: Result<Option<Lease>, Error>)
    | Released(released: bool)
    | Found(found: Option<Document<V>>)
    | Listed(documents: seq<Document<V>>)
    | Feed(feed: seq<Change<V>>)

  function GetSpec<V>(s: Snapshot<V>, id: string): Option<Document<V>> {
    if id in s.documents && !s.documents[id].deleted then Some(s.documents[id]) else None
  }

  ghost function Step<V>(hash: Hash<V>, s: Snapshot<V>, op: Op<V>): (Snapshot<V>, Reply<V>) {
    match op
    case Put(id, value, expected, now) =>
      var (t, r) := PutSpec(hash, s, id, value, expected, now); (t, Written(r))
    case Delete(id, expected, now) =>
      var (t, r) := DeleteSpec(hash, s, id, expected, now); (t, Written(r))
    case Acquire(name, ownerId, ttlMs, now, token) =>
      var (t, r) := AcquireSpec(s, name, ownerId, ttlMs, now, token); (t, Leased(r))
    case Release(name, token, _) =>
      var (t, r) := ReleaseSpec(s, name, token); (t, Released(r))
    case Get(id, _) => (s, Found(GetSpec(s, id)))
    case List(le, _) => (s, Listed(ListSpec(s, le)))
    case ChangesSince(k, _) => (s, Feed(ChangesSinceSpec(s, k)))
  }

  ghost function Run<V>(hash: Hash<V>, s: Snapshot<V>, ops: seq<Op<V>>): Snapshot<V>
    decreases |ops|
  {
    if ops == [] then s else Run(hash, Step(hash, s, ops[0]).0, ops[1..])
  }

  /** What the `i`-th call of a run answers. */
  ghost function ReplyAt<V>(hash: Hash<V>, s: Snapshot<V>, ops: seq<Op<V>>, i: nat): Reply<V>
    requires i < |ops|
    decreases i
  {
    if i == 0 then Step(hash, s, ops[0]).1 else ReplyAt(hash, Step(hash, s, ops[0]).0, ops[1..], i - 1)
  }
}
