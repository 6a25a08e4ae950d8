/** What holds in every reachable store: the log explains the documents, and replicas catch up from it. */
module StoreConvergence {
  import opened Basics
  import opened StableSort
  import opened ReplicatedStore

  // ----- Reading the log

  /** How a replica applies one change to its copy of the live documents. */
  function Apply<V>(view: map<string, Document<V>>, c: Change<V>): map<string, Document<V>> {
    match c.value
    case Some(v) => view[c.id := Document(c.id, c.rev, c.sequence, c.updatedAt, v, false)]
    case None => view - {c.id}
  }

  function Replay<V>(view: map<string, Document<V>>, changes: seq<Change<V>>): map<string, Document<V>>
    decreases |changes|
  {
    if changes == [] then view else Replay(Apply(view, changes[0]), changes[1..])
  }

  function Live<V>(s: Snapshot<V>): map<string, Document<V>> {
    map id | id in s.documents && !s.documents[id].deleted :: s.documents[id]
  }

  function CountChanges<V>(changes: seq<Change<V>>, id: string): nat {
    if changes == [] then 0
    else CountChanges(changes[..|changes| - 1], id) + if changes[|changes| - 1].id == id then 1 else 0
  }

  /** The invariant of a store that started empty. */
  ghost predicate Coherent<V>(s: Snapshot<V>) {
    && s.sequence == |s.changes|
    && (forall i | 0 <= i < |s.changes| :: s.changes[i].sequence == i + 1)
    && (forall id | id in s.documents :: s.documents[id].id == id)
    && (forall id | id in s.documents :: s.documents[id].rev.generation == CountChanges(s.changes, id) > 0)
    && (forall id | id !in s.documents :: CountChanges(s.changes, id) == 0)
    && Replay(map[], s.changes) == Live(s)
  }

  lemma {:induction false} ReplayConcat<V>(view: map<string, Document<V>>, a: seq<Change<V>>, b: seq<Change<V>>)
    ensures Replay(view, a + b) == Replay(Replay(view, a), b)
    decreases |a|
  {
    if a == [] {
      assert a + b == b;
    } else {
      assert (a + b)[1..] == a[1..] + b;
      ReplayConcat(Apply(view, a[0]), a[1..], b);
    }
  }

  lemma ReplayOne<V>(view: map<string, Document<V>>, a: seq<Change<V>>, c: Change<V>)
    ensures Replay(view, a + [c]) == Apply(Replay(view, a), c)
  {
    ReplayConcat(view, a, [c]);
    assert [c][1..] == [];
  }

  lemma RecordReplays<V>(s: Snapshot<V>, id: string, d: Document<V>)
    requires Replay(map[], s.changes) == Live(s) && d.id == id
    ensures Replay(map[], Record(s, id, d).changes) == Live(Record(s, id, d))
  {
    ReplayOne(map[], s.changes, ChangeFromDocument(d));
    assert Live(Record(s, id, d)) == Apply(Live(s), ChangeFromDocument(d));
  }

  lemma CountOneMore<V>(changes: seq<Change<V>>, c: Change<V>, id: string)
    ensures CountChanges(changes + [c], id) == CountChanges(changes, id) + if c.id == id then 1 else 0
  {
    assert (changes + [c])[..|changes|] == changes;
  }

  lemma RecordKeepsCoherent<V>(s: Snapshot<V>, id: string, d: Document<V>)
    requires Coherent(s)
    requires d.id == id && d.sequence == s.sequence + 1
    requires d.rev.generation == CountChanges(s.changes, id) + 1
    ensures Coherent(Record(s, id, d))
  {
    RecordReplays(s, id, d);
    var t := Record(s, id, d);
    forall k ensures CountChanges(t.changes, k) == CountChanges(s.changes, k) + if k == id then 1 else 0 {
      CountOneMore(s.changes, ChangeFromDocument(d), k);
    }
  }

  lemma GenerationOf<V>(s: Snapshot<V>, id: string)
    requires Coherent(s)
    ensures (match RevOf(Lookup(s.documents, id)) case Some(r) => r.generation case None => 0)
        == CountChanges(s.changes, id)
  {
  }

  /** Every call, successful or not, keeps the log and the documents in agreement. */
  lemma StepKeepsCoherent<V>(hash: Hash<V>, s: Snapshot<V>, op: Op<V>)
    requires Coherent(s)
    ensures Coherent(Step(hash, s, op).0)
  {
    match op
    case Put(id, value, expected, now) =>
      GenerationOf(s, id);
      var (t, r) := PutSpec(hash, s, id, value, expected, now);
      if r.Ok? { RecordKeepsCoherent(s, id, r.value); }
    case Delete(id, expected, now) =>
      GenerationOf(s, id);
      var (t, r) := DeleteSpec(hash, s, id, expected, now);
      if r.Ok? { RecordKeepsCoherent(s, id, r.value); }
    case Acquire(_, _, _, _, _) =>
      assert Live(Step(hash, s, op).0) == Live(s);
    case Release(_, _, _) =>
      assert Live(Step(hash, s, op).0) == Live(s);
    case _ =>
  }

  lemma {:induction false} RunKeepsCoherent<V>(hash: Hash<V>, s: Snapshot<V>, ops: seq<Op<V>>)
    requires Coherent(s)
    ensures Coherent(Run(hash, s, ops))
    decreases |ops|
  {
    if ops != [] {
      StepKeepsCoherent(hash, s, ops[0]);
      RunKeepsCoherent(hash, Step(hash, s, ops[0]).0, ops[1..]);
    }
  }

  /** In every reachable store the live documents are the fold of the change log. */
  lemma ReachableIsCoherent<V>(hash: Hash<V>, ops: seq<Op<V>>)
    ensures Coherent(Run(hash, Empty(), ops))
  {
    assert Live<V>(Empty()) == map[];
    assert Coherent<V>(Empty());
    RunKeepsCoherent(hash, Empty(), ops);
  }

  // ----- changesSince

  lemma {:induction false} FilterAfter<V>(changes: seq<Change<V>>, first: nat, k: int)
    requires forall i | 0 <= i < |changes| :: changes[i].sequence == first + i + 1
    requires 0 <= k - first <= |changes| || k < first
    ensures Filter(After(k), changes) == changes[if k < first then 0 else k - first..]
  {
    if changes != [] {
      FilterAfter(changes[1..], first + 1, if k <= first then first else k);
      if k <= first {
        FilterSame(changes[1..], k, first);
      }
    }
  }

  lemma {:induction false} FilterSame<V>(changes: seq<Change<V>>, k: int, m: int)
    requires forall i | 0 <= i < |changes| :: changes[i].sequence > k && changes[i].sequence > m
    ensures Filter(After(k), changes) == Filter(After(m), changes) == changes
  {
    if changes != [] {
      FilterSame(changes[1..], k, m);
    }
  }

  /** The feed after `k` is the suffix of the log after its `k`-th entry, already in order. */
  lemma ChangesSinceIsSuffix<V>(s: Snapshot<V>, k: int)
    requires Coherent(s)
    ensures ChangesSinceSpec(s, k) == s.changes[if k < 0 then 0 else if k > |s.changes| then |s.changes| else k..]
  {
    if k <= |s.changes| {
      FilterAfter(s.changes, 0, k);
    } else {
      FilterNone(s.changes, k);
    }
    SortedIsFixed(BySequence(), Filter(After(k), s.changes));
  }

  lemma {:induction false} FilterNone<V>(changes: seq<Change<V>>, k: int)
    requires forall i | 0 <= i < |changes| :: changes[i].sequence <= k
    ensures Filter(After(k), changes) == []
  {
    if changes != [] {
      FilterNone(changes[1..], k);
    }
  }

  // ----- Listings

  lemma DocumentsAreDistinct<V>(s: Snapshot<V>, ids: seq<string>)
    requires Coherent(s) && Enumerates(ids, s)
    ensures Distinct(DocumentsAt(s, ids))
  {
    var ds := DocumentsAt(s, ids);
    forall i, j | 0 <= i < j < |ds| ensures ds[i] != ds[j] {
      assert ids[i] in ids && ids[j] in ids;
      assert ds[i].id == ids[i] && ds[j].id == ids[j];
    }
  }

  /** The order in which the documents object lists its entries does not matter. */
  lemma EnumerationsPermute<V(!new)>(s: Snapshot<V>, ids: seq<string>, others: seq<string>)
    requires Coherent(s) && Enumerates(ids, s) && Enumerates(others, s)
    ensures multiset(DocumentsAt(s, ids)) == multiset(DocumentsAt(s, others))
  {
    DocumentsAreDistinct(s, ids);
    DocumentsAreDistinct(s, others);
    forall d ensures d in DocumentsAt(s, ids) <==> d in DocumentsAt(s, others) {
      InEnumeration(s, ids, d);
      InEnumeration(s, others, d);
    }
    DistinctSameSet(DocumentsAt(s, ids), DocumentsAt(s, others));
  }

  lemma InEnumeration<V>(s: Snapshot<V>, ids: seq<string>, d: Document<V>)
    requires Coherent(s) && Enumerates(ids, s)
    ensures d in DocumentsAt(s, ids) <==> d.id in LiveIds(s) && s.documents[d.id] == d
  {
    var ds := DocumentsAt(s, ids);
    if d in ds {
      var i :| 0 <= i < |ds| && ds[i] == d;
      assert ids[i] in ids;
    }
    if d.id in LiveIds(s) && s.documents[d.id] == d {
      assert d.id in ids;
      var i :| 0 <= i < |ids| && ids[i] == d.id;
      assert ds[i] == d;
    }
  }

  /**
   Under a total order of ids, a coherent store has one listing: all live documents sorted by id, whatever
   order the entries were made in.
   */
  lemma ListingIsUnique<V(!new)>(le: (string, string) -> bool, s: Snapshot<V>, r: seq<Document<V>>)
    requires Coherent(s) && TotalOrder(le)
    ensures IsListing(le, s, r) <==> r == ListSpec(s, le)
  {
    ListSpecIsListing(s, le);
    if IsListing(le, s, r) {
      var ids :| Enumerates(ids, s) && multiset(r) == multiset(DocumentsAt(s, ids));
      var others :| Enumerates(others, s) && multiset(ListSpec(s, le)) == multiset(DocumentsAt(s, others));
      EnumerationsPermute(s, ids, others);
      ListingHasNoTies(le, s, ids, r);
      SortedIsUnique(ById(le), r, ListSpec(s, le));
    }
  }

  lemma ListingHasNoTies<V>(le: (string, string) -> bool, s: Snapshot<V>, ids: seq<string>, r: seq<Document<V>>)
    requires Coherent(s) && TotalOrder(le) && Enumerates(ids, s) && multiset(r) == multiset(DocumentsAt(s, ids))
    ensures NoTies(ById(le), r)
  {
    SameElements(r, DocumentsAt(s, ids));
    forall i, j | 0 <= i < |r| && 0 <= j < |r| && ById(le)(r[i], r[j]) && ById(le)(r[j], r[i]) ensures r[i] == r[j] {
      assert r[i] in r && r[j] in r;
      InEnumeration(s, ids, r[i]);
      InEnumeration(s, ids, r[j]);
    }
  }

  /** A listing shows the live documents, all of them and no others, in the order of their ids. */
  lemma ListingShowsLive<V>(le: (string, string) -> bool, s: Snapshot<V>, r: seq<Document<V>>)
    requires Coherent(s) && IsListing(le, s, r)
    ensures |r| == |Live(s)|
    ensures forall i | 0 <= i < |r| :: r[i].id in Live(s) && Live(s)[r[i].id] == r[i]
    ensures forall id | id in Live(s) :: Live(s)[id] in r
    ensures forall i, j | 0 <= i < j < |r| :: le(r[i].id, r[j].id)
  {
    var ids :| Enumerates(ids, s) && multiset(r) == multiset(DocumentsAt(s, ids));
    var ds := DocumentsAt(s, ids);
    SameElements(r, ds);
    forall i | 0 <= i < |r| ensures r[i].id in Live(s) && Live(s)[r[i].id] == r[i] {
      assert r[i] in r;
      InEnumeration(s, ids, r[i]);
    }
    forall id | id in Live(s) ensures Live(s)[id] in r {
      InEnumeration(s, ids, Live(s)[id]);
    }
    forall i, j | 0 <= i < j < |r| ensures le(r[i].id, r[j].id) {
      assert ById(le)(r[i], r[j]);
    }
    ListedOnce(ids, Live(s).Keys);
  }

  lemma {:induction false} ListedOnce(ids: seq<string>, keys: set<string>)
    requires Distinct(ids) && forall id :: id in ids <==> id in keys
    ensures |ids| == |keys|
    decreases |ids|
  {
    if ids != [] {
      assert ids == [ids[0]] + ids[1..];
      ListedOnce(ids[1..], keys - {ids[0]});
    }
  }

  // ----- Replicas

  /** A consumer of the change feed: the last sequence number it has seen and its copy of the live documents. */
  datatype Replica<V> = Replica(cursor: nat, view: map<string, Document<V>>)

  function Poll<V>(r: Replica<V>, s: Snapshot<V>): Replica<V> {
    var feed := ChangesSinceSpec(s, r.cursor);
    Replica(if feed == [] then r.cursor else feed[|feed| - 1].sequence, Replay(r.view, feed))
  }

  datatype Event<V> = Call(op: Op<V>) | PollFeed

  /** A replica that polls now and then while calls are made to the store. */
  ghost function Watch<V>(hash: Hash<V>, s: Snapshot<V>, r: Replica<V>, events: seq<Event<V>>)
    : (Snapshot<V>, Replica<V>)
    decreases |events|
  {
    if events == [] then (s, r)
    else
      match events[0]
      case Call(op) => Watch(hash, Step(hash, s, op).0, r, events[1..])
      case PollFeed => Watch(hash, s, Poll(r, s), events[1..])
  }

  /** The replica's copy is the fold of the log up to its cursor. */
  ghost predicate Behind<V>(r: Replica<V>, s: Snapshot<V>) {
    r.cursor <= |s.changes| && r.view == Replay(map[], s.changes[..r.cursor])
  }

  lemma PollCatchesUp<V>(r: Replica<V>, s: Snapshot<V>)
    requires Coherent(s) && Behind(r, s)
    ensures Poll(r, s) == Replica(s.sequence, Live(s))
    ensures Behind(Poll(r, s), s)
  {
    ChangesSinceIsSuffix(s, r.cursor);
    ReplayConcat(map[], s.changes[..r.cursor], s.changes[r.cursor..]);
    assert s.changes[..r.cursor] + s.changes[r.cursor..] == s.changes;
    assert s.changes[..|s.changes|] == s.changes;
  }

  lemma StepExtendsLog<V>(hash: Hash<V>, s: Snapshot<V>, op: Op<V>)
    ensures s.changes <= Step(hash, s, op).0.changes
  {
  }

  lemma {:induction false} WatchKeepsBehind<V>(hash: Hash<V>, s: Snapshot<V>, r: Replica<V>, events: seq<Event<V>>)
    requires Coherent(s) && Behind(r, s)
    ensures var (t, q) := Watch(hash, s, r, events); Coherent(t) && Behind(q, t)
    decreases |events|
  {
    if events != [] {
      match events[0]
      case Call(op) =>
        var t := Step(hash, s, op).0;
        StepKeepsCoherent(hash, s, op);
        StepExtendsLog(hash, s, op);
        assert t.changes[..r.cursor] == s.changes[..r.cursor];
        WatchKeepsBehind(hash, t, r, events[1..]);
      case PollFeed =>
        PollCatchesUp(r, s);
        WatchKeepsBehind(hash, s, Poll(r, s), events[1..]);
    }
  }

  /** However calls and polls interleave, one more poll brings an initially empty replica to the live documents. */
  lemma ReplicaConverges<V>(hash: Hash<V>, events: seq<Event<V>>)
    ensures var (s, r) := Watch(hash, Empty(), Replica(0, map[]), events);
            Poll(r, s) == Replica(s.sequence, Live(s))
  {
    assert Live<V>(Empty()) == map[];
    assert Coherent<V>(Empty());
    assert Behind<V>(Replica(0, map[]), Empty());
    WatchKeepsBehind(hash, Empty(), Replica(0, map[]), events);
    var (s, r) := Watch(hash, Empty(), Replica(0, map[]), events);
    PollCatchesUp(r, s);
  }
}
