/** Leases: at any moment at most one owner holds a name. */
module StoreLeases {
  import opened Basics
  import opened ReplicatedStore

  function Granted<V>(reply: Reply<V>): Option<Lease> {
    if reply.Leased? && reply.lease.Ok? then reply.lease.value else None
  }

  /** The clock never runs backwards from one call to the next. */
  ghost predicate ClockAdvances<V>(ops: seq<Op<V>>) {
    forall i, j :: 0 <= i < j < |ops| ==> ops[i].now <= ops[j].now
  }

  /** Random tokens never repeat. */
  ghost predicate TokensFresh<V>(ops: seq<Op<V>>) {
    forall i, j :: 0 <= i < j < |ops| && ops[i].Acquire? && ops[j].Acquire? ==> ops[i].token != ops[j].token
  }

  /** The holder gives the lease back, or replaces it by a renewal of its own. */
  ghost predicate GivesUp<V>(hash: Hash<V>, s: Snapshot<V>, op: Op<V>, lease: Lease) {
    || (op.Release? && op.name == lease.name && op.token == lease.token)
    || (op.Acquire? && op.name == lease.name && op.ownerId == lease.ownerId && Granted(Step(hash, s, op).1).Some?)
  }

  function Earlier(a: int, b: int): int { if a <= b then a else b }

  /**
   The instant at which a grant stops: its expiry, or the first later call by which its holder gives it up.
   `s` is the state right after the grant and `ops` are the calls that follow.
   */
  ghost function GrantEnd<V>(hash: Hash<V>, s: Snapshot<V>, ops: seq<Op<V>>, lease: Lease): int
    decreases |ops|
  {
    if ops == [] then lease.expiresAt
    else if GivesUp(hash, s, ops[0], lease) then Earlier(lease.expiresAt, ops[0].now)
    else GrantEnd(hash, Step(hash, s, ops[0]).0, ops[1..], lease)
  }

  lemma {:induction false} GrantEndsByExpiry<V>(hash: Hash<V>, s: Snapshot<V>, ops: seq<Op<V>>, lease: Lease)
    ensures GrantEnd(hash, s, ops, lease) <= lease.expiresAt
    decreases |ops|
  {
    if ops != [] && !GivesUp(hash, s, ops[0], lease) {
      GrantEndsByExpiry(hash, Step(hash, s, ops[0]).0, ops[1..], lease);
    }
  }

  /** While its holder keeps a lease, another owner is granted the name only from the expiry on. */
  lemma {:induction false} NextGrantWaits<V>(hash: Hash<V>, s: Snapshot<V>, ops: seq<Op<V>>, lease: Lease, j: nat)
    requires j < |ops| && ClockAdvances(ops)
    requires lease.name in s.leases && s.leases[lease.name] == lease
    requires ops[j].Acquire? && ops[j].name == lease.name && ops[j].ownerId != lease.ownerId
    requires Granted(ReplyAt(hash, s, ops, j)).Some?
    ensures GrantEnd(hash, s, ops, lease) <= ops[j].now
    decreases |ops|
  {
    GrantEndsByExpiry(hash, s, ops, lease);
    if j > 0 && !GivesUp(hash, s, ops[0], lease) {
      var t := Step(hash, s, ops[0]).0;
      if lease.name in t.leases && t.leases[lease.name] == lease {
        NextGrantWaits(hash, t, ops[1..], lease, j - 1);
      } else {
        assert lease.expiresAt <= ops[0].now <= ops[j].now;
      }
    }
  }

  /**
   Exclusive leases, over a whole run: the grants of one name to different owners are disjoint in time.
   The earlier grant lasts from its acquisition to `GrantEnd`, and the later one starts no sooner than that.
   */
  lemma LeasesAreExclusive<V>(hash: Hash<V>, s: Snapshot<V>, ops: seq<Op<V>>, i: nat, j: nat)
    requires i < j < |ops| && ClockAdvances(ops)
    requires Granted(ReplyAt(hash, s, ops, i)).Some? && Granted(ReplyAt(hash, s, ops, j)).Some?
    requires var a, b := Granted(ReplyAt(hash, s, ops, i)).value, Granted(ReplyAt(hash, s, ops, j)).value;
             a.name == b.name && a.ownerId != b.ownerId
    ensures var a, b := Granted(ReplyAt(hash, s, ops, i)).value, Granted(ReplyAt(hash, s, ops, j)).value;
            && a.acquiredAt == ops[i].now && b.acquiredAt == ops[j].now
            && a.acquiredAt <= b.acquiredAt < b.expiresAt
            && GrantEnd(hash, Run(hash, s, ops[..i + 1]), ops[i + 1..], a) <= b.acquiredAt
  {
    GrantIsFromCall(hash, s, ops, i);
    GrantIsFromCall(hash, s, ops, j);
    GrantEndsBeforeNext(hash, s, ops, i, j);
  }

  lemma AfterFirst<V>(hash: Hash<V>, s: Snapshot<V>, ops: seq<Op<V>>, i: nat)
    requires 0 < i < |ops|
    ensures Run(hash, s, ops[..i + 1]) == Run(hash, Step(hash, s, ops[0]).0, ops[1..][..i])
    ensures ops[i + 1..] == ops[1..][i..]
  {
    assert ops[..i + 1][1..] == ops[1..][..i];
  }

  lemma {:induction false} GrantEndsBeforeNext<V>(hash: Hash<V>, s: Snapshot<V>, ops: seq<Op<V>>, i: nat, j: nat)
    requires i < j < |ops| && ClockAdvances(ops)
    requires Granted(ReplyAt(hash, s, ops, i)).Some? && Granted(ReplyAt(hash, s, ops, j)).Some?
    requires ops[j].Acquire? && Granted(ReplyAt(hash, s, ops, i)).value.name == ops[j].name
    requires Granted(ReplyAt(hash, s, ops, i)).value.ownerId != ops[j].ownerId
    ensures GrantEnd(hash, Run(hash, s, ops[..i + 1]), ops[i + 1..], Granted(ReplyAt(hash, s, ops, i)).value)
            <= ops[j].now
    decreases i
  {
    var t := Step(hash, s, ops[0]).0;
    if i > 0 {
      GrantEndsBeforeNext(hash, t, ops[1..], i - 1, j - 1);
      AfterFirst(hash, s, ops, i);
    } else {
      assert ops[..1][1..] == [];
      NextGrantWaits(hash, t, ops[1..], Granted(ReplyAt(hash, s, ops, 0)).value, j - 1);
    }
  }

  lemma {:induction false} GrantIsFromCall<V>(hash: Hash<V>, s: Snapshot<V>, ops: seq<Op<V>>, i: nat)
    requires i < |ops| && Granted(ReplyAt(hash, s, ops, i)).Some?
    ensures ops[i].Acquire? && ValidTtl(ops[i].ttlMs)
    ensures Granted(ReplyAt(hash, s, ops, i)).value
         == Lease(ops[i].name, ops[i].ownerId, ops[i].token, ops[i].now, ops[i].now + ops[i].ttlMs.Floor)
    decreases i
  {
    if i > 0 {
      GrantIsFromCall(hash, Step(hash, s, ops[0]).0, ops[1..], i - 1);
    }
  }

  /** The owner that holds an unexpired lease can always renew it; anyone can take an expired or absent one. */
  lemma AcquireGrantedIff<V>(s: Snapshot<V>, name: string, ownerId: string, ttlMs: real, now: int, token: string)
    requires ValidTtl(ttlMs)
    ensures AcquireSpec(s, name, ownerId, ttlMs, now, token).1.value.Some?
            <==> name !in s.leases || s.leases[name].expiresAt <= now || s.leases[name].ownerId == ownerId
  {
  }

  // ----- Exactly when a lease is granted

  lemma {:induction false} ReplyAtIs<V>(hash: Hash<V>, s: Snapshot<V>, ops: seq<Op<V>>, j: nat)
    requires j < |ops|
    ensures ReplyAt(hash, s, ops, j) == Step(hash, Run(hash, s, ops[..j]), ops[j]).1
    decreases j
  {
    if j > 0 {
      ReplyAtIs(hash, Step(hash, s, ops[0]).0, ops[1..], j - 1);
      assert ops[..j][1..] == ops[1..][..j - 1];
    }
  }

  lemma {:induction false} RunOneMore<V>(hash: Hash<V>, s: Snapshot<V>, ops: seq<Op<V>>, op: Op<V>)
    ensures Run(hash, s, ops + [op]) == Step(hash, Run(hash, s, ops), op).0
    decreases |ops|
  {
    if ops == [] {
      assert [] + [op] == [op] && [op][1..] == [];
    } else {
      assert (ops + [op])[1..] == ops[1..] + [op];
      RunOneMore(hash, Step(hash, s, ops[0]).0, ops[1..], op);
    }
  }

  /** The holder gives the lease up in none of the calls. */
  ghost predicate Keeps<V>(hash: Hash<V>, s: Snapshot<V>, ops: seq<Op<V>>, lease: Lease)
    decreases |ops|
  {
    ops == [] || (!GivesUp(hash, s, ops[0], lease) && Keeps(hash, Step(hash, s, ops[0]).0, ops[1..], lease))
  }

  lemma {:induction false} KeptEndsByExpiry<V>(hash: Hash<V>, s: Snapshot<V>, ops: seq<Op<V>>, lease: Lease)
    requires Keeps(hash, s, ops, lease)
    ensures GrantEnd(hash, s, ops, lease) == lease.expiresAt
    decreases |ops|
  {
    if ops != [] {
      KeptEndsByExpiry(hash, Step(hash, s, ops[0]).0, ops[1..], lease);
    }
  }

  lemma {:induction false} KeepsOneMore<V>(hash: Hash<V>, s: Snapshot<V>, ops: seq<Op<V>>, op: Op<V>, lease: Lease)
    requires Keeps(hash, s, ops, lease) && !GivesUp(hash, Run(hash, s, ops), op, lease)
    ensures Keeps(hash, s, ops + [op], lease)
    decreases |ops|
  {
    if ops == [] {
      assert [] + [op] == [op] && [op][1..] == [];
    } else {
      assert (ops + [op])[1..] == ops[1..] + [op];
      KeepsOneMore(hash, Step(hash, s, ops[0]).0, ops[1..], op, lease);
    }
  }

  /** Call `i` was granted `lease`, and its holder has given it up in none of the calls up to `k`. */
  ghost predicate GrantedAndKept<V>(hash: Hash<V>, s: Snapshot<V>, ops: seq<Op<V>>, i: nat, k: nat, lease: Lease)
    requires i < k <= |ops|
  {
    && Granted(ReplyAt(hash, s, ops, i)) == Some(lease)
    && Keeps(hash, Run(hash, s, ops[..i + 1]), ops[i + 1..k], lease)
  }

  /** A lease that a call did not grant but that is there afterwards was there before, and was not given up. */
  lemma LeaseAfterStep<V>(hash: Hash<V>, s: Snapshot<V>, op: Op<V>, lease: Lease)
    requires lease.name in Step(hash, s, op).0.leases && Step(hash, s, op).0.leases[lease.name] == lease
    requires Granted(Step(hash, s, op).1) != Some(lease)
    ensures lease.name in s.leases && s.leases[lease.name] == lease
    ensures !GivesUp(hash, s, op, lease)
  {
  }

  /** Every lease in the store was granted by some call and has been kept since. */
  lemma {:induction false} HeldWasGranted<V>(hash: Hash<V>, ops: seq<Op<V>>, k: nat, name: string) returns (i: nat)
    requires k <= |ops| && name in Run(hash, Empty(), ops[..k]).leases
    requires Run(hash, Empty(), ops[..k]).leases[name].name == name
    ensures i < k && GrantedAndKept(hash, Empty(), ops, i, k, Run(hash, Empty(), ops[..k]).leases[name])
    decreases k
  {
    var before := Run(hash, Empty(), ops[..k - 1]);
    var lease := Run(hash, Empty(), ops[..k]).leases[name];
    assert ops[..k] == ops[..k - 1] + [ops[k - 1]];
    RunOneMore(hash, Empty(), ops[..k - 1], ops[k - 1]);
    ReplyAtIs(hash, Empty(), ops, k - 1);
    if Granted(Step(hash, before, ops[k - 1]).1) == Some(lease) {
      i := k - 1;
      assert ops[k..k] == [];
    } else {
      LeaseAfterStep(hash, before, ops[k - 1], lease);
      i := HeldWasGranted(hash, ops, k - 1, name);
      KeptThrough(hash, ops, i + 1, k, lease);
    }
  }

  lemma {:induction false} RunSplit<V>(hash: Hash<V>, ops: seq<Op<V>>, i: nat, j: nat)
    requires i <= j <= |ops|
    ensures Run(hash, Empty(), ops[..j]) == Run(hash, Run(hash, Empty(), ops[..i]), ops[i..j])
    decreases j
  {
    if i == j {
      assert ops[i..i] == [];
    } else {
      RunSplit(hash, ops, i, j - 1);
      assert ops[..j] == ops[..j - 1] + [ops[j - 1]];
      RunOneMore(hash, Empty(), ops[..j - 1], ops[j - 1]);
      SliceOneMore(ops, i, j);
      RunOneMore(hash, Run(hash, Empty(), ops[..i]), ops[i..j - 1], ops[j - 1]);
    }
  }

  lemma KeptThrough<V>(hash: Hash<V>, ops: seq<Op<V>>, i: nat, k: nat, lease: Lease)
    requires i < k <= |ops| && Keeps(hash, Run(hash, Empty(), ops[..i]), ops[i..k - 1], lease)
    requires !GivesUp(hash, Run(hash, Empty(), ops[..k - 1]), ops[k - 1], lease)
    ensures Keeps(hash, Run(hash, Empty(), ops[..i]), ops[i..k], lease)
  {
    RunSplit(hash, ops, i, k - 1);
    KeepsOneMore(hash, Run(hash, Empty(), ops[..i]), ops[i..k - 1], ops[k - 1], lease);
    SliceOneMore(ops, i, k);
  }

  lemma SliceOneMore<T>(xs: seq<T>, i: nat, k: nat)
    requires i < k <= |xs|
    ensures xs[i..k] == xs[i..k - 1] + [xs[k - 1]]
  {
  }

  /** While its holder keeps a lease, another owner's request after the calls is granted only from its end on. */
  lemma {:induction false} RequestWaits<V>(
    hash: Hash<V>, s: Snapshot<V>, ops: seq<Op<V>>, lease: Lease, request: Op<V>)
    requires request.Acquire? && request.name == lease.name && request.ownerId != lease.ownerId
    requires lease.name in s.leases && s.leases[lease.name] == lease
    requires forall n | 0 <= n < |ops| :: ops[n].now <= request.now
    requires Granted(Step(hash, Run(hash, s, ops), request).1).Some?
    ensures GrantEnd(hash, s, ops, lease) <= request.now
    decreases |ops|
  {
    GrantEndsByExpiry(hash, s, ops, lease);
    if ops != [] && !GivesUp(hash, s, ops[0], lease) {
      var t := Step(hash, s, ops[0]).0;
      if lease.name in t.leases && t.leases[lease.name] == lease {
        RequestWaits(hash, t, ops[1..], lease, request);
      } else {
        assert lease.expiresAt <= ops[0].now <= request.now;
      }
    }
  }

  /** Call `i` was granted the name of request `j` to another owner. */
  ghost predicate Rival<V>(hash: Hash<V>, ops: seq<Op<V>>, i: nat, j: nat)
    requires i < j < |ops| && ops[j].Acquire?
  {
    var a := Granted(ReplyAt(hash, Empty(), ops, i));
    a.Some? && a.value.name == ops[j].name && a.value.ownerId != ops[j].ownerId
  }

  /** When the grant of call `i` ended, as far as the calls before `j` tell. */
  ghost function EndBefore<V>(hash: Hash<V>, ops: seq<Op<V>>, i: nat, j: nat): int
    requires i < j < |ops| && Granted(ReplyAt(hash, Empty(), ops, i)).Some?
  {
    GrantEnd(hash, Run(hash, Empty(), ops[..i + 1]), ops[i + 1..j], Granted(ReplyAt(hash, Empty(), ops, i)).value)
  }

  lemma GrantIsThere<V>(hash: Hash<V>, ops: seq<Op<V>>, i: nat)
    requires i < |ops| && Granted(ReplyAt(hash, Empty(), ops, i)).Some?
    ensures var a := Granted(ReplyAt(hash, Empty(), ops, i)).value;
            var t := Run(hash, Empty(), ops[..i + 1]);
            a.name in t.leases && t.leases[a.name] == a
  {
    ReplyAtIs(hash, Empty(), ops, i);
    assert ops[..i + 1] == ops[..i] + [ops[i]];
    RunOneMore(hash, Empty(), ops[..i], ops[i]);
  }

  lemma RequestAfter<V>(hash: Hash<V>, ops: seq<Op<V>>, i: nat, j: nat)
    requires i <= j < |ops| && Granted(ReplyAt(hash, Empty(), ops, j)).Some?
    ensures Granted(Step(hash, Run(hash, Run(hash, Empty(), ops[..i]), ops[i..j]), ops[j]).1).Some?
  {
    ReplyAtIs(hash, Empty(), ops, j);
    RunSplit(hash, ops, i, j);
  }

  /** `RequestWaits`, for a lease that a call of the run was granted. */
  lemma RequestWaitsFor<V>(hash: Hash<V>, ops: seq<Op<V>>, i: nat, j: nat, lease: Lease)
    requires i <= j < |ops| && ClockAdvances(ops)
    requires ops[j].Acquire? && ops[j].name == lease.name && ops[j].ownerId != lease.ownerId
    requires var s := Run(hash, Empty(), ops[..i]); lease.name in s.leases && s.leases[lease.name] == lease
    requires Granted(ReplyAt(hash, Empty(), ops, j)).Some?
    ensures GrantEnd(hash, Run(hash, Empty(), ops[..i]), ops[i..j], lease) <= ops[j].now
  {
    SliceIsEarlier(ops, i, j);
    RequestAfter(hash, ops, i, j);
    RequestWaits(hash, Run(hash, Empty(), ops[..i]), ops[i..j], lease, ops[j]);
  }

  lemma GrantedMeansOver<V>(hash: Hash<V>, ops: seq<Op<V>>, i: nat, j: nat)
    requires i < j < |ops| && ClockAdvances(ops) && ops[j].Acquire? && Rival(hash, ops, i, j)
    requires Granted(ReplyAt(hash, Empty(), ops, j)).Some?
    ensures EndBefore(hash, ops, i, j) <= ops[j].now
  {
    GrantIsThere(hash, ops, i);
    RequestWaitsFor(hash, ops, i + 1, j, Granted(ReplyAt(hash, Empty(), ops, i)).value);
  }

  lemma SliceIsEarlier<V>(ops: seq<Op<V>>, i: nat, j: nat)
    requires i <= j < |ops| && ClockAdvances(ops)
    ensures forall n | 0 <= n < j - i :: ops[i..j][n].now <= ops[j].now
  {
    forall n | 0 <= n < j - i ensures ops[i..j][n].now <= ops[j].now {
      assert ops[i..j][n] == ops[i + n];
    }
  }

  /** Leases are filed under their own names. */
  lemma {:induction false} LeasesAreNamed<V>(hash: Hash<V>, s: Snapshot<V>, ops: seq<Op<V>>)
    requires forall name | name in s.leases :: s.leases[name].name == name
    ensures forall name | name in Run(hash, s, ops).leases :: Run(hash, s, ops).leases[name].name == name
    decreases |ops|
  {
    if ops != [] {
      LeasesAreNamed(hash, Step(hash, s, ops[0]).0, ops[1..]);
    }
  }

  lemma RefusedMeansHeld<V>(hash: Hash<V>, ops: seq<Op<V>>, j: nat) returns (i: nat)
    requires j < |ops| && ops[j].Acquire? && ValidTtl(ops[j].ttlMs)
    requires Granted(ReplyAt(hash, Empty(), ops, j)).None?
    ensures i < j && Rival(hash, ops, i, j) && EndBefore(hash, ops, i, j) > ops[j].now
  {
    var s := Run(hash, Empty(), ops[..j]);
    ReplyAtIs(hash, Empty(), ops, j);
    AcquireGrantedIff(s, ops[j].name, ops[j].ownerId, ops[j].ttlMs, ops[j].now, ops[j].token);
    LeasesAreNamed(hash, Empty(), ops[..j]);
    i := HeldWasGranted(hash, ops, j, ops[j].name);
    KeptEndsByExpiry(hash, Run(hash, Empty(), ops[..i + 1]), ops[i + 1..j], s.leases[ops[j].name]);
  }

  /**
   No owner waits longer than it must: in every run of a store that started empty, a valid request is granted if
   and only if every earlier grant of the name to another owner has ended, by expiry, release or replacement.
   */
  lemma GrantedIffOthersEnded<V>(hash: Hash<V>, ops: seq<Op<V>>, j: nat)
    requires j < |ops| && ClockAdvances(ops) && ops[j].Acquire? && ValidTtl(ops[j].ttlMs)
    ensures Granted(ReplyAt(hash, Empty(), ops, j)).Some?
            <==> forall i | 0 <= i < j && Rival(hash, ops, i, j) :: EndBefore(hash, ops, i, j) <= ops[j].now
  {
    if Granted(ReplyAt(hash, Empty(), ops, j)).Some? {
      forall i | 0 <= i < j && Rival(hash, ops, i, j) ensures EndBefore(hash, ops, i, j) <= ops[j].now {
        GrantedMeansOver(hash, ops, i, j);
      }
    } else {
      var i := RefusedMeansHeld(hash, ops, j);
    }
  }

  // ----- Superseded tokens

  /** `token` does not hold `name`, and no later call can bring it back. */
  ghost predicate Superseded<V>(s: Snapshot<V>, ops: seq<Op<V>>, name: string, token: string) {
    && (name in s.leases ==> s.leases[name].token != token)
    && (forall i | 0 <= i < |ops| :: ops[i].Acquire? ==> ops[i].token != token)
  }

  /** Releasing with a token that no longer holds the lease answers false and leaves the store untouched. */
  lemma {:induction false} SupersededReleaseIsHarmless<V>(
    hash: Hash<V>, s: Snapshot<V>, ops: seq<Op<V>>, name: string, token: string, k: nat)
    requires Superseded(s, ops, name, token)
    requires k < |ops| && ops[k].Release? && ops[k].name == name && ops[k].token == token
    ensures ReplyAt(hash, s, ops, k) == Released(false)
    ensures Run(hash, s, ops[..k + 1]) == Run(hash, s, ops[..k])
    decreases k
  {
    if k == 0 {
      assert ops[..1][1..] == [] && ops[..0] == [];
    } else {
      SupersededReleaseIsHarmless(hash, Step(hash, s, ops[0]).0, ops[1..], name, token, k - 1);
      assert ops[..k + 1][1..] == ops[1..][..k] && ops[..k][1..] == ops[1..][..k - 1];
    }
  }

  /** Once a lease has been replaced by a later grant of its name, its own token is dead for good. */
  lemma {:induction false} ReplacedTokenIsDead<V>(
    hash: Hash<V>, s: Snapshot<V>, ops: seq<Op<V>>, i: nat, j: nat, k: nat)
    requires i < j < k < |ops| && TokensFresh(ops)
    requires Granted(ReplyAt(hash, s, ops, i)).Some? && Granted(ReplyAt(hash, s, ops, j)).Some?
    requires ops[i].Acquire? && ops[j].Acquire? && ops[i].name == ops[j].name
    requires ops[k].Release? && ops[k].name == ops[i].name && ops[k].token == ops[i].token
    ensures ReplyAt(hash, s, ops, k) == Released(false)
    ensures Run(hash, s, ops[..k + 1]) == Run(hash, s, ops[..k])
    decreases j
  {
    GrantIsFromCall(hash, s, ops, i);
    GrantIsFromCall(hash, s, ops, j);
    DeadAfter(hash, s, ops, ops[i].token, j, k);
  }

  lemma {:induction false} DeadAfter<V>(hash: Hash<V>, s: Snapshot<V>, ops: seq<Op<V>>, token: string, j: nat, k: nat)
    requires j < k < |ops| && ops[j].Acquire? && Granted(ReplyAt(hash, s, ops, j)).Some?
    requires forall n | j <= n < |ops| :: ops[n].Acquire? ==> ops[n].token != token
    requires ops[k].Release? && ops[k].name == ops[j].name && ops[k].token == token
    ensures ReplyAt(hash, s, ops, k) == Released(false)
    ensures Run(hash, s, ops[..k + 1]) == Run(hash, s, ops[..k])
    decreases j
  {
    var t := Step(hash, s, ops[0]).0;
    assert ops[..k + 1][1..] == ops[1..][..k] && ops[..k][1..] == ops[1..][..k - 1];
    if j == 0 {
      SupersededReleaseIsHarmless(hash, t, ops[1..], ops[0].name, token, k - 1);
    } else {
      DeadAfter(hash, t, ops[1..], token, j - 1, k - 1);
    }
  }
}
