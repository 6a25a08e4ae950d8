/**
 Settlement leadership: every relay ranks the active relays by a seeded score and derives from its clock who
 leads.  The score is an arbitrary function of seed and relay id; `le` is the order of `localeCompare`.
 */
module Leadership {
  import opened Basics
  import opened StableSort
  import opened Digits

  datatype Member = Member(relayId: string, active: Option<bool>, weight: Option<int>)

  /** `windowEnd` is absent when it is not numeric. */
  datatype Input = Input(
    seed: string, windowEnd: Option<int>, relays: seq<Member>, nowUnixSeconds: int, failoverGraceSeconds: Option<int>)

  datatype Leadership = Leadership(
    orderedRelayIds: seq<string>, leaderId: string, leaderIndex: nat,
    failoverGraceSeconds: int, primaryDeadlineUnixSeconds: int)

  datatype Error = GraceNotPositive(grace: int) | WindowEndNotNumeric

  const DEFAULT_GRACE_SECONDS := 300

  /** How relays are compared: the hash of seed and id, and `localeCompare`. */
  datatype Ranking = Ranking(score: (string, string) -> string, le: (string, string) -> bool)

  // ----- Membership

  predicate Counts(m: Member) {
    m.active != Some(false) && m.relayId != ""
  }

  /** Ids of the active members, each at its first occurrence. */
  function ActiveIds(relays: seq<Member>): seq<string> {
    if relays == [] then []
    else
      var ids := ActiveIds(relays[..|relays| - 1]);
      var last := relays[|relays| - 1];
      if Counts(last) && last.relayId !in ids then ids + [last.relayId] else ids
  }

  method ActiveUniqueRelayIds(relays: seq<Member>) returns (ids: seq<string>)
    ensures ids == ActiveIds(relays)
    ensures Distinct(ids)
    ensures forall id :: id in ids <==> exists m :: m in relays && Counts(m) && m.relayId == id
  {
    var seen: set<string> := {};
    ids := [];
    for i := 0 to |relays|
      invariant ids == ActiveIds(relays[..i])
      invariant forall id :: id in seen <==> id in ids
    {
      assert relays[..i + 1][..i] == relays[..i];
      if relays[i].active == Some(false) || relays[i].relayId == "" || relays[i].relayId in seen {
        continue;
      }
      seen := seen + {relays[i].relayId};
      ids := ids + [relays[i].relayId];
    }
    assert relays[..|relays|] == relays;
    ActiveIdsAreTheActiveOnes(relays);
  }

  function ActiveSet(relays: seq<Member>): set<string> {
    set m | m in relays && Counts(m) :: m.relayId
  }

  lemma {:induction false} ActiveIdsAreTheActiveOnes(relays: seq<Member>)
    ensures Distinct(ActiveIds(relays))
    ensures forall id :: id in ActiveIds(relays) <==> id in ActiveSet(relays)
  {
    if relays != [] {
      var n := |relays| - 1;
      ActiveIdsAreTheActiveOnes(relays[..n]);
      assert relays == relays[..n] + [relays[n]];
      assert ActiveSet(relays) == ActiveSet(relays[..n]) + if Counts(relays[n]) then {relays[n].relayId} else {};
    }
  }

  // ----- Order

  function RankLe(r: Ranking, seed: string): (string, string) -> bool {
    (a: string, b: string) =>
      var x, y := r.score(seed, a), r.score(seed, b);
      if r.le(x, y) && r.le(y, x) then r.le(a, b) else r.le(x, y)
  }

  function OrderedIds(r: Ranking, seed: string, relays: seq<Member>): seq<string> {
    Sort(RankLe(r, seed), ActiveIds(relays))
  }

  /** `localeCompare` is a total preorder that tells the given ids apart. */
  ghost predicate Separates(r: Ranking, ids: set<string>) {
    && TotalPreorder(r.le)
    && forall a, b | a in ids && b in ids && r.le(a, b) && r.le(b, a) :: a == b
  }

  lemma RankIsPreorder(r: Ranking, seed: string)
    requires TotalPreorder(r.le)
    ensures TotalPreorder(RankLe(r, seed))
  {
    var rank := RankLe(r, seed);
    forall a, b, c | rank(a, b) && rank(b, c) ensures rank(a, c) {
      RankTransitive(r, seed, a, b, c);
    }
  }

  lemma RankTransitive(r: Ranking, seed: string, a: string, b: string, c: string)
    requires TotalPreorder(r.le) && RankLe(r, seed)(a, b) && RankLe(r, seed)(b, c)
    ensures RankLe(r, seed)(a, c)
  {
    var x, y, z := r.score(seed, a), r.score(seed, b), r.score(seed, c);
    assert r.le(x, y) && r.le(y, z) && r.le(x, z);
    if r.le(z, x) {
      assert r.le(y, x) && r.le(z, y);
    }
  }

  lemma RankSeparates(r: Ranking, seed: string, ids: seq<string>)
    requires Separates(r, set id | id in ids)
    ensures NoTies(RankLe(r, seed), ids)
  {
    var rank := RankLe(r, seed);
    forall i, j | 0 <= i < |ids| && 0 <= j < |ids| && rank(ids[i], ids[j]) && rank(ids[j], ids[i])
      ensures ids[i] == ids[j]
    {
      assert r.le(ids[i], ids[j]) && r.le(ids[j], ids[i]);
    }
  }

  lemma SameSetSeparates(r: Ranking, relays: seq<Member>)
    requires Separates(r, ActiveSet(relays))
    ensures Separates(r, set id | id in ActiveIds(relays))
  {
    ActiveIdsAreTheActiveOnes(relays);
    assert (set id | id in ActiveIds(relays)) == ActiveSet(relays);
  }

  /** The order lists every active relay exactly once, best rank first. */
  lemma OrderIsPermutation(r: Ranking, seed: string, relays: seq<Member>)
    requires TotalPreorder(r.le)
    ensures var ids := OrderedIds(r, seed, relays);
      && Distinct(ids)
      && (forall id :: id in ids <==> id in ActiveSet(relays))
      && Sorted(RankLe(r, seed), ids)
  {
    ActiveIdsAreTheActiveOnes(relays);
    SortPermutes(RankLe(r, seed), ActiveIds(relays));
    SortKeepsDistinct(RankLe(r, seed), ActiveIds(relays));
    RankIsPreorder(r, seed);
    SortSorts(RankLe(r, seed), ActiveIds(relays));
  }

  /**
   Two relays with the same active set see the same order: list order, duplicates, weights and inactive entries do
   not matter.
   */
  lemma OrderIsCanonical(r: Ranking, seed: string, relays: seq<Member>, others: seq<Member>)
    requires Separates(r, ActiveSet(relays)) && ActiveSet(relays) == ActiveSet(others)
    ensures OrderedIds(r, seed, relays) == OrderedIds(r, seed, others)
  {
    ActiveIdsAreTheActiveOnes(relays);
    ActiveIdsAreTheActiveOnes(others);
    DistinctSameSet(ActiveIds(relays), ActiveIds(others));
    SameSetSeparates(r, relays);
    RankSeparates(r, seed, ActiveIds(relays));
    RankIsPreorder(r, seed);
    SortIsCanonical(RankLe(r, seed), ActiveIds(relays), ActiveIds(others));
  }

  /** Relays that join or leave never swap two others: a smaller membership keeps the order of the larger one. */
  lemma OrderIsStable(r: Ranking, seed: string, some: seq<Member>, all: seq<Member>)
    requires Separates(r, ActiveSet(all)) && ActiveSet(some) <= ActiveSet(all)
    ensures OrderedIds(r, seed, some) == Filter(id => id in ActiveSet(some), OrderedIds(r, seed, all))
  {
    var rank := RankLe(r, seed);
    var keep := (id: string) => id in ActiveSet(some);
    var small, large := OrderedIds(r, seed, some), OrderedIds(r, seed, all);
    OrderIsPermutation(r, seed, some);
    OrderIsPermutation(r, seed, all);
    FilterKeepsSorted(rank, keep, large);
    FilterKeepsDistinct(keep, large);
    forall id ensures id in small <==> id in Filter(keep, large) {
      FilterMember(keep, large, id);
    }
    DistinctSameSet(small, Filter(keep, large));
    forall a, b | a in small && b in small && r.le(a, b) && r.le(b, a) ensures a == b {
      assert a in ActiveSet(all) && b in ActiveSet(all);
    }
    RankSeparates(r, seed, small);
    SortedIsUnique(rank, small, Filter(keep, large));
  }

  // ----- Leader

  function Max(a: int, b: int): int { if a >= b then a else b }

  function Min(a: int, b: int): int { if a <= b then a else b }

  function LeaderIndex(now: int, windowEnd: int, grace: int, n: nat): (i: int)
    requires grace > 0 && n > 0
    ensures 0 <= i < n
  {
    Min(Max(0, now - windowEnd) / grace, n - 1)
  }

  function SelectSettlementLeader(r: Ranking, input: Input): Result<Option<Leadership>, Error> {
    var ids := OrderedIds(r, input.seed, input.relays);
    if ids == [] then Ok(None)
    else
      var grace := match input.failoverGraceSeconds case Some(g) => g case None => DEFAULT_GRACE_SECONDS;
      if grace <= 0 then Err(GraceNotPositive(grace))
      else
        match input.windowEnd
        case None => Err(WindowEndNotNumeric)
        case Some(windowEnd) =>
          var index := LeaderIndex(input.nowUnixSeconds, windowEnd, grace, |ids|);
          Ok(Some(Leadership(ids, ids[index], index, grace, windowEnd + grace)))
  }

  function IsSettlementLeader(r: Ranking, input: Input, relayId: string): Result<bool, Error> {
    match SelectSettlementLeader(r, input)
    case Err(e) => Err(e)
    case Ok(None) => Ok(false)
    case Ok(Some(leadership)) => Ok(leadership.leaderId == relayId)
  }

  /** An input that does not throw and has somebody to choose from. */
  ghost predicate Electable(input: Input) {
    && ActiveSet(input.relays) != {}
    && input.windowEnd.Some?
    && (input.failoverGraceSeconds.Some? ==> input.failoverGraceSeconds.value > 0)
  }

  /**
   An election yields a leader exactly for electable inputs, no leader exactly for empty memberships, and throws
   otherwise.
   */
  lemma ElectionOutcome(r: Ranking, input: Input)
    requires TotalPreorder(r.le)
    ensures SelectSettlementLeader(r, input) == Ok(None) <==> ActiveSet(input.relays) == {}
    ensures (exists l :: SelectSettlementLeader(r, input) == Ok(Some(l))) <==> Electable(input)
  {
    OrderIsPermutation(r, input.seed, input.relays);
    var ids := OrderedIds(r, input.seed, input.relays);
    assert ids == [] <==> ActiveSet(input.relays) == {} by {
      if ids != [] { assert ids[0] in ActiveSet(input.relays); }
      if ActiveSet(input.relays) != {} { var id :| id in ActiveSet(input.relays); assert id in ids; }
    }
    if Electable(input) {
      assert SelectSettlementLeader(r, input) == Ok(Some(SelectSettlementLeader(r, input).value.value));
    }
  }

  /** At each instant exactly one relay is the leader, and it is an active one. */
  lemma ExactlyOneLeader(r: Ranking, input: Input)
    requires TotalPreorder(r.le) && Electable(input)
    ensures exists id :: id in ActiveSet(input.relays)
                    && forall x :: IsSettlementLeader(r, input, x) == Ok(true) <==> x == id
  {
    ElectionOutcome(r, input);
    OrderIsPermutation(r, input.seed, input.relays);
    var l := SelectSettlementLeader(r, input).value.value;
    assert l.leaderId in l.orderedRelayIds;
    assert forall x :: IsSettlementLeader(r, input, x) == Ok(true) <==> x == l.leaderId;
  }

  // ----- Timetable

  lemma DivIsAtLeast(a: nat, d: int, i: nat)
    requires d > 0
    ensures a / d >= i <==> a >= i * d
  {
    assert a == d * (a / d) + a % d;
    var m := a / d - i;
    assert d * m == d * (a / d) - i * d;
    MultipleIsFar(d, m);
  }

  /**
   The timetable: relay `i` leads from `i` grace periods after the window's end (the first one from any time
   before) until one period later (the last one for ever).
   */
  lemma Timetable(now: int, windowEnd: int, grace: int, n: nat, i: nat)
    requires grace > 0 && i < n
    ensures LeaderIndex(now, windowEnd, grace, n) == i
            <==> (i == 0 || now >= windowEnd + i * grace) && (i == n - 1 || now < windowEnd + (i + 1) * grace)
  {
    var elapsed := Max(0, now - windowEnd);
    DivIsAtLeast(elapsed, grace, i);
    DivIsAtLeast(elapsed, grace, i + 1);
    assert i * grace >= 0 && (i + 1) * grace == i * grace + grace;
    assert i >= 1 ==> i * grace > 0 by { if i >= 1 { MultipleIsFar(grace, i); } }
  }

  /** From the window's end on, the index is the number of whole grace periods elapsed, capped at the last relay. */
  lemma IndexAfterWindow(now: int, windowEnd: int, grace: int, n: nat)
    requires grace > 0 && n > 0 && now >= windowEnd
    ensures LeaderIndex(now, windowEnd, grace, n) == Min((now - windowEnd) / grace, n - 1)
  {
  }

  /** Leadership only moves down the order as time passes. */
  lemma IndexNeverDecreases(now: int, later: int, windowEnd: int, grace: int, n: nat)
    requires grace > 0 && n > 0 && now <= later
    ensures LeaderIndex(now, windowEnd, grace, n) <= LeaderIndex(later, windowEnd, grace, n)
  {
    var a, b := Max(0, now - windowEnd), Max(0, later - windowEnd);
    DivIsAtLeast(a, grace, a / grace);
    DivIsAtLeast(b, grace, a / grace);
  }

  /**
   Once the window is over, every grace period hands the lead to exactly the next relay, until the last one has it.
   */
  lemma HandOver(now: int, windowEnd: int, grace: int, n: nat)
    requires grace > 0 && n > 0 && now >= windowEnd
    ensures LeaderIndex(now + grace, windowEnd, grace, n) == Min(LeaderIndex(now, windowEnd, grace, n) + 1, n - 1)
  {
    IndexAfterWindow(now, windowEnd, grace, n);
    IndexAfterWindow(now + grace, windowEnd, grace, n);
    NextQuotient(now - windowEnd, grace);
  }

  lemma NextQuotient(a: nat, d: nat)
    requires d > 0
    ensures (a + d) / d == a / d + 1
  {
    var q, r := Quot(a, d), Rem(a, d);
    QuotRem(a, d);
    assert (q + 1) * d == q * d + d;
    FloorOfSum(q + 1, d, r);
  }

  /** Clocks that differ by at most one grace period disagree by at most one position. */
  lemma SkewedClocksStayClose(now: int, other: int, windowEnd: int, grace: int, n: nat)
    requires grace > 0 && n > 0 && now <= other <= now + grace
    ensures var i, j := LeaderIndex(now, windowEnd, grace, n), LeaderIndex(other, windowEnd, grace, n); i <= j <= i + 1
  {
    IndexNeverDecreases(now, other, windowEnd, grace, n);
    var a, b := Max(0, now - windowEnd), Max(0, other - windowEnd);
    assert b <= a + grace;
    DivIsAtLeast(a, grace, a / grace + 1);
    DivIsAtLeast(b, grace, a / grace + 2);
    assert (a / grace + 2) * grace == (a / grace + 1) * grace + grace;
  }

  /** The advertised primary deadline is exactly when the first relay loses the lead, if there is another one. */
  lemma PrimaryDeadline(r: Ranking, input: Input)
    requires TotalPreorder(r.le) && Electable(input)
    ensures SelectSettlementLeader(r, input).Ok? && SelectSettlementLeader(r, input).value.Some?
    ensures var l := SelectSettlementLeader(r, input).value.value;
            l.leaderId == l.orderedRelayIds[0]
            <==> |ActiveSet(input.relays)| == 1 || input.nowUnixSeconds < l.primaryDeadlineUnixSeconds
  {
    ElectionOutcome(r, input);
    OrderIsPermutation(r, input.seed, input.relays);
    var l := SelectSettlementLeader(r, input).value.value;
    DistinctSize(l.orderedRelayIds, ActiveSet(input.relays));
    Timetable(input.nowUnixSeconds, input.windowEnd.value, l.failoverGraceSeconds, |l.orderedRelayIds|, 0);
  }

  lemma {:induction false} DistinctSize(ids: seq<string>, s: set<string>)
    requires Distinct(ids) && forall id :: id in ids <==> id in s
    ensures |ids| == |s|
  {
    if ids == [] {
      assert s == {};
    } else {
      var rest := s - {ids[0]};
      forall id ensures id in ids[1..] <==> id in rest {
        assert id in ids <==> id == ids[0] || id in ids[1..];
      }
      DistinctSize(ids[1..], rest);
    }
  }

  /**
   Agreement: two relays that know the same active set, whatever lists they hold, and whose clocks differ by at
   most one grace period elect leaders that are equal or neighbours in one common order.
   */
  lemma RelaysAgree(r: Ranking, mine: Input, theirs: Input)
    requires Electable(mine) && Electable(theirs) && Separates(r, ActiveSet(mine.relays))
    requires ActiveSet(mine.relays) == ActiveSet(theirs.relays) && mine.seed == theirs.seed
    requires mine.windowEnd == theirs.windowEnd && mine.failoverGraceSeconds == theirs.failoverGraceSeconds
    requires var grace := match mine.failoverGraceSeconds case Some(g) => g case None => DEFAULT_GRACE_SECONDS;
             mine.nowUnixSeconds <= theirs.nowUnixSeconds <= mine.nowUnixSeconds + grace
    ensures SelectSettlementLeader(r, mine).Ok? && SelectSettlementLeader(r, mine).value.Some?
    ensures SelectSettlementLeader(r, theirs).Ok? && SelectSettlementLeader(r, theirs).value.Some?
    ensures var a, b := SelectSettlementLeader(r, mine).value.value, SelectSettlementLeader(r, theirs).value.value;
      && a.orderedRelayIds == b.orderedRelayIds
      && a.leaderIndex <= b.leaderIndex <= a.leaderIndex + 1
      && a.leaderId == a.orderedRelayIds[a.leaderIndex] && b.leaderId == a.orderedRelayIds[b.leaderIndex]
  {
    ElectionOutcome(r, mine);
    ElectionOutcome(r, theirs);
    OrderIsCanonical(r, mine.seed, mine.relays, theirs.relays);
    var grace := match mine.failoverGraceSeconds case Some(g) => g case None => DEFAULT_GRACE_SECONDS;
    SkewedClocksStayClose(mine.nowUnixSeconds, theirs.nowUnixSeconds, mine.windowEnd.value, grace,
      |OrderedIds(r, mine.seed, mine.relays)|);
  }

  // ----- What decides the order and the lead

  /** Best score first, under the seed of the window; relays with equal scores stand in the order of their ids. */
  lemma OrderIsByScore(r: Ranking, seed: string, relays: seq<Member>, i: nat, j: nat)
    requires TotalPreorder(r.le) && i < j < |OrderedIds(r, seed, relays)|
    ensures var ids := OrderedIds(r, seed, relays);
            var a, b := r.score(seed, ids[i]), r.score(seed, ids[j]);
      && r.le(a, b)
      && (r.le(b, a) ==> r.le(ids[i], ids[j]))
  {
    OrderIsPermutation(r, seed, relays);
    var ids := OrderedIds(r, seed, relays);
    assert RankLe(r, seed)(ids[i], ids[j]);
  }

  /**
   The timetable of an election, from its own window end and grace (five minutes if none is configured): the i-th
   relay of the order leads from i grace periods after the window until one period later, the first one from any
   time before and the last one for ever.
   */
  lemma ElectionTimetable(r: Ranking, input: Input, i: nat)
    requires TotalPreorder(r.le) && Electable(input) && i < |OrderedIds(r, input.seed, input.relays)|
    ensures SelectSettlementLeader(r, input).Ok? && SelectSettlementLeader(r, input).value.Some?
    ensures var l := SelectSettlementLeader(r, input).value.value;
            var grace := if input.failoverGraceSeconds.Some? then input.failoverGraceSeconds.value else 300;
            var last := |l.orderedRelayIds| - 1;
      && l.orderedRelayIds == OrderedIds(r, input.seed, input.relays)
      && l.failoverGraceSeconds == grace
      && l.primaryDeadlineUnixSeconds == input.windowEnd.value + grace
      && l.leaderId == l.orderedRelayIds[l.leaderIndex]
      && (l.leaderIndex == i <==>
            && (i == 0 || input.nowUnixSeconds >= input.windowEnd.value + i * grace)
            && (i == last || input.nowUnixSeconds < input.windowEnd.value + (i + 1) * grace))
  {
    ElectionOutcome(r, input);
    var grace := if input.failoverGraceSeconds.Some? then input.failoverGraceSeconds.value else 300;
    Timetable(input.nowUnixSeconds, input.windowEnd.value, grace, |OrderedIds(r, input.seed, input.relays)|, i);
  }

  /** An election that cannot be held says why: the grace is checked first, then the window end. */
  lemma ElectionErrors(r: Ranking, input: Input)
    requires TotalPreorder(r.le) && ActiveSet(input.relays) != {}
    ensures var grace := if input.failoverGraceSeconds.Some? then input.failoverGraceSeconds.value else 300;
      && (grace <= 0 ==> SelectSettlementLeader(r, input) == Err(GraceNotPositive(grace)))
      && (grace > 0 && input.windowEnd.None? ==> SelectSettlementLeader(r, input) == Err(WindowEndNotNumeric))
  {
    ElectionOutcome(r, input);
  }

  /** A relay leads exactly if it is the leader that the election names; without members nobody does. */
  lemma LeadsIff(r: Ranking, input: Input, relayId: string)
    ensures match SelectSettlementLeader(r, input)
            case Err(e) => IsSettlementLeader(r, input, relayId) == Err(e)
            case Ok(None) => IsSettlementLeader(r, input, relayId) == Ok(false)
            case Ok(Some(l)) => IsSettlementLeader(r, input, relayId) == Ok(relayId == l.leaderId)
  {
  }
}
