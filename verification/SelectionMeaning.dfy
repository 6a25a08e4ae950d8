/**
 What the two selections answer, spelled out over the fields of the input: which processors a report offers, which
 pairs of report and processor are eligible, and what a member and a candidate say about them.
 */
module SelectionMeaning {
  import opened Basics
  import opened StableSort
  import opened Selection

  // ----- The processors of a report

  /** All references of a report with the scopes that list them, in order. */
  function References(scopes: seq<Scope>): seq<(Scope, string)> {
    if scopes == [] then []
    else References(scopes[..|scopes| - 1]) + ReferencesOf(scopes[|scopes| - 1])
  }

  function ReferencesOf(scope: Scope): seq<(Scope, string)> {
    var raws :=
      if scope.processors.Some? then scope.processors.value
      else if !scope.explicitKind && scope.includeProcessors.Some? then scope.includeProcessors.value
      else [];
    seq(|raws|, i requires 0 <= i < |raws| => (scope, raws[i]))
  }

  /** The reference names the processor, and its own scope does not exclude it. */
  ghost predicate Reaches(env: Env, reference: (Scope, string), id: string) {
    && id != ""
    && env.refToId(reference.1) == Some(id)
    && (reference.0.excludeProcessors.Some? ==>
          forall raw | raw in reference.0.excludeProcessors.value :: env.refToId(raw) != Some(id))
  }

  /** The `k`-th reference is the first to reach the processor, and describes it. */
  ghost predicate Introduces(env: Env, refs: seq<(Scope, string)>, k: nat, p: Processor)
    requires k < |refs|
  {
    && Reaches(env, refs[k], p.processorId)
    && (forall j | 0 <= j < k :: !Reaches(env, refs[j], p.processorId))
    && p.address == (if env.isHexId(refs[k].1) then None else Some(refs[k].1))
    && p.managerId == refs[k].0.managerId
  }

  /** `positions` are, in order, the references that introduce the processors of the list, and there are no others. */
  ghost predicate IntroducedAt(env: Env, refs: seq<(Scope, string)>, ps: seq<Processor>, positions: seq<nat>) {
    && |positions| == |ps|
    && (forall n | 0 <= n < |ps| :: positions[n] < |refs| && Introduces(env, refs, positions[n], ps[n]))
    && (forall m, n | 0 <= m < n < |ps| :: positions[m] < positions[n])
    && (forall k, id | 0 <= k < |refs| && Reaches(env, refs[k], id) :: Lists(ps, id))
  }

  function AddRefs(env: Env, found: seq<Processor>, refs: seq<(Scope, string)>): seq<Processor> {
    if refs == [] then found
    else
      var last := refs[|refs| - 1];
      AddProcessor(env, last.0, AddRefs(env, found, refs[..|refs| - 1]), last.1)
  }

  lemma {:induction false} AddRefsConcat(
    env: Env, found: seq<Processor>, a: seq<(Scope, string)>, b: seq<(Scope, string)>)
    ensures AddRefs(env, found, a + b) == AddRefs(env, AddRefs(env, found, a), b)
    decreases |b|
  {
    if b == [] {
      assert a + b == a;
    } else {
      assert (a + b)[..|a + b| - 1] == a + b[..|b| - 1];
      AddRefsConcat(env, found, a, b[..|b| - 1]);
    }
  }

  function Pairs(scope: Scope, raws: seq<string>): (r: seq<(Scope, string)>)
    ensures |r| == |raws| && forall i | 0 <= i < |r| :: r[i] == (scope, raws[i])
  {
    seq(|raws|, i requires 0 <= i < |raws| => (scope, raws[i]))
  }

  lemma {:induction false} AddAllIsAddRefs(env: Env, scope: Scope, found: seq<Processor>, raws: seq<string>)
    ensures AddAll(env, scope, found, raws) == AddRefs(env, found, Pairs(scope, raws))
    decreases |raws|
  {
    if raws != [] {
      var n := |raws| - 1;
      AddAllIsAddRefs(env, scope, found, raws[..n]);
      assert Pairs(scope, raws)[..n] == Pairs(scope, raws[..n]);
    }
  }

  lemma {:induction false} ExpandedIsAddRefs(env: Env, scopes: seq<Scope>)
    ensures Expanded(env, scopes) == AddRefs(env, [], References(scopes))
    decreases |scopes|
  {
    if scopes != [] {
      var n := |scopes| - 1;
      ExpandedIsAddRefs(env, scopes[..n]);
      AddAllIsAddRefs(env, scopes[n], Expanded(env, scopes[..n]), RawProcessors(scopes[n]));
      assert ReferencesOf(scopes[n]) == Pairs(scopes[n], RawProcessors(scopes[n]));
      AddRefsConcat(env, [], References(scopes[..n]), ReferencesOf(scopes[n]));
    }
  }

  /** Adding a reference introduces its processor if no earlier one has reached it. */
  lemma ReferenceAdds(
    env: Env, refs: seq<(Scope, string)>, reference: (Scope, string), ps: seq<Processor>, positions: seq<nat>)
    returns (more: seq<nat>)
    requires IntroducedAt(env, refs, ps, positions)
    ensures IntroducedAt(env, refs + [reference], AddProcessor(env, reference.0, ps, reference.1), more)
  {
    var all := refs + [reference];
    var qs := AddProcessor(env, reference.0, ps, reference.1);
    var n := |refs|;
    assert forall k | 0 <= k < n :: all[k] == refs[k];
    forall k | 0 <= k < |ps| ensures Introduces(env, all, positions[k], ps[k]) {
    }
    if qs == ps {
      more := positions;
      forall id | Reaches(env, reference, id) ensures Lists(ps, id) {
      }
    } else {
      var p := qs[|ps|];
      more := positions + [n];
      forall j | 0 <= j < n ensures !Reaches(env, all[j], p.processorId) {
      }
      assert Reaches(env, all[n], p.processorId);
      assert Introduces(env, all, n, p);
      forall k, id | 0 <= k < |all| && Reaches(env, all[k], id) ensures Lists(qs, id) {
        if k < n {
          assert Reaches(env, refs[k], id) && Lists(ps, id);
          var q :| q in ps && q.processorId == id;
          assert q in qs;
        } else {
          assert p in qs;
        }
      }
    }
  }

  lemma {:induction false} Introductions(env: Env, refs: seq<(Scope, string)>) returns (positions: seq<nat>)
    ensures IntroducedAt(env, refs, AddRefs(env, [], refs), positions)
    decreases |refs|
  {
    if refs == [] {
      positions := [];
    } else {
      var n := |refs| - 1;
      var before := Introductions(env, refs[..n]);
      positions := ReferenceAdds(env, refs[..n], refs[n], AddRefs(env, [], refs[..n]), before);
      assert refs == refs[..n] + [refs[n]];
    }
  }

  /**
   A report's processors stand in the order of the references that first reach them; each has the address and manager
   of that reference; and every processor that some reference reaches is there.
   */
  lemma ExpandedIntroduced(env: Env, scopes: seq<Scope>) returns (positions: seq<nat>)
    ensures IntroducedAt(env, References(scopes), Expanded(env, scopes), positions)
  {
    ExpandedIsAddRefs(env, scopes);
    positions := Introductions(env, References(scopes));
  }

  /** The report offers this processor. */
  ghost predicate Offers(env: Env, scopes: seq<Scope>, p: Processor) {
    exists k :: 0 <= k < |References(scopes)| && Introduces(env, References(scopes), k, p)
  }

  lemma OffersIff(env: Env, scopes: seq<Scope>, p: Processor)
    ensures p in Expanded(env, scopes) <==> Offers(env, scopes, p)
  {
    var refs, ps := References(scopes), Expanded(env, scopes);
    var positions := ExpandedIntroduced(env, scopes);
    if p in ps {
      var n :| 0 <= n < |ps| && ps[n] == p;
      assert Introduces(env, refs, positions[n], p);
    }
    if k :| 0 <= k < |refs| && Introduces(env, refs, k, p) {
      assert Lists(ps, p.processorId);
      var q :| q in ps && q.processorId == p.processorId;
      var n :| 0 <= n < |ps| && ps[n] == q;
      SameIntroduction(env, refs, k, p, positions[n], q);
    }
  }

  lemma SameIntroduction(env: Env, refs: seq<(Scope, string)>, j: nat, p: Processor, k: nat, q: Processor)
    requires j < |refs| && k < |refs| && p.processorId == q.processorId
    requires Introduces(env, refs, j, p) && Introduces(env, refs, k, q)
    ensures p == q
  {
    assert !(j < k) && !(k < j);
  }

  // ----- Eligibility

  /** The profile that counts for an operator: the last one with its id in lower case. */
  ghost predicate Governs(env: Env, profiles: seq<Profile>, operatorId: string, profile: Profile) {
    exists k :: 0 <= k < |profiles| && LastFor(env, profiles, operatorId, k) && profiles[k] == profile
  }

  ghost predicate LastFor(env: Env, profiles: seq<Profile>, operatorId: string, k: nat)
    requires k < |profiles|
  {
    && env.lower(profiles[k].operatorId) == env.lower(operatorId)
    && forall j | k < j < |profiles| :: env.lower(profiles[j].operatorId) != env.lower(operatorId)
  }

  lemma {:induction false} GovernsIff(env: Env, profiles: seq<Profile>, operatorId: string, profile: Profile)
    ensures Governs(env, profiles, operatorId, profile)
            <==> ProfileOf(env, profiles, env.lower(operatorId)) == Some(profile)
    decreases |profiles|
  {
    if profiles != [] {
      var n := |profiles| - 1;
      var before := profiles[..n];
      GovernsIff(env, before, operatorId, profile);
      if env.lower(profiles[n].operatorId) == env.lower(operatorId) {
        assert LastFor(env, profiles, operatorId, n);
      } else {
        forall k | 0 <= k < n ensures LastFor(env, profiles, operatorId, k) <==> LastFor(env, before, operatorId, k) {
          assert forall j | k < j < n :: profiles[j] == before[j];
        }
        if k :| 0 <= k < |before| && LastFor(env, before, operatorId, k) && before[k] == profile {
          assert profiles[k] == profile;
        }
      }
    }
  }

  ghost predicate Authorised(env: Env, profile: Profile, signer: string) {
    exists k :: 0 <= k < |profile.reportSigners| && env.sameSigner(profile.reportSigners[k], signer)
  }

  /** A URL for this gateway in a profile that lists no other gateway. */
  predicate OwnUrl(url: Option<string>, profile: Profile, report: Report) {
    url.Some? && url.value != "" && profile.gatewayIds == [report.gatewayId]
  }

  predicate OffersRouteState(profile: Profile, report: Report) {
    if report.routeStateUrl.Some? then report.routeStateUrl.value != ""
    else OwnUrl(profile.routeStateUrl, profile, report)
  }

  /** Everything the source asks of a report and one of its processors, field by field. */
  ghost predicate Admissible(
    env: Env, input: Input, gatewayId: Option<string>, stored: Stored, profile: Profile, p: Processor)
  {
    var report := stored.report;
    && Governs(env, input.profiles, report.operatorId, profile)
    && profile.active
    && (input.operatorId.Some? && input.operatorId.value != "" ==>
          env.lower(report.operatorId) == env.lower(input.operatorId.value))
    && (gatewayId.Some? && gatewayId.value != "" ==> report.gatewayId == gatewayId.value)
    && input.now < report.expiresAt
    && Authorised(env, profile, stored.signer)
    && (|profile.gatewayIds| == 0 || report.gatewayId in profile.gatewayIds)
    && report.activeRouteCount < report.routeCapacity
    && report.processorDiscoveryFresh != Some(false)
    && (input.requireRouteStateUrl ==> OffersRouteState(profile, report) && report.routeStateHealthy != Some(false))
    && Offers(env, report.scopes, p)
    && (input.processorId.Some? && input.processorId.value != "" ==>
          p.processorId == env.lower(input.processorId.value))
    && (|profile.processorIds| == 0 || p.processorId in profile.processorIds)
    && (|profile.managerIds| == 0 || p.managerId == None || p.managerId == Some("")
        || p.managerId.value in profile.managerIds)
  }

  lemma AuthorisedIff(env: Env, profile: Profile, signer: string)
    ensures SignerAllowed(env, profile, signer) <==> Authorised(env, profile, signer)
  {
    if s :| s in profile.reportSigners && env.sameSigner(s, signer) {
      var k :| 0 <= k < |profile.reportSigners| && profile.reportSigners[k] == s;
    }
  }

  lemma RouteStateIff(profile: Profile, report: Report)
    ensures Truthy(RouteStateUrl(profile, report)) <==> OffersRouteState(profile, report)
  {
    assert profile.gatewayIds == [report.gatewayId]
           <==> |profile.gatewayIds| == 1 && profile.gatewayIds[0] == report.gatewayId;
  }

  lemma AdmissibleIff(env: Env, input: Input, gatewayId: Option<string>, stored: Stored, profile: Profile, p: Processor)
    ensures Admissible(env, input, gatewayId, stored, profile, p)
            <==> EligiblePair(env, input, gatewayId, stored, p)
                 && profile == ProfileOf(env, input.profiles, env.lower(stored.report.operatorId)).value
  {
    GovernsIff(env, input.profiles, stored.report.operatorId, profile);
    AuthorisedIff(env, profile, stored.signer);
    RouteStateIff(profile, stored.report);
    OffersIff(env, stored.report.scopes, p);
  }

  // ----- What is shown of a pair

  /** The listed admission modes that exist, each at its first place; direct posting if none are listed. */
  ghost predicate Modes(report: Report, modes: seq<string>) {
    var listed := if report.upstreamAdmissionModes.Some? && |report.upstreamAdmissionModes.value| > 0
                  then report.upstreamAdmissionModes.value else ["direct-post"];
    && (forall x :: x in modes <==> x in listed && (x == "direct-post" || x == "relay-pull"))
    && Distinct(modes)
    && (forall i, j | 0 <= i < j < |modes| :: Before(listed, modes[i], modes[j]))
  }

  /** Some occurrence of `x` comes before every one of `y`. */
  ghost predicate Before(xs: seq<string>, x: string, y: string) {
    exists i :: 0 <= i < |xs| && xs[i] == x && forall j | 0 <= j <= i :: xs[j] != y
  }

  lemma BeforeLater(xs: seq<string>, x: string, y: string, last: string)
    requires Before(xs, x, y)
    ensures Before(xs + [last], x, y)
  {
    var i :| 0 <= i < |xs| && xs[i] == x && forall j | 0 <= j <= i :: xs[j] != y;
    assert (xs + [last])[i] == x && forall j | 0 <= j <= i :: (xs + [last])[j] == xs[j];
  }

  lemma {:induction false} UniqueKeepsOrder(values: seq<string>)
    ensures var r := UniqueNonEmpty(values);
      && Distinct(r)
      && (forall x :: x in r <==> x in values && x != "")
      && (forall i, j | 0 <= i < j < |r| :: Before(values, r[i], r[j]))
    decreases |values|
  {
    if values != [] {
      var n := |values| - 1;
      var before, last := UniqueNonEmpty(values[..n]), values[n];
      UniqueKeepsOrder(values[..n]);
      assert values == values[..n] + [last];
      var r := UniqueNonEmpty(values);
      forall i, j | 0 <= i < j < |r| ensures Before(values, r[i], r[j]) {
        if j < |before| {
          BeforeLater(values[..n], r[i], r[j], last);
        } else {
          assert r[i] in before && r[i] in values[..n];
          var k :| 0 <= k < n && values[..n][k] == r[i];
          assert values[k] == r[i] && forall m | 0 <= m <= k :: values[m] in values[..n];
        }
      }
    }
  }

  lemma {:induction false} FilterKeepsOrder(keep: string -> bool, xs: seq<string>, values: seq<string>)
    requires Distinct(xs) && forall i, j | 0 <= i < j < |xs| :: Before(values, xs[i], xs[j])
    ensures var r := Filter(keep, xs); forall i, j | 0 <= i < j < |r| :: Before(values, r[i], r[j])
    decreases |xs|
  {
    if xs != [] {
      FilterKeepsOrder(keep, xs[1..], values);
      var rest := Filter(keep, xs[1..]);
      forall j | 0 <= j < |rest| ensures Before(values, xs[0], rest[j]) {
        FilterMember(keep, xs[1..], rest[j]);
        var k :| 0 <= k < |xs[1..]| && xs[1..][k] == rest[j];
        assert xs[k + 1] == rest[j];
      }
    }
  }

  lemma ModesAre(report: Report)
    ensures Modes(report, UpstreamAdmissionModes(report))
  {
    var listed := if report.upstreamAdmissionModes.Some? && |report.upstreamAdmissionModes.value| > 0
                  then report.upstreamAdmissionModes.value else ["direct-post"];
    var keep := (mode: string) => mode == "direct-post" || mode == "relay-pull";
    UniqueKeepsOrder(listed);
    FilterKeepsOrder(keep, UniqueNonEmpty(listed), listed);
    FilterKeepsDistinct(keep, UniqueNonEmpty(listed));
    assert UpstreamAdmissionModes(report) == Filter(keep, UniqueNonEmpty(listed));
    forall x ensures x in Filter(keep, UniqueNonEmpty(listed)) <==> x in UniqueNonEmpty(listed) && keep(x) {
      FilterMember(keep, UniqueNonEmpty(listed), x);
    }
  }

  /** What a capacity member says, field by field. */
  ghost predicate ShowsMember(
    env: Env, input: Input, stored: Stored, profile: Profile, p: Processor, m: CapacityMember)
  {
    var report := stored.report;
    && m.operatorId == env.lower(report.operatorId) && m.gatewayId == report.gatewayId
    && m.processorId == p.processorId && m.managerId == p.managerId
    && m.processor == (match p.address case Some(address) => address case None => p.processorId)
    && m.reportId == report.reportId && m.reportedAt == report.reportedAt && m.expiresAt == report.expiresAt
    && m.activeRouteCount == report.activeRouteCount && m.routeCapacity == report.routeCapacity
    && m.activeRouteCount + m.availableRouteSlots == m.routeCapacity
    && m.publicAddresses == report.publicAddresses
    && m.routeStateAvailable == (OffersRouteState(profile, report) && report.routeStateHealthy != Some(false))
    && m.routeStateHealthy == report.routeStateHealthy
    && m.routeStateLastSuccessAt == report.routeStateLastSuccessAt
    && m.processorDiscoveryFresh == report.processorDiscoveryFresh
    && m.reportedProcessorCount == report.reportedProcessorCount && m.supportedClasses == report.supportedClasses
    && Modes(report, m.upstreamAdmissionModes)
    && m.sourceRelayId == input.sourceRelayId && m.sourceRelayUrl == input.sourceRelayUrl
  }

  /** What a candidate says, field by field. */
  ghost predicate ShowsCandidate(
    env: Env, input: Input, requireSink: bool, stored: Stored, profile: Profile, p: Processor, c: Candidate)
  {
    var report := stored.report;
    && c.operatorId == env.lower(report.operatorId) && c.gatewayId == report.gatewayId
    && c.processorId == p.processorId && c.processorAddress == p.address && c.managerId == p.managerId
    && c.reportId == report.reportId && c.reportExpiresAt == report.expiresAt && c.reportSigner == stored.signer
    && c.publicAddresses == report.publicAddresses
    && c.activeRouteCount == report.activeRouteCount && c.routeCapacity == report.routeCapacity
    && c.routeStateUrl == (if report.routeStateUrl.Some? then report.routeStateUrl
                           else if OwnUrl(profile.routeStateUrl, profile, report) then profile.routeStateUrl else None)
    && c.routeIntentUrl == (if OwnUrl(profile.routeIntentUrl, profile, report) then profile.routeIntentUrl else None)
    && c.upstreamAdmissionUrl == MappedUrl(profile, report)
    && Modes(report, c.upstreamAdmissionModes)
    && c.routeIntentTokenEnv == profile.routeIntentTokenEnv
    && c.selectionReasons == Reasons(input.requireRouteStateUrl, requireSink, p.managerId)
  }

  /** The admission URL listed for the gateway, or else the profile's own. */
  function MappedUrl(profile: Profile, report: Report): Option<string> {
    match profile.upstreamAdmissionUrls
    case Some(urls) =>
      if report.gatewayId in urls && urls[report.gatewayId] != "" then Some(urls[report.gatewayId])
      else if OwnUrl(profile.upstreamAdmissionUrl, profile, report) then profile.upstreamAdmissionUrl else None
    case None => if OwnUrl(profile.upstreamAdmissionUrl, profile, report) then profile.upstreamAdmissionUrl else None
  }

  function Reasons(routeState: bool, sink: bool, managerId: Option<string>): seq<string> {
    var base := ["operator-profile-active", "capability-report-fresh", "gateway-capacity-available"];
    var last := if managerId == None || managerId == Some("") then "explicit-processor" else "manager-scoped-processor";
    match (routeState, sink)
    case (true, true) => base + ["route-state-polling", "route-intent-sink", last]
    case (true, false) => base + ["route-state-polling", last]
    case (false, true) => base + ["route-intent-sink", last]
    case (false, false) => base + [last]
  }

  lemma MemberShows(env: Env, input: Input, stored: Stored, profile: Profile, p: Processor)
    requires stored.report.activeRouteCount < stored.report.routeCapacity
    ensures ShowsMember(env, input, stored, profile, p, MemberOf(env, input, profile, stored, p))
  {
    RouteStateIff(profile, stored.report);
    ModesAre(stored.report);
  }

  lemma OwnUrlIs(url: Option<string>, profile: Profile, report: Report)
    ensures ProfileUrlForGateway(url, profile, report.gatewayId) == if OwnUrl(url, profile, report) then url else None
  {
    assert profile.gatewayIds == [report.gatewayId]
           <==> |profile.gatewayIds| == 1 && profile.gatewayIds[0] == report.gatewayId;
  }

  lemma CandidateShows(env: Env, input: Input, requireSink: bool, stored: Stored, profile: Profile, p: Processor)
    ensures ShowsCandidate(env, input, requireSink, stored, profile, p,
                           CandidateOf(env, input, requireSink, profile, stored, p))
  {
    OwnUrlIs(profile.routeStateUrl, profile, stored.report);
    OwnUrlIs(profile.routeIntentUrl, profile, stored.report);
    OwnUrlIs(profile.upstreamAdmissionUrl, profile, stored.report);
    ModesAre(stored.report);
    ReasonsAre(input, requireSink, p);
  }

  lemma ReasonsAre(input: Input, requireSink: bool, p: Processor)
    ensures SelectionReasons(input, requireSink, p) == Reasons(input.requireRouteStateUrl, requireSink, p.managerId)
  {
  }

  // ----- Main results

  /** A member stands for an admissible pair and says what that pair is. */
  ghost predicate StandsFor(
    env: Env, input: Input, gatewayId: Option<string>, stored: Stored, profile: Profile, p: Processor,
    m: CapacityMember)
  {
    Admissible(env, input, gatewayId, stored, profile, p) && ShowsMember(env, input, stored, profile, p, m)
  }

  /** Every member of the full listing stands for an admissible pair of the input. */
  lemma MembersAreAdmissible(env: Env, input: Input, gatewayId: Option<string>, m: CapacityMember)
    requires m in MembersOfReports(env, input, gatewayId, SortedReports(input))
    ensures exists stored, profile, p ::
      stored in input.reports && StandsFor(env, input, gatewayId, stored, profile, p, m)
  {
    MembersAreTheEligiblePairs(env, input, gatewayId);
    var stored, p :| stored in input.reports && MadeFrom(env, input, gatewayId, stored, p, m);
    var profile := ProfileOf(env, input.profiles, env.lower(stored.report.operatorId)).value;
    AdmissibleIff(env, input, gatewayId, stored, profile, p);
    MemberShows(env, input, stored, profile, p);
    assert StandsFor(env, input, gatewayId, stored, profile, p, m);
  }

  /** And every admissible pair of the input has its member there. */
  lemma AdmissibleAreMembers(
    env: Env, input: Input, gatewayId: Option<string>, stored: Stored, profile: Profile, p: Processor)
    returns (m: CapacityMember)
    requires stored in input.reports && Admissible(env, input, gatewayId, stored, profile, p)
    ensures m in MembersOfReports(env, input, gatewayId, SortedReports(input))
    ensures ShowsMember(env, input, stored, profile, p, m)
  {
    AdmissibleIff(env, input, gatewayId, stored, profile, p);
    m := MemberOf(env, input, profile, stored, p);
    MemberShows(env, input, stored, profile, p);
    assert MadeFrom(env, input, gatewayId, stored, p, m);
    MembersAreTheEligiblePairs(env, input, gatewayId);
  }

  /** The pair that an early-exit selection may take. */
  ghost predicate Selectable(
    env: Env, input: Input, requireSink: bool, stored: Stored, profile: Profile, p: Processor)
  {
    && Admissible(env, input, None, stored, profile, p)
    && (requireSink ==> OwnUrl(profile.routeIntentUrl, profile, stored.report))
  }

  lemma {:induction false} FirstProcessorFrom(
    env: Env, input: Input, requireSink: bool, profile: Profile, stored: Stored, ps: seq<Processor>)
    ensures var c := FirstOfProcessors(env, input, requireSink, profile, stored, ps);
      && (c.Some? <==> exists p :: p in ps && ProcessorEligible(env, input, profile, p))
      && (c.Some? ==> exists p :: p in ps && ProcessorEligible(env, input, profile, p)
                                  && c == Some(CandidateOf(env, input, requireSink, profile, stored, p)))
    decreases |ps|
  {
    if ps != [] {
      FirstProcessorFrom(env, input, requireSink, profile, stored, ps[1..]);
      assert ps == [ps[0]] + ps[1..];
    }
  }

  lemma FirstReportFrom(env: Env, input: Input, requireSink: bool, stored: Stored)
    ensures var c := FirstOfReport(env, input, requireSink, stored);
      && (c.Some? ==> exists profile, p ::
            Selectable(env, input, requireSink, stored, profile, p)
            && ShowsCandidate(env, input, requireSink, stored, profile, p, c.value))
      && ((exists profile, p :: Selectable(env, input, requireSink, stored, profile, p)) ==> c.Some?)
  {
    var found := ProfileOf(env, input.profiles, env.lower(stored.report.operatorId));
    var c := FirstOfReport(env, input, requireSink, stored);
    if found.Some? {
      var profile, ps := found.value, Expanded(env, stored.report.scopes);
      FirstProcessorFrom(env, input, requireSink, profile, stored, ps);
      OwnUrlIs(profile.routeIntentUrl, profile, stored.report);
      if c.Some? {
        var p :| p in ps && ProcessorEligible(env, input, profile, p)
                 && c == Some(CandidateOf(env, input, requireSink, profile, stored, p));
        AdmissibleIff(env, input, None, stored, profile, p);
        CandidateShows(env, input, requireSink, stored, profile, p);
        assert Selectable(env, input, requireSink, stored, profile, p);
      }
    }
    if profile, p :| Selectable(env, input, requireSink, stored, profile, p) {
      AdmissibleIff(env, input, None, stored, profile, p);
    }
  }

  ghost predicate SelectableIn(env: Env, input: Input, requireSink: bool, stored: Stored) {
    exists profile, p :: Selectable(env, input, requireSink, stored, profile, p)
  }

  ghost predicate Chosen(env: Env, input: Input, requireSink: bool, stored: Stored, c: Candidate) {
    exists profile, p ::
      Selectable(env, input, requireSink, stored, profile, p)
      && ShowsCandidate(env, input, requireSink, stored, profile, p, c)
  }

  /** None of the first `n` reports can be taken. */
  ghost predicate NoneBefore(env: Env, input: Input, requireSink: bool, reports: seq<Stored>, n: nat)
    requires n <= |reports|
  {
    forall j | 0 <= j < n :: !SelectableIn(env, input, requireSink, reports[j])
  }

  /** The candidate comes from the first report that can be taken. */
  ghost predicate TakenAt(
    env: Env, input: Input, requireSink: bool, reports: seq<Stored>, i: nat, c: Candidate)
    requires i < |reports|
  {
    Chosen(env, input, requireSink, reports[i], c) && NoneBefore(env, input, requireSink, reports, i)
  }

  lemma NoneBeforeShift(env: Env, input: Input, requireSink: bool, reports: seq<Stored>, n: nat)
    requires n < |reports| && !SelectableIn(env, input, requireSink, reports[0])
    requires NoneBefore(env, input, requireSink, reports[1..], n)
    ensures NoneBefore(env, input, requireSink, reports, n + 1)
  {
    forall j | 0 <= j < n + 1 ensures !SelectableIn(env, input, requireSink, reports[j]) {
      if j > 0 { assert reports[j] == reports[1..][j - 1]; }
    }
  }

  lemma TakenShift(env: Env, input: Input, requireSink: bool, reports: seq<Stored>, i: nat, c: Candidate)
    requires i + 1 < |reports| && !SelectableIn(env, input, requireSink, reports[0])
    requires TakenAt(env, input, requireSink, reports[1..], i, c)
    ensures TakenAt(env, input, requireSink, reports, i + 1, c)
  {
    NoneBeforeShift(env, input, requireSink, reports, i);
    assert reports[i + 1] == reports[1..][i];
  }

  lemma {:induction false} FirstReportsFrom(env: Env, input: Input, requireSink: bool, reports: seq<Stored>)
    returns (i: nat)
    ensures i <= |reports|
    ensures var c := FirstOfReports(env, input, requireSink, reports);
      if c.Some? then i < |reports| && TakenAt(env, input, requireSink, reports, i, c.value)
      else NoneBefore(env, input, requireSink, reports, |reports|)
    decreases |reports|
  {
    i := 0;
    if reports != [] {
      FirstReportFrom(env, input, requireSink, reports[0]);
      if FirstOfReport(env, input, requireSink, reports[0]).None? {
        var k := FirstReportsFrom(env, input, requireSink, reports[1..]);
        if FirstOfReports(env, input, requireSink, reports[1..]).Some? {
          i := k + 1;
          TakenShift(env, input, requireSink, reports, k, FirstOfReports(env, input, requireSink, reports[1..]).value);
        } else {
          NoneBeforeShift(env, input, requireSink, reports, |reports| - 1);
        }
      }
    }
  }

  /** No report of the input that could be taken is newer than this one. */
  ghost predicate Newest(env: Env, input: Input, requireSink: bool, stored: Stored) {
    forall other | other in input.reports && SelectableIn(env, input, requireSink, other) ::
      other.report.reportedAt <= stored.report.reportedAt
  }

  lemma FirstIsNewest(env: Env, input: Input, requireSink: bool, i: nat)
    requires i < |SortedReports(input)| && NoneBefore(env, input, requireSink, SortedReports(input), i)
    ensures SortedReports(input)[i] in input.reports
    ensures Newest(env, input, requireSink, SortedReports(input)[i])
  {
    var reports := SortedReports(input);
    SortPermutes(NewestFirst(), input.reports);
    assert TotalPreorder(NewestFirst());
    SortSorts(NewestFirst(), input.reports);
    assert reports[i] in reports;
    forall other | other in input.reports && SelectableIn(env, input, requireSink, other)
      ensures other.report.reportedAt <= reports[i].report.reportedAt
    {
      assert other in reports;
      var k :| 0 <= k < |reports| && reports[k] == other;
      if i < k {
        assert NewestFirst()(reports[i], reports[k]);
      }
    }
  }

  lemma NoneInInput(env: Env, input: Input, requireSink: bool)
    requires NoneBefore(env, input, requireSink, SortedReports(input), |SortedReports(input)|)
    ensures forall stored | stored in input.reports :: !SelectableIn(env, input, requireSink, stored)
  {
    var reports := SortedReports(input);
    SortPermutes(NewestFirst(), input.reports);
    forall stored | stored in input.reports ensures !SelectableIn(env, input, requireSink, stored) {
      assert stored in reports;
      var k :| 0 <= k < |reports| && reports[k] == stored;
    }
  }

  /**
   The candidate of the early-exit selection: there is one exactly when some stored report of the input has an
   admissible processor (and a route-intent URL, if one is required), and it comes from a newest such report.
   */
  lemma CandidateIsAdmissible(env: Env, input: Input, requireSink: bool)
    ensures var c := FirstOfReports(env, input, requireSink, SortedReports(input));
      && (c.Some? <==> exists stored :: stored in input.reports && SelectableIn(env, input, requireSink, stored))
      && (c.Some? ==> exists stored ::
            && stored in input.reports && Chosen(env, input, requireSink, stored, c.value)
            && Newest(env, input, requireSink, stored))
  {
    var c := FirstOfReports(env, input, requireSink, SortedReports(input));
    var i := FirstReportsFrom(env, input, requireSink, SortedReports(input));
    if c.Some? {
      FirstIsNewest(env, input, requireSink, i);
      ChosenIsSelectable(env, input, requireSink, SortedReports(input)[i], c.value);
    } else {
      NoneInInput(env, input, requireSink);
    }
  }

  lemma ChosenIsSelectable(env: Env, input: Input, requireSink: bool, stored: Stored, c: Candidate)
    requires Chosen(env, input, requireSink, stored, c)
    ensures SelectableIn(env, input, requireSink, stored)
  {
    var profile, p :| Selectable(env, input, requireSink, stored, profile, p)
                      && ShowsCandidate(env, input, requireSink, stored, profile, p, c);
    assert Selectable(env, input, requireSink, stored, profile, p);
  }
}
