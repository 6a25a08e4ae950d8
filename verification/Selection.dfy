/**
 Choosing gateways and processors from operator capability reports: the early-exit selection of one candidate
 and the full listing of capacity members.  Lower-casing, processor references, signer comparison and the
 hexadecimal-id test are arbitrary functions; dates are the milliseconds they parse to.
 */
module Selection {
  import opened Basics
  import opened StableSort

  datatype Env = Env(
    lower: string -> string,
    refToId: string -> Option<string>,
    isHexId: string -> bool,
    sameSigner: (string, string) -> bool)

  datatype Scope = Scope(
    explicitKind: bool, managerId: Option<string>, processors: Option<seq<string>>,
    includeProcessors: Option<seq<string>>, excludeProcessors: Option<seq<string>>)

  datatype Report = Report(
    reportId: string, reportedAt: int, expiresAt: int, operatorId: string, gatewayId: string,
    publicAddresses: seq<string>, routeStateUrl: Option<string>, routeStateHealthy: Option<bool>,
    routeStateLastSuccessAt: Option<string>, activeRouteCount: nat, routeCapacity: nat,
    processorDiscoveryFresh: Option<bool>, reportedProcessorCount: Option<nat>, supportedClasses: seq<string>,
    upstreamAdmissionModes: Option<seq<string>>, scopes: seq<Scope>)

  datatype Stored = Stored(signer: string, report: Report)

  datatype Profile = Profile(
    operatorId: string, active: bool, reportSigners: seq<string>, gatewayIds: seq<string>, managerIds: seq<string>,
    processorIds: seq<string>, routeStateUrl: Option<string>, routeIntentUrl: Option<string>,
    routeIntentTokenEnv: Option<string>, upstreamAdmissionUrl: Option<string>,
    upstreamAdmissionUrls: Option<map<string, string>>)

  datatype Processor = Processor(processorId: string, address: Option<string>, managerId: Option<string>)

  datatype Input = Input(
    profiles: seq<Profile>, reports: seq<Stored>, now: int, operatorId: Option<string>, processorId: Option<string>,
    requireRouteStateUrl: bool, sourceRelayId: Option<string>, sourceRelayUrl: Option<string>)

  datatype Candidate = Candidate(
    operatorId: string, gatewayId: string, processorId: string, processorAddress: Option<string>,
    managerId: Option<string>, reportId: string, reportExpiresAt: int, reportSigner: string,
    publicAddresses: seq<string>, activeRouteCount: nat, routeCapacity: nat, routeStateUrl: Option<string>,
    routeIntentUrl: Option<string>, upstreamAdmissionUrl: Option<string>, upstreamAdmissionModes: seq<string>,
    routeIntentTokenEnv: Option<string>, selectionReasons: seq<string>)

  datatype CapacityMember = CapacityMember(
    operatorId: string, gatewayId: string, processor: string, processorId: string, managerId: Option<string>,
    reportId: string, reportedAt: int, expiresAt: int, activeRouteCount: nat, routeCapacity: nat,
    availableRouteSlots: nat, publicAddresses: seq<string>, routeStateAvailable: bool,
    routeStateHealthy: Option<bool>, routeStateLastSuccessAt: Option<string>, processorDiscoveryFresh: Option<bool>,
    reportedProcessorCount: Option<nat>, supportedClasses: seq<string>, upstreamAdmissionModes: seq<string>,
    sourceRelayId: Option<string>, sourceRelayUrl: Option<string>)

  // ----- Small pieces

  /** A JavaScript string that is present and not empty. */
  predicate Truthy(s: Option<string>) {
    s.Some? && s.value != ""
  }

  /** `new Map(entries)`: the last profile of an operator wins. */
  function ProfileOf(env: Env, profiles: seq<Profile>, operatorId: string): Option<Profile> {
    if profiles == [] then None
    else
      var last := profiles[|profiles| - 1];
      if env.lower(last.operatorId) == operatorId then Some(last)
      else ProfileOf(env, profiles[..|profiles| - 1], operatorId)
  }

  function UniqueNonEmpty(values: seq<string>): seq<string> {
    if values == [] then []
    else
      var before := UniqueNonEmpty(values[..|values| - 1]);
      var last := values[|values| - 1];
      if last == "" || last in before then before else before + [last]
  }

  function UpstreamAdmissionModes(report: Report): seq<string> {
    var modes := if report.upstreamAdmissionModes.Some? && report.upstreamAdmissionModes.value != []
                 then report.upstreamAdmissionModes.value else ["direct-post"];
    Filter(mode => mode == "direct-post" || mode == "relay-pull", UniqueNonEmpty(modes))
  }

  /** A profile URL applies only to the one gateway the profile lists. */
  function ProfileUrlForGateway(url: Option<string>, profile: Profile, gatewayId: string): Option<string> {
    if Truthy(url) && |profile.gatewayIds| == 1 && profile.gatewayIds[0] == gatewayId then url else None
  }

  function RouteStateUrl(profile: Profile, report: Report): Option<string> {
    if report.routeStateUrl.Some? then report.routeStateUrl
    else ProfileUrlForGateway(profile.routeStateUrl, profile, report.gatewayId)
  }

  function RouteIntentUrl(profile: Profile, report: Report): Option<string> {
    ProfileUrlForGateway(profile.routeIntentUrl, profile, report.gatewayId)
  }

  /** A URL listed for the gateway itself wins over the profile's one. */
  function UpstreamAdmissionUrl(profile: Profile, gatewayId: string): Option<string> {
    if profile.upstreamAdmissionUrls.Some? && gatewayId in profile.upstreamAdmissionUrls.value
       && profile.upstreamAdmissionUrls.value[gatewayId] != ""
    then Some(profile.upstreamAdmissionUrls.value[gatewayId])
    else ProfileUrlForGateway(profile.upstreamAdmissionUrl, profile, gatewayId)
  }

  predicate RouteStateHealthy(report: Report) {
    report.routeStateHealthy != Some(false)
  }

  predicate SignerAllowed(env: Env, profile: Profile, signer: string) {
    profile.reportSigners != [] && exists s | s in profile.reportSigners :: env.sameSigner(s, signer)
  }

  // ----- Processors of a report

  /** `values ?? []`. */
  function Listed(values: Option<seq<string>>): seq<string> {
    match values case Some(v) => v case None => []
  }

  function RawProcessors(scope: Scope): seq<string> {
    if scope.explicitKind then Listed(scope.processors)
    else if scope.processors.Some? then scope.processors.value
    else Listed(scope.includeProcessors)
  }

  predicate Excludes(env: Env, scope: Scope, id: string) {
    exists raw | raw in Listed(scope.excludeProcessors) :: env.refToId(raw) == Some(id)
  }

  predicate Lists(found: seq<Processor>, id: string) {
    exists p | p in found :: p.processorId == id
  }

  function AddProcessor(env: Env, scope: Scope, found: seq<Processor>, raw: string): seq<Processor> {
    match env.refToId(raw)
    case None => found
    case Some(id) =>
      if id == "" || Excludes(env, scope, id) || Lists(found, id) then found
      else found + [Processor(id, if env.isHexId(raw) then None else Some(raw), scope.managerId)]
  }

  function AddAll(env: Env, scope: Scope, found: seq<Processor>, raws: seq<string>): seq<Processor> {
    if raws == [] then found
    else AddProcessor(env, scope, AddAll(env, scope, found, raws[..|raws| - 1]), raws[|raws| - 1])
  }

  function Expanded(env: Env, scopes: seq<Scope>): seq<Processor> {
    if scopes == [] then []
    else
      var scope := scopes[|scopes| - 1];
      AddAll(env, scope, Expanded(env, scopes[..|scopes| - 1]), RawProcessors(scope))
  }

  ghost predicate SeenAll(seen: set<string>, found: seq<Processor>) {
    forall id :: id in seen <==> Lists(found, id)
  }

  lemma SeenOneMore(seen: set<string>, found: seq<Processor>, p: Processor)
    requires SeenAll(seen, found)
    ensures SeenAll(seen + {p.processorId}, found + [p])
  {
    forall id ensures Lists(found + [p], id) <==> Lists(found, id) || id == p.processorId {
      assert (found + [p])[|found|] == p;
      if Lists(found, id) {
        var q :| q in found && q.processorId == id;
        assert q in found + [p];
      }
    }
  }

  /** The inner loop, over the references of one scope. */
  method AddScope(env: Env, scope: Scope, found: seq<Processor>, seenBefore: set<string>)
    returns (result: seq<Processor>, seen: set<string>)
    requires SeenAll(seenBefore, found)
    ensures result == AddAll(env, scope, found, RawProcessors(scope))
    ensures SeenAll(seen, result)
  {
    result, seen := found, seenBefore;
    var excluded := ExcludedIds(env, Listed(scope.excludeProcessors));
    var raws := RawProcessors(scope);
    for j := 0 to |raws|
      invariant result == AddAll(env, scope, found, raws[..j])
      invariant SeenAll(seen, result)
    {
      assert raws[..j + 1][..j] == raws[..j];
      var processorId := env.refToId(raws[j]);
      if processorId.None? || processorId.value == "" || processorId.value in excluded || processorId.value in seen {
        continue;
      }
      var p := Processor(processorId.value, if env.isHexId(raws[j]) then None else Some(raws[j]), scope.managerId);
      SeenOneMore(seen, result, p);
      seen := seen + {processorId.value};
      result := result + [p];
    }
    assert raws[..|raws|] == raws;
  }

  method ExpandedReportProcessors(env: Env, report: Report) returns (result: seq<Processor>)
    ensures result == Expanded(env, report.scopes)
  {
    result := [];
    var seen: set<string> := {};
    for i := 0 to |report.scopes|
      invariant result == Expanded(env, report.scopes[..i])
      invariant SeenAll(seen, result)
    {
      assert report.scopes[..i + 1][..i] == report.scopes[..i];
      result, seen := AddScope(env, report.scopes[i], result, seen);
    }
    assert report.scopes[..|report.scopes|] == report.scopes;
  }

  method ExcludedIds(env: Env, raws: seq<string>) returns (ids: set<string>)
    ensures forall id :: id in ids <==> exists raw | raw in raws :: env.refToId(raw) == Some(id)
  {
    ids := {};
    for i := 0 to |raws|
      invariant forall id :: id in ids <==> exists raw | raw in raws[..i] :: env.refToId(raw) == Some(id)
    {
      var id := env.refToId(raws[i]);
      assert raws[..i + 1] == raws[..i] + [raws[i]];
      if id.Some? {
        ids := ids + {id.value};
      }
    }
    assert raws[..|raws|] == raws;
  }

  // ----- Eligibility

  predicate ReportEligible(env: Env, input: Input, profile: Profile, stored: Stored) {
    var report := stored.report;
    && profile.active
    && (Truthy(input.operatorId) ==> env.lower(report.operatorId) == env.lower(input.operatorId.value))
    && report.expiresAt > input.now
    && SignerAllowed(env, profile, stored.signer)
    && (profile.gatewayIds != [] ==> report.gatewayId in profile.gatewayIds)
    && report.activeRouteCount < report.routeCapacity
    && report.processorDiscoveryFresh != Some(false)
    && (input.requireRouteStateUrl ==> Truthy(RouteStateUrl(profile, report)) && RouteStateHealthy(report))
  }

  predicate ProcessorEligible(env: Env, input: Input, profile: Profile, p: Processor) {
    && (Truthy(input.processorId) ==> p.processorId == env.lower(input.processorId.value))
    && (profile.processorIds != [] ==> p.processorId in profile.processorIds)
    && (profile.managerIds != [] && Truthy(p.managerId) ==> p.managerId.value in profile.managerIds)
  }

  function SelectionReasons(input: Input, requireSink: bool, p: Processor): seq<string> {
    ["operator-profile-active", "capability-report-fresh", "gateway-capacity-available"]
    + (if input.requireRouteStateUrl then ["route-state-polling"] else [])
    + (if requireSink then ["route-intent-sink"] else [])
    + [if Truthy(p.managerId) then "manager-scoped-processor" else "explicit-processor"]
  }

  function CandidateOf(
    env: Env, input: Input, requireSink: bool, profile: Profile, stored: Stored, p: Processor): Candidate
  {
    var report := stored.report;
    Candidate(env.lower(report.operatorId), report.gatewayId, p.processorId, p.address, p.managerId, report.reportId,
      report.expiresAt, stored.signer, report.publicAddresses, report.activeRouteCount, report.routeCapacity,
      RouteStateUrl(profile, report), RouteIntentUrl(profile, report), UpstreamAdmissionUrl(profile, report.gatewayId),
      UpstreamAdmissionModes(report), profile.routeIntentTokenEnv, SelectionReasons(input, requireSink, p))
  }

  function MemberOf(env: Env, input: Input, profile: Profile, stored: Stored, p: Processor): CapacityMember {
    var report := stored.report;
    CapacityMember(env.lower(report.operatorId), report.gatewayId,
      if p.address.Some? then p.address.value else p.processorId, p.processorId, p.managerId, report.reportId,
      report.reportedAt, report.expiresAt, report.activeRouteCount, report.routeCapacity,
      if report.routeCapacity > report.activeRouteCount then report.routeCapacity - report.activeRouteCount else 0,
      report.publicAddresses, Truthy(RouteStateUrl(profile, report)) && RouteStateHealthy(report),
      report.routeStateHealthy, report.routeStateLastSuccessAt, report.processorDiscoveryFresh,
      report.reportedProcessorCount, report.supportedClasses, UpstreamAdmissionModes(report),
      input.sourceRelayId, input.sourceRelayUrl)
  }

  function NewestFirst(): (Stored, Stored) -> bool {
    (a: Stored, b: Stored) => a.report.reportedAt >= b.report.reportedAt
  }

  function SortedReports(input: Input): seq<Stored> {
    Sort(NewestFirst(), input.reports)
  }

  predicate GatewayAsked(gatewayId: Option<string>, report: Report) {
    Truthy(gatewayId) ==> report.gatewayId == gatewayId.value
  }

  // ----- Full selection

  function MembersOfProcessors(
    env: Env, input: Input, profile: Profile, stored: Stored, ps: seq<Processor>): seq<CapacityMember>
  {
    if ps == [] then []
    else
      var last := ps[|ps| - 1];
      MembersOfProcessors(env, input, profile, stored, ps[..|ps| - 1])
      + if ProcessorEligible(env, input, profile, last) then [MemberOf(env, input, profile, stored, last)] else []
  }

  function MembersOfReport(env: Env, input: Input, gatewayId: Option<string>, stored: Stored): seq<CapacityMember> {
    match ProfileOf(env, input.profiles, env.lower(stored.report.operatorId))
    case None => []
    case Some(profile) =>
      if ReportEligible(env, input, profile, stored) && GatewayAsked(gatewayId, stored.report)
      then MembersOfProcessors(env, input, profile, stored, Expanded(env, stored.report.scopes)) else []
  }

  function MembersOfReports(
    env: Env, input: Input, gatewayId: Option<string>, reports: seq<Stored>): seq<CapacityMember>
  {
    if reports == [] then []
    else MembersOfReports(env, input, gatewayId, reports[..|reports| - 1])
         + MembersOfReport(env, input, gatewayId, reports[|reports| - 1])
  }

  /** The inner loop, over the processors of one eligible report. */
  method CollectMembers(env: Env, input: Input, profile: Profile, stored: Stored, processors: seq<Processor>)
    returns (members: seq<CapacityMember>)
    ensures members == MembersOfProcessors(env, input, profile, stored, processors)
  {
    members := [];
    for j := 0 to |processors|
      invariant members == MembersOfProcessors(env, input, profile, stored, processors[..j])
    {
      var p := processors[j];
      assert processors[..j + 1][..j] == processors[..j];
      if Truthy(input.processorId) && p.processorId != env.lower(input.processorId.value) {
        continue;
      }
      if |profile.processorIds| > 0 && p.processorId !in profile.processorIds {
        continue;
      }
      if |profile.managerIds| > 0 && Truthy(p.managerId) && p.managerId.value !in profile.managerIds {
        continue;
      }
      members := members + [MemberOf(env, input, profile, stored, p)];
    }
    assert processors[..|processors|] == processors;
  }

  /** One turn of the outer loop: the members of one report. */
  method MembersFromReport(env: Env, input: Input, gatewayId: Option<string>, stored: Stored)
    returns (members: seq<CapacityMember>)
    ensures members == MembersOfReport(env, input, gatewayId, stored)
  {
    members := [];
    var report := stored.report;
    var found := ProfileOf(env, input.profiles, env.lower(report.operatorId));
    if found.None? || !found.value.active {
      return;
    }
    var profile := found.value;
    if Truthy(input.operatorId) && env.lower(report.operatorId) != env.lower(input.operatorId.value) {
      return;
    }
    if Truthy(gatewayId) && report.gatewayId != gatewayId.value {
      return;
    }
    if report.expiresAt <= input.now || !SignerAllowed(env, profile, stored.signer) {
      return;
    }
    if |profile.gatewayIds| > 0 && report.gatewayId !in profile.gatewayIds {
      return;
    }
    if report.routeCapacity <= 0 || report.activeRouteCount >= report.routeCapacity {
      return;
    }
    if report.processorDiscoveryFresh == Some(false) {
      return;
    }
    var routeStateAvailable := Truthy(RouteStateUrl(profile, report)) && RouteStateHealthy(report);
    if input.requireRouteStateUrl && !routeStateAvailable {
      return;
    }
    var processors := ExpandedReportProcessors(env, report);
    members := CollectMembers(env, input, profile, stored, processors);
  }

  method SelectOperatorCapacityMembers(env: Env, input: Input, gatewayId: Option<string>)
    returns (members: seq<CapacityMember>)
    ensures members == MembersOfReports(env, input, gatewayId, SortedReports(input))
  {
    members := [];
    var reports := Sort(NewestFirst(), input.reports);
    for i := 0 to |reports|
      invariant members == MembersOfReports(env, input, gatewayId, reports[..i])
    {
      assert reports[..i + 1][..i] == reports[..i];
      var more := MembersFromReport(env, input, gatewayId, reports[i]);
      members := members + more;
    }
    assert reports[..|reports|] == reports;
  }

  // ----- Early-exit selection

  function FirstOfProcessors(
    env: Env, input: Input, requireSink: bool, profile: Profile, stored: Stored, ps: seq<Processor>)
    : Option<Candidate>
  {
    if ps == [] then None
    else if ProcessorEligible(env, input, profile, ps[0]) then
      Some(CandidateOf(env, input, requireSink, profile, stored, ps[0]))
    else FirstOfProcessors(env, input, requireSink, profile, stored, ps[1..])
  }

  function FirstOfReport(env: Env, input: Input, requireSink: bool, stored: Stored): Option<Candidate> {
    match ProfileOf(env, input.profiles, env.lower(stored.report.operatorId))
    case None => None
    case Some(profile) =>
      if ReportEligible(env, input, profile, stored) && (requireSink ==> Truthy(RouteIntentUrl(profile, stored.report)))
      then FirstOfProcessors(env, input, requireSink, profile, stored, Expanded(env, stored.report.scopes)) else None
  }

  function FirstOfReports(env: Env, input: Input, requireSink: bool, reports: seq<Stored>): Option<Candidate> {
    if reports == [] then None
    else
      var first := FirstOfReport(env, input, requireSink, reports[0]);
      if first.Some? then first else FirstOfReports(env, input, requireSink, reports[1..])
  }

  /** The inner loop, left at the first eligible processor. */
  method FirstEligible(
    env: Env, input: Input, requireSink: bool, profile: Profile, stored: Stored, processors: seq<Processor>)
    returns (r: Option<Candidate>)
    ensures r == FirstOfProcessors(env, input, requireSink, profile, stored, processors)
  {
    for j := 0 to |processors|
      invariant FirstOfProcessors(env, input, requireSink, profile, stored, processors)
             == FirstOfProcessors(env, input, requireSink, profile, stored, processors[j..])
    {
      var p := processors[j];
      assert processors[j..][1..] == processors[j + 1..];
      if Truthy(input.processorId) && p.processorId != env.lower(input.processorId.value) {
        continue;
      }
      if |profile.processorIds| > 0 && p.processorId !in profile.processorIds {
        continue;
      }
      if |profile.managerIds| > 0 && Truthy(p.managerId) && p.managerId.value !in profile.managerIds {
        continue;
      }
      return Some(CandidateOf(env, input, requireSink, profile, stored, p));
    }
    r := None;
  }

  /** One turn of the outer loop: the first candidate of one report. */
  method CandidateFromReport(env: Env, input: Input, requireSink: bool, stored: Stored) returns (r: Option<Candidate>)
    ensures r == FirstOfReport(env, input, requireSink, stored)
  {
    r := None;
    var report := stored.report;
    var found := ProfileOf(env, input.profiles, env.lower(report.operatorId));
    if found.None? || !found.value.active {
      return;
    }
    var profile := found.value;
    if Truthy(input.operatorId) && env.lower(report.operatorId) != env.lower(input.operatorId.value) {
      return;
    }
    if report.expiresAt <= input.now || !SignerAllowed(env, profile, stored.signer) {
      return;
    }
    if |profile.gatewayIds| > 0 && report.gatewayId !in profile.gatewayIds {
      return;
    }
    if report.routeCapacity <= 0 || report.activeRouteCount >= report.routeCapacity {
      return;
    }
    if report.processorDiscoveryFresh == Some(false) {
      return;
    }
    if input.requireRouteStateUrl && !Truthy(RouteStateUrl(profile, report)) {
      return;
    }
    if input.requireRouteStateUrl && !RouteStateHealthy(report) {
      return;
    }
    if requireSink && !Truthy(RouteIntentUrl(profile, report)) {
      return;
    }
    var processors := ExpandedReportProcessors(env, report);
    r := FirstEligible(env, input, requireSink, profile, stored, processors);
  }

  method SelectOperatorCapabilityCandidate(env: Env, input: Input, requireSink: bool) returns (r: Option<Candidate>)
    ensures r == FirstOfReports(env, input, requireSink, SortedReports(input))
  {
    var reports := Sort(NewestFirst(), input.reports);
    for i := 0 to |reports|
      invariant FirstOfReports(env, input, requireSink, reports)
          == FirstOfReports(env, input, requireSink, reports[i..])
    {
      assert reports[i..][1..] == reports[i + 1..];
      r := CandidateFromReport(env, input, requireSink, reports[i]);
      if r.Some? {
        return;
      }
    }
    r := None;
  }

  // ----- The fast selection refines the full one

  /** What a candidate and a capacity member have in common. */
  ghost predicate Agrees(c: Candidate, m: CapacityMember) {
    && c.operatorId == m.operatorId && c.gatewayId == m.gatewayId
    && c.processorId == m.processorId && c.managerId == m.managerId
    && m.processor == (match c.processorAddress case Some(a) => a case None => c.processorId)
    && c.reportId == m.reportId && c.reportExpiresAt == m.expiresAt
    && c.activeRouteCount == m.activeRouteCount && c.routeCapacity == m.routeCapacity
    && c.publicAddresses == m.publicAddresses && c.upstreamAdmissionModes == m.upstreamAdmissionModes
    && (m.routeStateAvailable ==> Truthy(c.routeStateUrl))
  }

  ghost predicate AgreesWithFirst(c: Option<Candidate>, members: seq<CapacityMember>) {
    (c.None? <==> members == []) && (c.Some? ==> Agrees(c.value, members[0]))
  }

  lemma {:induction false} MembersOfMoreProcessors(
    env: Env, input: Input, profile: Profile, stored: Stored, p: Processor, ps: seq<Processor>)
    ensures MembersOfProcessors(env, input, profile, stored, [p] + ps)
         == (if ProcessorEligible(env, input, profile, p) then [MemberOf(env, input, profile, stored, p)] else [])
            + MembersOfProcessors(env, input, profile, stored, ps)
    decreases |ps|
  {
    var all := [p] + ps;
    if ps == [] {
      assert all[..0] == [];
    } else {
      assert all[..|all| - 1] == [p] + ps[..|ps| - 1];
      MembersOfMoreProcessors(env, input, profile, stored, p, ps[..|ps| - 1]);
    }
  }

  lemma {:induction false} FirstProcessorIsFirstMember(
    env: Env, input: Input, requireSink: bool, profile: Profile, stored: Stored, ps: seq<Processor>)
    ensures AgreesWithFirst(FirstOfProcessors(env, input, requireSink, profile, stored, ps),
                            MembersOfProcessors(env, input, profile, stored, ps))
    decreases |ps|
  {
    if ps != [] {
      assert ps == [ps[0]] + ps[1..];
      MembersOfMoreProcessors(env, input, profile, stored, ps[0], ps[1..]);
      FirstProcessorIsFirstMember(env, input, requireSink, profile, stored, ps[1..]);
    }
  }

  lemma {:induction false} MembersOfMoreReports(
    env: Env, input: Input, gatewayId: Option<string>, r: Stored, rs: seq<Stored>)
    ensures MembersOfReports(env, input, gatewayId, [r] + rs)
         == MembersOfReport(env, input, gatewayId, r) + MembersOfReports(env, input, gatewayId, rs)
    decreases |rs|
  {
    var all := [r] + rs;
    if rs == [] {
      MembersOfSnoc(env, input, gatewayId, [], r);
      assert [] + [r] == all;
    } else {
      var n := |rs| - 1;
      assert all == ([r] + rs[..n]) + [rs[n]] && rs == rs[..n] + [rs[n]];
      MembersOfMoreReports(env, input, gatewayId, r, rs[..n]);
      MembersOfSnoc(env, input, gatewayId, [r] + rs[..n], rs[n]);
      MembersOfSnoc(env, input, gatewayId, rs[..n], rs[n]);
      Assoc(MembersOfReport(env, input, gatewayId, r), MembersOfReports(env, input, gatewayId, rs[..n]),
        MembersOfReport(env, input, gatewayId, rs[n]));
    }
  }

  lemma MembersOfSnoc(env: Env, input: Input, gatewayId: Option<string>, rs: seq<Stored>, r: Stored)
    ensures MembersOfReports(env, input, gatewayId, rs + [r])
         == MembersOfReports(env, input, gatewayId, rs) + MembersOfReport(env, input, gatewayId, r)
  {
    assert (rs + [r])[..|rs|] == rs;
  }

  /** The reports with a route-intent sink: what the sink requirement leaves of the input. */
  function WithSink(env: Env, input: Input): Stored -> bool {
    (stored: Stored) =>
      var profile := ProfileOf(env, input.profiles, env.lower(stored.report.operatorId));
      profile.Some? && Truthy(RouteIntentUrl(profile.value, stored.report))
  }

  lemma FirstOfReportIsFirstMember(env: Env, input: Input, requireSink: bool, stored: Stored)
    ensures if requireSink && !WithSink(env, input)(stored) then FirstOfReport(env, input, requireSink, stored).None?
            else AgreesWithFirst(FirstOfReport(env, input, requireSink, stored),
                                 MembersOfReport(env, input, None, stored))
  {
    var profile := ProfileOf(env, input.profiles, env.lower(stored.report.operatorId));
    if profile.Some? {
      FirstProcessorIsFirstMember(env, input, requireSink, profile.value, stored, Expanded(env, stored.report.scopes));
    }
  }

  /** The reports that a selection takes its candidate from. */
  function Considered(env: Env, input: Input, requireSink: bool, reports: seq<Stored>): seq<Stored> {
    if requireSink then Filter(WithSink(env, input), reports) else reports
  }

  lemma {:induction false} FirstIsFirst(env: Env, input: Input, requireSink: bool, reports: seq<Stored>)
    ensures AgreesWithFirst(FirstOfReports(env, input, requireSink, reports),
                            MembersOfReports(env, input, None, Considered(env, input, requireSink, reports)))
    decreases |reports|
  {
    if reports != [] {
      var later := Considered(env, input, requireSink, reports[1..]);
      FirstOfReportIsFirstMember(env, input, requireSink, reports[0]);
      FirstIsFirst(env, input, requireSink, reports[1..]);
      if !requireSink || WithSink(env, input)(reports[0]) {
        assert Considered(env, input, requireSink, reports) == [reports[0]] + later;
        MembersOfMoreReports(env, input, None, reports[0], later);
      }
    }
  }

  /**
   Without a gateway filter and without the route-intent requirement, the early-exit candidate is the first
   capacity member, and there is none exactly when there are no members.
   */
  lemma FastSelectionRefinesFull(env: Env, input: Input)
    ensures AgreesWithFirst(FirstOfReports(env, input, false, SortedReports(input)),
                            MembersOfReports(env, input, None, SortedReports(input)))
  {
    FirstIsFirst(env, input, false, SortedReports(input));
  }

  /** With the sink requirement, the candidate is the first member among the reports that have a sink. */
  lemma SinkSelectionRefinesFull(env: Env, input: Input)
    ensures AgreesWithFirst(FirstOfReports(env, input, true, SortedReports(input)),
                            MembersOfReports(env, input, None, Filter(WithSink(env, input), SortedReports(input))))
  {
    FirstIsFirst(env, input, true, SortedReports(input));
  }

  // ----- What the members are

  /** An eligible pair of report and processor. */
  ghost predicate EligiblePair(env: Env, input: Input, gatewayId: Option<string>, stored: Stored, p: Processor) {
    var profile := ProfileOf(env, input.profiles, env.lower(stored.report.operatorId));
    && profile.Some?
    && ReportEligible(env, input, profile.value, stored) && GatewayAsked(gatewayId, stored.report)
    && p in Expanded(env, stored.report.scopes) && ProcessorEligible(env, input, profile.value, p)
  }

  ghost predicate MadeFrom(
    env: Env, input: Input, gatewayId: Option<string>, stored: Stored, p: Processor, m: CapacityMember)
  {
    && EligiblePair(env, input, gatewayId, stored, p)
    && m == MemberOf(env, input, ProfileOf(env, input.profiles, env.lower(stored.report.operatorId)).value, stored, p)
  }

  lemma {:induction false} ProcessorMembers(
    env: Env, input: Input, profile: Profile, stored: Stored, ps: seq<Processor>, m: CapacityMember)
    ensures m in MembersOfProcessors(env, input, profile, stored, ps)
            <==> exists p :: p in ps && Yields(env, input, profile, stored, p, m)
    decreases |ps|
  {
    if ps != [] {
      var n := |ps| - 1;
      ProcessorMembers(env, input, profile, stored, ps[..n], m);
      assert ps == ps[..n] + [ps[n]];
      YieldedByOneMore(env, input, profile, stored, ps[..n], ps[n], m);
    }
  }

  lemma YieldedByOneMore(
    env: Env, input: Input, profile: Profile, stored: Stored, ps: seq<Processor>, last: Processor, m: CapacityMember)
    ensures (exists p :: p in ps + [last] && Yields(env, input, profile, stored, p, m))
            <==> (exists p :: p in ps && Yields(env, input, profile, stored, p, m))
                 || Yields(env, input, profile, stored, last, m)
  {
    assert last in ps + [last];
    forall p | p in ps ensures p in ps + [last] {
    }
  }

  ghost predicate Yields(
    env: Env, input: Input, profile: Profile, stored: Stored, p: Processor, m: CapacityMember)
  {
    ProcessorEligible(env, input, profile, p) && m == MemberOf(env, input, profile, stored, p)
  }

  lemma ReportMembers(env: Env, input: Input, gatewayId: Option<string>, stored: Stored, m: CapacityMember)
    ensures m in MembersOfReport(env, input, gatewayId, stored)
        <==> exists p :: MadeFrom(env, input, gatewayId, stored, p, m)
  {
    var profile := ProfileOf(env, input.profiles, env.lower(stored.report.operatorId));
    var ps := Expanded(env, stored.report.scopes);
    if profile.Some? {
      ProcessorMembers(env, input, profile.value, stored, ps, m);
    }
    if m in MembersOfReport(env, input, gatewayId, stored) {
      var p :| p in ps && Yields(env, input, profile.value, stored, p, m);
      assert MadeFrom(env, input, gatewayId, stored, p, m);
    }
  }

  ghost predicate MadeFromSome(
    env: Env, input: Input, gatewayId: Option<string>, reports: seq<Stored>, m: CapacityMember)
  {
    exists stored, p :: stored in reports && MadeFrom(env, input, gatewayId, stored, p, m)
  }

  lemma MadeFromOneMore(
    env: Env, input: Input, gatewayId: Option<string>, reports: seq<Stored>, last: Stored, m: CapacityMember)
    ensures MadeFromSome(env, input, gatewayId, reports + [last], m)
            <==> MadeFromSome(env, input, gatewayId, reports, m)
                 || exists p :: MadeFrom(env, input, gatewayId, last, p, m)
  {
    assert last in reports + [last];
  }

  lemma {:induction false} AllMembers(
    env: Env, input: Input, gatewayId: Option<string>, reports: seq<Stored>, m: CapacityMember)
    ensures m in MembersOfReports(env, input, gatewayId, reports) <==> MadeFromSome(env, input, gatewayId, reports, m)
    decreases |reports|
  {
    if reports != [] {
      var n := |reports| - 1;
      AllMembers(env, input, gatewayId, reports[..n], m);
      ReportMembers(env, input, gatewayId, reports[n], m);
      assert reports == reports[..n] + [reports[n]];
      MadeFromOneMore(env, input, gatewayId, reports[..n], reports[n], m);
    }
  }

  ghost predicate NewestFirstMembers(ms: seq<CapacityMember>) {
    forall i, j :: 0 <= i < j < |ms| ==> ms[i].reportedAt >= ms[j].reportedAt
  }

  lemma JoinNewestFirst(before: seq<CapacityMember>, last: seq<CapacityMember>, t: int)
    requires NewestFirstMembers(before)
    requires forall m :: m in before ==> m.reportedAt >= t
    requires forall m :: m in last ==> m.reportedAt == t
    ensures NewestFirstMembers(before + last)
  {
    var ms := before + last;
    forall i, j | 0 <= i < j < |ms| ensures ms[i].reportedAt >= ms[j].reportedAt {
      assert i < |before| ==> ms[i] in before;
      assert i >= |before| ==> ms[i] in last;
      assert j >= |before| ==> ms[j] in last;
    }
  }

  lemma OlderReportsComeLater(
    env: Env, input: Input, gatewayId: Option<string>, reports: seq<Stored>, n: nat, m: CapacityMember)
    requires n < |reports| && Sorted(NewestFirst(), reports)
        && m in MembersOfReports(env, input, gatewayId, reports[..n])
    ensures m.reportedAt >= reports[n].report.reportedAt
  {
    AllMembers(env, input, gatewayId, reports[..n], m);
    var stored, p :| stored in reports[..n] && MadeFrom(env, input, gatewayId, stored, p, m);
    var k :| 0 <= k < n && reports[k] == stored;
    assert NewestFirst()(reports[k], reports[n]);
  }

  lemma {:induction false} MembersAreNewestFirst(
    env: Env, input: Input, gatewayId: Option<string>, reports: seq<Stored>)
    requires Sorted(NewestFirst(), reports)
    ensures NewestFirstMembers(MembersOfReports(env, input, gatewayId, reports))
    decreases |reports|
  {
    if reports != [] {
      var n := |reports| - 1;
      MembersAreNewestFirst(env, input, gatewayId, reports[..n]);
      var before := MembersOfReports(env, input, gatewayId, reports[..n]);
      var last := MembersOfReport(env, input, gatewayId, reports[n]);
      forall m | m in before ensures m.reportedAt >= reports[n].report.reportedAt {
        OlderReportsComeLater(env, input, gatewayId, reports, n, m);
      }
      forall m | m in last ensures m.reportedAt == reports[n].report.reportedAt {
        ReportMembers(env, input, gatewayId, reports[n], m);
      }
      JoinNewestFirst(before, last, reports[n].report.reportedAt);
    }
  }

  ghost predicate DistinctMembers(ms: seq<CapacityMember>) {
    forall i, j :: 0 <= i < j < |ms| ==> ms[i].processorId != ms[j].processorId
  }

  /** One report contributes at most one member for each processor id. */
  lemma {:induction false} OneMemberPerProcessor(
    env: Env, input: Input, profile: Profile, stored: Stored, ps: seq<Processor>)
    requires DistinctIds(ps)
    ensures DistinctMembers(MembersOfProcessors(env, input, profile, stored, ps))
    decreases |ps|
  {
    if ps != [] {
      var n := |ps| - 1;
      OneMemberPerProcessor(env, input, profile, stored, ps[..n]);
      var before := MembersOfProcessors(env, input, profile, stored, ps[..n]);
      forall m | m in before ensures m.processorId != ps[n].processorId {
        ProcessorMembers(env, input, profile, stored, ps[..n], m);
      }
      assert forall i :: 0 <= i < |before| ==> before[i] in before;
    }
  }

  /** The members of one report have distinct processor ids. */
  lemma ReportHasNoDuplicates(env: Env, input: Input, gatewayId: Option<string>, stored: Stored)
    ensures DistinctMembers(MembersOfReport(env, input, gatewayId, stored))
  {
    var profile := ProfileOf(env, input.profiles, env.lower(stored.report.operatorId));
    ExpandedIds(env, stored.report.scopes, "");
    if profile.Some? {
      OneMemberPerProcessor(env, input, profile.value, stored, Expanded(env, stored.report.scopes));
    }
  }

  /**
   The members are all and only the eligible pairs of a report and one of its processors, newest report first,
   and every one of them has a free route slot.
   */
  lemma MembersAreTheEligiblePairs(env: Env, input: Input, gatewayId: Option<string>)
    ensures var ms := MembersOfReports(env, input, gatewayId, SortedReports(input));
      && (forall m :: m in ms <==> MadeFromSome(env, input, gatewayId, input.reports, m))
      && (forall m | m in ms ::
          m.availableRouteSlots >= 1 && m.activeRouteCount + m.availableRouteSlots == m.routeCapacity)
      && NewestFirstMembers(ms)
  {
    var reports := SortedReports(input);
    var ms := MembersOfReports(env, input, gatewayId, reports);
    SortPermutes(NewestFirst(), input.reports);
    assert TotalPreorder(NewestFirst());
    SortSorts(NewestFirst(), input.reports);
    MembersAreNewestFirst(env, input, gatewayId, reports);
    forall m ensures m in ms <==> MadeFromSome(env, input, gatewayId, input.reports, m) {
      AllMembers(env, input, gatewayId, reports, m);
    }
    forall m | m in ms
      ensures m.availableRouteSlots >= 1 && m.activeRouteCount + m.availableRouteSlots == m.routeCapacity
    {
      AllMembers(env, input, gatewayId, reports, m);
    }
  }

  // ----- What the processors of a report are

  ghost predicate DistinctIds(ps: seq<Processor>) {
    forall i, j :: 0 <= i < j < |ps| ==> ps[i].processorId != ps[j].processorId
  }

  /** Some scope lists a reference to `id` and does not exclude it. */
  ghost predicate Offered(env: Env, scopes: seq<Scope>, id: string) {
    exists scope :: scope in scopes && OffersId(env, scope, RawProcessors(scope), id)
  }

  ghost predicate OffersId(env: Env, scope: Scope, raws: seq<string>, id: string) {
    id != "" && !Excludes(env, scope, id) && exists raw :: raw in raws && env.refToId(raw) == Some(id)
  }

  lemma AddedIds(env: Env, scope: Scope, found: seq<Processor>, raw: string, id: string)
    ensures Lists(AddProcessor(env, scope, found, raw), id) <==> Lists(found, id) || OffersId(env, scope, [raw], id)
  {
    var r := AddProcessor(env, scope, found, raw);
    assert raw in [raw];
    if r != found {
      var p := r[|found|];
      assert p in r && forall q :: q in r <==> q in found || q == p;
    }
  }

  lemma {:induction false} AddAllIds(env: Env, scope: Scope, found: seq<Processor>, raws: seq<string>, id: string)
    ensures Lists(AddAll(env, scope, found, raws), id) <==> Lists(found, id) || OffersId(env, scope, raws, id)
    ensures DistinctIds(found) ==> DistinctIds(AddAll(env, scope, found, raws))
    decreases |raws|
  {
    if raws != [] {
      var n := |raws| - 1;
      AddAllIds(env, scope, found, raws[..n], id);
      AddedIds(env, scope, AddAll(env, scope, found, raws[..n]), raws[n], id);
      assert raws == raws[..n] + [raws[n]];
    }
  }

  /** A report's processors are listed once each: those that some scope lists without excluding them. */
  lemma {:induction false} ExpandedIds(env: Env, scopes: seq<Scope>, id: string)
    ensures Lists(Expanded(env, scopes), id) <==> Offered(env, scopes, id)
    ensures DistinctIds(Expanded(env, scopes))
    decreases |scopes|
  {
    if scopes != [] {
      var n := |scopes| - 1;
      ExpandedIds(env, scopes[..n], id);
      AddAllIds(env, scopes[n], Expanded(env, scopes[..n]), RawProcessors(scopes[n]), id);
      assert scopes == scopes[..n] + [scopes[n]];
      assert Offered(env, scopes, id)
          <==> Offered(env, scopes[..n], id) || OffersId(env, scopes[n], RawProcessors(scopes[n]), id);
    }
  }
}
