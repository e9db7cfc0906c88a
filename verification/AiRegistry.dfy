/**
  The AI resource registry: applications, and the compute, bandwidth, offers and seats they are
  given. Every call holds the registry's lock, so a run is a sequence of calls.
 */
module AiRegistry {
  import opened Domain

  datatype AIStatus = Pending | Approved | Active | Returned | Closed | Cancelled

  datatype Application = Application(
    id: string, tenantId: string, applicantId: string, companyName: string, industry: string,
    country: string, status: AIStatus, materials: seq<string>, requestedPetaops: int,
    routeId: string, serviceOfferId: string, ruleVersion: int, attempt: int, deadline: Time,
    createdAt: Time, updatedAt: Time, version: int)

  datatype Reservation = Reservation(
    applicationId: string, clusterId: string, petaops: int, reservedAt: Time, releasedAt: Option<Time>)

  datatype Cluster = Cluster(id: string, region: string, totalPetaops: int, allocatedPetaops: int, version: int)

  datatype Route = Route(
    id: string, tenantId: string, country: string, capacityMbps: int, allocatedMbps: int,
    latencyTarget: int, active: bool, version: int)

  datatype Offer = Offer(
    id: string, providerId: string, kind: string, countries: seq<string>, capacity: int, used: int,
    effectiveFrom: Time, effectiveTo: Time, version: int)

  datatype Community = Community(
    id: string, name: string, capacity: int, memberIds: seq<string>, mentorIds: seq<string>,
    milestones: map<string, string>, version: int)

  datatype AIEvent = AIEvent(id: string, tenantId: string, entityId: string, action: string, actorId: string, at: Time)

  datatype AIError =
    | ApplicationNotFound
    | ClusterNotFound
    | RouteNotFound
    | OfferNotFound
    | CommunityNotFound
    | Conflict
    | InvalidState
    | Capacity
    | Authorization
    | BadRequest

  datatype Answer = Nothing | AnApplication(application: Application) | AReservation(reservation: Reservation)
                  | ACommunity(community: Community)

  datatype Outcome = Done(answer: Answer) | Failed(error: AIError)

  datatype Registry = Registry(
    applications: map<string, Application>,
    clusters: map<string, Cluster>,
    reservations: map<string, Reservation>,
    routes: map<string, Route>,
    offers: map<string, Offer>,
    communities: map<string, Community>,
    events: seq<AIEvent>)

  const EMPTY_REGISTRY := Registry(map[], map[], map[], map[], map[], map[], [])

  // ---------------------------------------------------------------- policy

  predicate IsSpace(c: char) {
    c in " \t\n\r" || c as int == 11 || c as int == 12
  }

  function TrimLeft(s: string): string {
    if s != "" && IsSpace(s[0]) then TrimLeft(s[1..]) else s
  }

  function TrimRight(s: string): string {
    if s != "" && IsSpace(s[|s| - 1]) then TrimRight(s[..|s| - 1]) else s
  }

  function TrimSpace(s: string): string {
    TrimRight(TrimLeft(s))
  }

  function ToUpper(s: string): string {
    seq(|s|, i requires 0 <= i < |s| => if 'a' <= s[i] <= 'z' then (s[i] as int - 32) as char else s[i])
  }

  function NormalizeCountry(country: string): string {
    ToUpper(TrimSpace(country))
  }

  const ASEAN_COUNTRIES := {"VN", "TH", "ID", "MY", "SG", "KH", "PH", "LA", "MM", "BN"}

  predicate ValidApplication(a: Application) {
    && a.id != "" && a.tenantId != "" && a.applicantId != "" && TrimSpace(a.companyName) != ""
    && NormalizeCountry(a.country) in ASEAN_COUNTRIES
    && 0 < a.requestedPetaops <= 5000
    && a.materials != []
  }

  predicate ValidApplicationTransition(from: AIStatus, to: AIStatus) {
    match from
    case Pending => to == Approved || to == AIStatus.Returned || to == AIStatus.Cancelled
    case Returned => to == Pending || to == AIStatus.Cancelled
    case Approved => to == AIStatus.Active || to == AIStatus.Cancelled
    case Active => to == Closed
    case _ => false
  }

  predicate ComputeAvailable(c: Cluster, requested: int) {
    requested > 0 && c.totalPetaops - c.allocatedPetaops >= requested
  }

  predicate ServesCountry(countries: seq<string>, country: string) {
    exists i :: 0 <= i < |countries| && NormalizeCountry(countries[i]) == NormalizeCountry(country)
  }

  predicate IsOfferAvailable(o: Offer, country: string, at: Time) {
    && o.effectiveFrom <= at <= o.effectiveTo
    && o.used < o.capacity
    && ServesCountry(o.countries, country)
  }

  method OfferAvailable(o: Offer, country: string, at: Time) returns (ok: bool)
    ensures ok <==> IsOfferAvailable(o, country, at)
  {
    if at < o.effectiveFrom || at > o.effectiveTo {
      return false;
    }
    if o.used >= o.capacity {
      return false;
    }
    for i := 0 to |o.countries|
      invariant forall j :: 0 <= j < i ==> NormalizeCountry(o.countries[j]) != NormalizeCountry(country)
    {
      if NormalizeCountry(o.countries[i]) == NormalizeCountry(country) {
        return true;
      }
    }
    return false;
  }

  // ---------------------------------------------------------------- one call

  datatype Call =
    | AddCluster(cluster: Cluster)
    | AddRoute(route: Route)
    | AddOffer(offer: Offer)
    | AddCommunity(community: Community)
    | Submit(application: Application, now: Time)
    | Reserve(appId: string, clusterId: string, petaops: int, now: Time)
    | Release(appId: string, now: Time)
    | Approve(appId: string, actorId: string, now: Time)
    | Assign(appId: string, routeId: string, mbps: int)
    | Apply(appId: string, offerId: string, now: Time)
    | Enroll(communityId: string, memberId: string)
    | Resubmit(appId: string, materials: seq<string>, now: Time)
    | Close(appId: string, now: Time)

  datatype Stepped = Stepped(registry: Registry, outcome: Outcome)

  function Submitted(a: Application, now: Time): Application {
    a.(companyName := TrimSpace(a.companyName), country := NormalizeCountry(a.country), status := Pending,
       attempt := 1, createdAt := now, updatedAt := now)
  }

  function SubmittedEvent(a: Application, now: Time): AIEvent {
    AIEvent(a.id + "-submitted", a.tenantId, a.id, "application.submitted", a.applicantId, now)
  }

  function ApprovedEvent(appId: string, actorId: string, now: Time): AIEvent {
    AIEvent(appId + "-approved", "", appId, "application.approved", actorId, now)
  }

  predicate LiveReservation(h: Registry, appId: string) {
    appId in h.reservations && h.reservations[appId].releasedAt == None
  }

  /** Why a call is refused, in the order the source tests. */
  function Refusal(h: Registry, c: Call): Option<AIError> {
    match c
    case AddCluster(k) =>
      if k.id == "" || k.totalPetaops <= 0 then Some(BadRequest) else if k.id in h.clusters then Some(Conflict) else None
    case AddRoute(k) =>
      if k.id == "" || k.tenantId == "" || k.country == "" || k.capacityMbps <= 0 then Some(BadRequest)
      else if k.id in h.routes then Some(Conflict) else None
    case AddOffer(k) =>
      if k.id == "" || k.providerId == "" || k.capacity <= 0 || k.effectiveFrom >= k.effectiveTo then Some(BadRequest)
      else if k.id in h.offers then Some(Conflict) else None
    case AddCommunity(k) =>
      if k.id == "" || k.capacity <= 0 then Some(BadRequest) else if k.id in h.communities then Some(Conflict) else None
    case Submit(a, _) =>
      if !ValidApplication(a) then Some(BadRequest) else if a.id in h.applications then Some(Conflict) else None
    case Reserve(id, clusterId, petaops, _) =>
      if petaops <= 0 then Some(BadRequest)
      else if id !in h.applications then Some(ApplicationNotFound)
      else if clusterId !in h.clusters then Some(ClusterNotFound)
      else if h.applications[id].status != Pending && h.applications[id].status != AIStatus.Returned then Some(InvalidState)
      else if !ComputeAvailable(h.clusters[clusterId], petaops) then Some(Capacity)
      else None
    case Release(id, _) =>
      if !LiveReservation(h, id) then None
      else if h.reservations[id].clusterId !in h.clusters then Some(ClusterNotFound)
      else if h.clusters[h.reservations[id].clusterId].allocatedPetaops < h.reservations[id].petaops then Some(Conflict)
      else None
    case Approve(id, actorId, _) =>
      if id !in h.applications then Some(ApplicationNotFound)
      else if actorId == "" then Some(Authorization)
      else if !ValidApplicationTransition(h.applications[id].status, Approved) then Some(InvalidState)
      else if id !in h.reservations then Some(Capacity)
      else
        var route := h.applications[id].routeId;
        if route != "" && (route !in h.routes || !h.routes[route].active) then Some(RouteNotFound) else None
    case Assign(id, routeId, mbps) =>
      if mbps <= 0 then Some(BadRequest)
      else if id !in h.applications then Some(ApplicationNotFound)
      else if routeId !in h.routes then Some(RouteNotFound)
      else
        var a, route := h.applications[id], h.routes[routeId];
        if route.tenantId != a.tenantId || NormalizeCountry(route.country) != NormalizeCountry(a.country) then Some(Authorization)
        else if !route.active || route.capacityMbps - route.allocatedMbps < mbps then Some(Capacity)
        else None
    case Apply(id, offerId, now) =>
      if id !in h.applications then Some(ApplicationNotFound)
      else if offerId !in h.offers then Some(OfferNotFound)
      else if !IsOfferAvailable(h.offers[offerId], h.applications[id].country, now) then Some(Capacity)
      else None
    case Enroll(communityId, memberId) =>
      if TrimSpace(memberId) == "" then Some(BadRequest)
      else if communityId !in h.communities then Some(CommunityNotFound)
      else if memberId in h.communities[communityId].memberIds then None
      else if |h.communities[communityId].memberIds| >= h.communities[communityId].capacity then Some(Capacity)
      else None
    case Resubmit(id, materials, _) =>
      if materials == [] then Some(BadRequest)
      else if id !in h.applications then Some(ApplicationNotFound)
      else if h.applications[id].status != AIStatus.Returned then Some(InvalidState)
      else None
    case Close(id, _) =>
      if id !in h.applications then Some(ApplicationNotFound)
      else if !ValidApplicationTransition(h.applications[id].status, Closed) then Some(InvalidState)
      else None
  }

  function Reserving(h: Registry, id: string, clusterId: string, petaops: int, now: Time): Registry
    requires id in h.applications && clusterId in h.clusters
  {
    var k, a := h.clusters[clusterId], h.applications[id];
    h.(clusters := h.clusters[clusterId := k.(allocatedPetaops := k.allocatedPetaops + petaops, version := k.version + 1)],
       reservations := h.reservations[id := Reservation(id, clusterId, petaops, now, None)],
       applications := h.applications[id := a.(updatedAt := now, version := a.version + 1)])
  }

  /** The cluster is stored under its own id, not under the id the reservation has for it. */
  function Releasing(h: Registry, id: string, now: Time): Registry
    requires LiveReservation(h, id) && h.reservations[id].clusterId in h.clusters
  {
    var r := h.reservations[id];
    var k := h.clusters[r.clusterId];
    h.(clusters := h.clusters[k.id := k.(allocatedPetaops := k.allocatedPetaops - r.petaops, version := k.version + 1)],
       reservations := h.reservations[id := r.(releasedAt := Some(now))])
  }

  /** The registry after a call that is not refused, and the answer. */
  function Accepted(h: Registry, c: Call): Stepped
    requires Refusal(h, c) == None
  {
    match c
    case AddCluster(k) => Stepped(h.(clusters := h.clusters[k.id := k]), Done(Nothing))
    case AddRoute(k) => Stepped(h.(routes := h.routes[k.id := k]), Done(Nothing))
    case AddOffer(k) => Stepped(h.(offers := h.offers[k.id := k]), Done(Nothing))
    case AddCommunity(k) => Stepped(h.(communities := h.communities[k.id := k]), Done(Nothing))
    case Submit(a, now) =>
      var b := Submitted(a, now);
      Stepped(h.(applications := h.applications[a.id := b], events := h.events + [SubmittedEvent(b, now)]), Done(AnApplication(b)))
    case Reserve(id, clusterId, petaops, now) =>
      if LiveReservation(h, id) then Stepped(h, Done(AReservation(h.reservations[id])))
      else
        var after := Reserving(h, id, clusterId, petaops, now);
        Stepped(after, Done(AReservation(after.reservations[id])))
    case Release(id, now) =>
      Stepped(if LiveReservation(h, id) then Releasing(h, id, now) else h, Done(Nothing))
    case Approve(id, actorId, now) =>
      var a := h.applications[id];
      var b := a.(status := Approved, updatedAt := now, version := a.version + 1);
      Stepped(h.(applications := h.applications[id := b], events := h.events + [ApprovedEvent(id, actorId, now)]), Done(AnApplication(b)))
    case Assign(id, routeId, mbps) =>
      var a, k := h.applications[id], h.routes[routeId];
      Stepped(h.(routes := h.routes[routeId := k.(allocatedMbps := k.allocatedMbps + mbps, version := k.version + 1)],
                 applications := h.applications[id := a.(routeId := routeId, version := a.version + 1)]), Done(Nothing))
    case Apply(id, offerId, now) =>
      var a, k := h.applications[id], h.offers[offerId];
      Stepped(h.(offers := h.offers[offerId := k.(used := k.used + 1, version := k.version + 1)],
                 applications := h.applications[id := a.(serviceOfferId := offerId, version := a.version + 1)]), Done(Nothing))
    case Enroll(communityId, memberId) =>
      var k := h.communities[communityId];
      if memberId in k.memberIds then Stepped(h, Done(ACommunity(k)))
      else
        var b := k.(memberIds := k.memberIds + [memberId], version := k.version + 1);
        Stepped(h.(communities := h.communities[communityId := b]), Done(ACommunity(b)))
    case Resubmit(id, materials, now) =>
      var a := h.applications[id];
      var b := a.(status := Pending, attempt := a.attempt + 1, materials := materials, updatedAt := now, version := a.version + 1);
      Stepped(h.(applications := h.applications[id := b]), Done(AnApplication(b)))
    case Close(id, now) =>
      var a := h.applications[id];
      Stepped(h.(applications := h.applications[id := a.(status := Closed, updatedAt := now, version := a.version + 1)]), Done(Nothing))
  }

  function Step(h: Registry, c: Call): Stepped {
    match Refusal(h, c)
    case Some(e) => Stepped(h, Failed(e))
    case None => Accepted(h, c)
  }

  function Next(h: Registry, c: Call): Registry {
    Step(h, c).registry
  }

  /** The registry after `calls`, from an empty one. */
  function Run(calls: seq<Call>): Registry {
    if calls == [] then EMPTY_REGISTRY else Next(Run(calls[..|calls| - 1]), calls[|calls| - 1])
  }

  // ---------------------------------------------------------------- the registry object

  class AIRegistry {
    var applications: map<string, Application>
    var clusters: map<string, Cluster>
    var reservations: map<string, Reservation>
    var routes: map<string, Route>
    var offers: map<string, Offer>
    var communities: map<string, Community>
    var events: seq<AIEvent>

    constructor ()
      ensures State() == EMPTY_REGISTRY
    {
      applications, clusters, reservations := map[], map[], map[];
      routes, offers, communities, events := map[], map[], map[], [];
    }

    function State(): Registry
      reads this
    {
      Registry(applications, clusters, reservations, routes, offers, communities, events)
    }

    method AddCluster(cluster: Cluster) returns (r: Outcome)
      modifies this
      ensures Stepped(State(), r) == Step(old(State()), Call.AddCluster(cluster))
    {
      if cluster.id == "" || cluster.totalPetaops <= 0 {
        return Failed(BadRequest);
      }
      if cluster.id in clusters {
        return Failed(Conflict);
      }
      clusters := clusters[cluster.id := cluster];
      return Done(Nothing);
    }

    method AddRoute(route: Route) returns (r: Outcome)
      modifies this
      ensures Stepped(State(), r) == Step(old(State()), Call.AddRoute(route))
    {
      if route.id == "" || route.tenantId == "" || route.country == "" || route.capacityMbps <= 0 {
        return Failed(BadRequest);
      }
      if route.id in routes {
        return Failed(Conflict);
      }
      routes := routes[route.id := route];
      return Done(Nothing);
    }

    method AddOffer(offer: Offer) returns (r: Outcome)
      modifies this
      ensures Stepped(State(), r) == Step(old(State()), Call.AddOffer(offer))
    {
      if offer.id == "" || offer.providerId == "" || offer.capacity <= 0 || !(offer.effectiveFrom < offer.effectiveTo) {
        return Failed(BadRequest);
      }
      if offer.id in offers {
        return Failed(Conflict);
      }
      offers := offers[offer.id := offer];
      return Done(Nothing);
    }

    method AddCommunity(community: Community) returns (r: Outcome)
      modifies this
      ensures Stepped(State(), r) == Step(old(State()), Call.AddCommunity(community))
    {
      if community.id == "" || community.capacity <= 0 {
        return Failed(BadRequest);
      }
      if community.id in communities {
        return Failed(Conflict);
      }
      communities := communities[community.id := community];
      return Done(Nothing);
    }
  }

  class AIServices {
    const registry: AIRegistry

    constructor (registry: AIRegistry)
      ensures this.registry == registry
    {
      this.registry := registry;
    }

    method SubmitApplication(application: Application, now: Time) returns (r: Outcome)
      modifies registry
      ensures Stepped(registry.State(), r) == Step(old(registry.State()), Submit(application, now))
    {
      if !ValidApplication(application) {
        return Failed(BadRequest);
      }
      var a := application;
      a := a.(companyName := TrimSpace(a.companyName));
      a := a.(country := NormalizeCountry(a.country));
      a := a.(status := Pending, attempt := 1);
      a := a.(createdAt := now, updatedAt := now);
      if a.id in registry.applications {
        return Failed(Conflict);
      }
      registry.applications := registry.applications[a.id := a];
      registry.events := registry.events + [AIEvent(a.id + "-submitted", a.tenantId, a.id, "application.submitted", a.applicantId, now)];
      return Done(AnApplication(a));
    }

    method ReserveCompute(applicationId: string, clusterId: string, petaops: int, now: Time) returns (r: Outcome)
      modifies registry
      ensures Stepped(registry.State(), r) == Step(old(registry.State()), Reserve(applicationId, clusterId, petaops, now))
    {
      if petaops <= 0 {
        return Failed(BadRequest);
      }
      if applicationId !in registry.applications {
        return Failed(ApplicationNotFound);
      }
      var application := registry.applications[applicationId];
      if clusterId !in registry.clusters {
        return Failed(ClusterNotFound);
      }
      var cluster := registry.clusters[clusterId];
      if application.status != Pending && application.status != AIStatus.Returned {
        return Failed(InvalidState);
      }
      if !ComputeAvailable(cluster, petaops) {
        return Failed(Capacity);
      }
      if applicationId in registry.reservations && registry.reservations[applicationId].releasedAt == None {
        return Done(AReservation(registry.reservations[applicationId]));
      }
      cluster := cluster.(allocatedPetaops := cluster.allocatedPetaops + petaops);
      cluster := cluster.(version := cluster.version + 1);
      var reservation := Reservation(applicationId, clusterId, petaops, now, None);
      registry.clusters := registry.clusters[clusterId := cluster];
      registry.reservations := registry.reservations[applicationId := reservation];
      application := application.(updatedAt := now, version := application.version + 1);
      registry.applications := registry.applications[applicationId := application];
      return Done(AReservation(reservation));
    }

    method ReleaseCompute(applicationId: string, now: Time) returns (r: Outcome)
      modifies registry
      ensures Stepped(registry.State(), r) == Step(old(registry.State()), Release(applicationId, now))
    {
      if applicationId !in registry.reservations || registry.reservations[applicationId].releasedAt != None {
        return Done(Nothing);
      }
      var reservation := registry.reservations[applicationId];
      if reservation.clusterId !in registry.clusters {
        return Failed(ClusterNotFound);
      }
      var cluster := registry.clusters[reservation.clusterId];
      if cluster.allocatedPetaops < reservation.petaops {
        return Failed(Conflict);
      }
      cluster := cluster.(allocatedPetaops := cluster.allocatedPetaops - reservation.petaops);
      cluster := cluster.(version := cluster.version + 1);
      reservation := reservation.(releasedAt := Some(now));
      registry.clusters := registry.clusters[cluster.id := cluster];
      registry.reservations := registry.reservations[applicationId := reservation];
      return Done(Nothing);
    }

    method ApproveApplication(applicationId: string, actorId: string, now: Time) returns (r: Outcome)
      modifies registry
      ensures Stepped(registry.State(), r) == Step(old(registry.State()), Approve(applicationId, actorId, now))
    {
      if applicationId !in registry.applications {
        return Failed(ApplicationNotFound);
      }
      var application := registry.applications[applicationId];
      if actorId == "" {
        return Failed(Authorization);
      }
      if !ValidApplicationTransition(application.status, Approved) {
        return Failed(InvalidState);
      }
      if applicationId !in registry.reservations {
        return Failed(Capacity);
      }
      if application.routeId != "" {
        if application.routeId !in registry.routes || !registry.routes[application.routeId].active {
          return Failed(RouteNotFound);
        }
      }
      application := application.(status := Approved, updatedAt := now, version := application.version + 1);
      registry.applications := registry.applications[applicationId := application];
      registry.events := registry.events + [AIEvent(applicationId + "-approved", "", applicationId, "application.approved", actorId, now)];
      return Done(AnApplication(application));
    }

    method AssignRoute(applicationId: string, routeId: string, mbps: int) returns (r: Outcome)
      modifies registry
      ensures Stepped(registry.State(), r) == Step(old(registry.State()), Assign(applicationId, routeId, mbps))
    {
      if mbps <= 0 {
        return Failed(BadRequest);
      }
      if applicationId !in registry.applications {
        return Failed(ApplicationNotFound);
      }
      var application := registry.applications[applicationId];
      if routeId !in registry.routes {
        return Failed(RouteNotFound);
      }
      var route := registry.routes[routeId];
      if route.tenantId != application.tenantId || NormalizeCountry(route.country) != NormalizeCountry(application.country) {
        return Failed(Authorization);
      }
      if !route.active || route.capacityMbps - route.allocatedMbps < mbps {
        return Failed(Capacity);
      }
      route := route.(allocatedMbps := route.allocatedMbps + mbps);
      route := route.(version := route.version + 1);
      application := application.(routeId := routeId, version := application.version + 1);
      registry.routes := registry.routes[routeId := route];
      registry.applications := registry.applications[applicationId := application];
      return Done(Nothing);
    }

    method ApplyOffer(applicationId: string, offerId: string, now: Time) returns (r: Outcome)
      modifies registry
      ensures Stepped(registry.State(), r) == Step(old(registry.State()), Apply(applicationId, offerId, now))
    {
      if applicationId !in registry.applications {
        return Failed(ApplicationNotFound);
      }
      var application := registry.applications[applicationId];
      if offerId !in registry.offers {
        return Failed(OfferNotFound);
      }
      var offer := registry.offers[offerId];
      var available := OfferAvailable(offer, application.country, now);
      if !available {
        return Failed(Capacity);
      }
      offer := offer.(used := offer.used + 1);
      offer := offer.(version := offer.version + 1);
      application := application.(serviceOfferId := offerId, version := application.version + 1);
      registry.offers := registry.offers[offerId := offer];
      registry.applications := registry.applications[applicationId := application];
      return Done(Nothing);
    }

    method EnrollOPC(communityId: string, memberId: string) returns (r: Outcome)
      modifies registry
      ensures Stepped(registry.State(), r) == Step(old(registry.State()), Enroll(communityId, memberId))
    {
      if TrimSpace(memberId) == "" {
        return Failed(BadRequest);
      }
      if communityId !in registry.communities {
        return Failed(CommunityNotFound);
      }
      var community := registry.communities[communityId];
      for i := 0 to |community.memberIds|
        invariant memberId !in community.memberIds[..i]
      {
        if community.memberIds[i] == memberId {
          return Done(ACommunity(community));
        }
      }
      if |community.memberIds| >= community.capacity {
        return Failed(Capacity);
      }
      community := community.(memberIds := community.memberIds + [memberId]);
      community := community.(version := community.version + 1);
      registry.communities := registry.communities[communityId := community];
      return Done(ACommunity(community));
    }

    method ResubmitApplication(applicationId: string, materials: seq<string>, now: Time) returns (r: Outcome)
      modifies registry
      ensures Stepped(registry.State(), r) == Step(old(registry.State()), Resubmit(applicationId, materials, now))
    {
      if |materials| == 0 {
        return Failed(BadRequest);
      }
      if applicationId !in registry.applications {
        return Failed(ApplicationNotFound);
      }
      var application := registry.applications[applicationId];
      if application.status != AIStatus.Returned {
        return Failed(InvalidState);
      }
      application := application.(status := Pending, attempt := application.attempt + 1, materials := materials,
                                  updatedAt := now, version := application.version + 1);
      registry.applications := registry.applications[applicationId := application];
      return Done(AnApplication(application));
    }

    method CloseApplication(applicationId: string, now: Time) returns (r: Outcome)
      modifies registry
      ensures Stepped(registry.State(), r) == Step(old(registry.State()), Close(applicationId, now))
    {
      if applicationId !in registry.applications {
        return Failed(ApplicationNotFound);
      }
      var application := registry.applications[applicationId];
      if !ValidApplicationTransition(application.status, Closed) {
        return Failed(InvalidState);
      }
      application := application.(status := Closed, updatedAt := now, version := application.version + 1);
      registry.applications := registry.applications[applicationId := application];
      return Done(Nothing);
    }
  }
}
