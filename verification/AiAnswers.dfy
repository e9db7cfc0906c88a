/**
  What every call of the AI registry answers and changes, field by field: which it accepts, with which
  error it refuses the others, and whom the resources it hands out may go to.
 */
module AiAnswers {
  import opened Domain
  import opened AiRegistry
  import opened AiTheorems

  // ---------------------------------------------------------------- countries

  predicate IsBlank(c: char) {
    c == ' ' || 9 <= c as int <= 13
  }

  function UpperCase(c: char): char {
    if 'a' <= c <= 'z' then (c as int - ('a' as int - 'A' as int)) as char else c
  }

  /** `t` is `s` without blanks at either end. */
  ghost predicate IsTrimmed(s: string, t: string) {
    && (t != "" ==> !IsBlank(t[0]) && !IsBlank(t[|t| - 1]))
    && exists i :: TrimmedAt(s, t, i)
  }

  ghost predicate TrimmedAt(s: string, t: string, i: int) {
    && 0 <= i <= i + |t| <= |s| && s[i..i + |t|] == t
    && (forall j :: 0 <= j < i ==> IsBlank(s[j])) && (forall j :: i + |t| <= j < |s| ==> IsBlank(s[j]))
  }

  lemma {:induction false} LeftTrimmed(s: string) returns (n: nat)
    ensures n <= |s| && TrimLeft(s) == s[n..] && forall j :: 0 <= j < n ==> IsBlank(s[j])
    ensures TrimLeft(s) != "" ==> !IsBlank(TrimLeft(s)[0])
  {
    if s != "" && IsSpace(s[0]) {
      var m := LeftTrimmed(s[1..]);
      n := m + 1;
      forall j | 0 <= j < n ensures IsBlank(s[j]) {
        assert j > 0 ==> s[j] == s[1..][j - 1];
      }
    } else {
      n := 0;
    }
  }

  lemma {:induction false} RightTrimmed(s: string) returns (n: nat)
    ensures n <= |s| && TrimRight(s) == s[..n] && forall j :: n <= j < |s| ==> IsBlank(s[j])
    ensures n > 0 ==> !IsBlank(s[n - 1])
  {
    if s != "" && IsSpace(s[|s| - 1]) {
      n := RightTrimmed(s[..|s| - 1]);
    } else {
      n := |s|;
    }
  }

  lemma TrimSpaceTrims(s: string)
    ensures IsTrimmed(s, TrimSpace(s))
  {
    var i := LeftTrimmed(s);
    var l := TrimLeft(s);
    var n := RightTrimmed(l);
    var t := TrimSpace(s);
    assert t == l[..n] && l == s[i..];
    assert TrimmedAt(s, t, i);
  }

  /** There is one way to trim a text. */
  lemma TrimmedIsUnique(s: string, t: string, u: string)
    requires IsTrimmed(s, t) && IsTrimmed(s, u)
    ensures t == u
  {
    var i :| TrimmedAt(s, t, i);
    var j :| TrimmedAt(s, u, j);
    if t != "" && u != "" {
      assert s[i] == t[0] && s[j] == u[0];
      assert i == j;
      assert s[i + |t| - 1] == t[|t| - 1] && s[j + |u| - 1] == u[|u| - 1];
      assert |t| == |u|;
    } else {
      BlankText(s, t, i, u, j);
    }
  }

  lemma BlankText(s: string, t: string, i: int, u: string, j: int)
    requires TrimmedAt(s, t, i) && TrimmedAt(s, u, j) && (t == "" || u == "")
    requires (t != "" ==> !IsBlank(t[0])) && (u != "" ==> !IsBlank(u[0]))
    ensures t == u
  {
    AllBlank(s, t, i);
    AllBlank(s, u, j);
  }

  lemma AllBlank(s: string, t: string, i: int)
    requires TrimmedAt(s, t, i) && (t != "" ==> !IsBlank(t[0]))
    ensures t == "" <==> forall k :: 0 <= k < |s| ==> IsBlank(s[k])
  {
    if t != "" {
      assert s[i] == t[0];
    }
  }

  /** Countries are compared without the blanks around them and without regard to case. */
  lemma CountryIsNormalized(country: string, t: string)
    requires IsTrimmed(country, t)
    ensures |NormalizeCountry(country)| == |t|
    ensures forall i :: 0 <= i < |t| ==> NormalizeCountry(country)[i] == UpperCase(t[i])
  {
    TrimSpaceTrims(country);
    TrimmedIsUnique(country, t, TrimSpace(country));
  }

  /** Both are names of one country. */
  predicate SameCountry(a: string, b: string) {
    NormalizeCountry(a) == NormalizeCountry(b)
  }

  predicate IsAsean(country: string) {
    NormalizeCountry(country) in {"VN", "TH", "ID", "MY", "SG", "KH", "PH", "LA", "MM", "BN"}
  }

  // ---------------------------------------------------------------- resources come in

  /** A new cluster needs an id and a positive total. */
  lemma AddClusterAnswers(h: Registry, k: Cluster)
    ensures Step(h, AddCluster(k)) ==
      if k.id == "" || k.totalPetaops <= 0 then Stepped(h, Failed(BadRequest))
      else if k.id in h.clusters then Stepped(h, Failed(Conflict))
      else Stepped(h.(clusters := h.clusters[k.id := k]), Done(Nothing))
  {
  }

  lemma AddRouteAnswers(h: Registry, k: Route)
    ensures Step(h, AddRoute(k)) ==
      if "" in {k.id, k.tenantId, k.country} || k.capacityMbps <= 0 then Stepped(h, Failed(BadRequest))
      else if k.id in h.routes then Stepped(h, Failed(Conflict))
      else Stepped(h.(routes := h.routes[k.id := k]), Done(Nothing))
  {
  }

  lemma AddOfferAnswers(h: Registry, k: Offer)
    ensures Step(h, AddOffer(k)) ==
      if "" in {k.id, k.providerId} || k.capacity <= 0 || k.effectiveTo <= k.effectiveFrom then Stepped(h, Failed(BadRequest))
      else if k.id in h.offers then Stepped(h, Failed(Conflict))
      else Stepped(h.(offers := h.offers[k.id := k]), Done(Nothing))
  {
  }

  lemma AddCommunityAnswers(h: Registry, k: Community)
    ensures Step(h, AddCommunity(k)) ==
      if k.id == "" || k.capacity <= 0 then Stepped(h, Failed(BadRequest))
      else if k.id in h.communities then Stepped(h, Failed(Conflict))
      else Stepped(h.(communities := h.communities[k.id := k]), Done(Nothing))
  {
  }

  // ---------------------------------------------------------------- applications

  /** An application is complete: who, for whom, where, how much, and with what. */
  predicate IsComplete(a: Application, companyName: string) {
    && a.id != "" && a.tenantId != "" && a.applicantId != "" && companyName != "" && IsAsean(a.country)
    && 1 <= a.requestedPetaops <= 5000 && |a.materials| > 0
  }

  /** A submission is taken exactly if it is complete and its id is new. */
  lemma SubmitAnswers(h: Registry, a: Application, now: Time, companyName: string)
    requires IsTrimmed(a.companyName, companyName)
    ensures Step(h, Submit(a, now)) ==
      if !IsComplete(a, companyName) then Stepped(h, Failed(BadRequest))
      else if a.id in h.applications then Stepped(h, Failed(Conflict))
      else
        var b := a.(companyName := companyName, country := NormalizeCountry(a.country), status := Pending, attempt := 1,
                    createdAt := now, updatedAt := now);
        Stepped(
          h.(applications := h.applications[a.id := b],
             events := h.events + [AIEvent(id := a.id + "-submitted", tenantId := a.tenantId, entityId := a.id,
                                           action := "application.submitted", actorId := a.applicantId, at := now)]),
          Done(AnApplication(b)))
  {
    TrimSpaceTrims(a.companyName);
    TrimmedIsUnique(a.companyName, companyName, TrimSpace(a.companyName));
  }

  /** A reservation that has not been released. */
  predicate Reserved(h: Registry, id: string) {
    id in h.reservations && h.reservations[id].releasedAt.None?
  }

  /**
    Compute is reserved exactly for a stored application that is pending or returned, on a stored
    cluster with at least that much free; an application that has a reservation is answered with it,
    though only if the cluster it names now has that much free.
   */
  lemma ReserveAnswers(h: Registry, id: string, clusterId: string, petaops: int, now: Time)
    ensures var s := Step(h, Reserve(id, clusterId, petaops, now));
      if petaops <= 0 then s == Stepped(h, Failed(BadRequest))
      else if id !in h.applications then s == Stepped(h, Failed(ApplicationNotFound))
      else if clusterId !in h.clusters then s == Stepped(h, Failed(ClusterNotFound))
      else if h.applications[id].status !in {Pending, AIStatus.Returned} then s == Stepped(h, Failed(InvalidState))
      else
        var k, a := h.clusters[clusterId], h.applications[id];
        if petaops > k.totalPetaops - k.allocatedPetaops then s == Stepped(h, Failed(Capacity))
        else if Reserved(h, id) then s == Stepped(h, Done(AReservation(h.reservations[id])))
        else
          var r := Reservation(applicationId := id, clusterId := clusterId, petaops := petaops, reservedAt := now, releasedAt := None);
          s == Stepped(
            h.(clusters := h.clusters[clusterId := k.(allocatedPetaops := k.allocatedPetaops + petaops, version := k.version + 1)],
               reservations := h.reservations[id := r],
               applications := h.applications[id := a.(updatedAt := now, version := a.version + 1)]),
            Done(AReservation(r)))
  {
  }

  /** The registry after giving back a reservation. */
  function GivenBack(h: Registry, id: string, now: Time): Registry
    requires id in h.reservations && h.reservations[id].clusterId in h.clusters
  {
    var r := h.reservations[id];
    var k := h.clusters[r.clusterId];
    h.(clusters := h.clusters[r.clusterId := k.(allocatedPetaops := k.allocatedPetaops - r.petaops, version := k.version + 1)],
       reservations := h.reservations[id := r.(releasedAt := Some(now))])
  }

  lemma ReleaseStep(h: Registry, id: string, now: Time)
    requires Reserved(h, id) ==> h.reservations[id].clusterId in h.clusters
    requires Reserved(h, id) ==> h.clusters[h.reservations[id].clusterId].id == h.reservations[id].clusterId
    ensures Step(h, Release(id, now)) ==
      if !Reserved(h, id) then Stepped(h, Done(Nothing))
      else if h.clusters[h.reservations[id].clusterId].allocatedPetaops < h.reservations[id].petaops then Stepped(h, Failed(Conflict))
      else Stepped(GivenBack(h, id, now), Done(Nothing))
  {
  }

  /** A release in any run: nothing to do, refused for want of allocation, or the amount goes back. */
  lemma ReleaseAnswers(calls: seq<Call>, id: string, now: Time)
    ensures var h := Run(calls);
      && (Reserved(h, id) ==> h.reservations[id].clusterId in h.clusters)
      && Step(h, Release(id, now)) ==
           if !Reserved(h, id) then Stepped(h, Done(Nothing))
           else if h.clusters[h.reservations[id].clusterId].allocatedPetaops < h.reservations[id].petaops then Stepped(h, Failed(Conflict))
           else Stepped(GivenBack(h, id, now), Done(Nothing))
  {
    RunWellKept(calls);
    ReleaseStep(Run(calls), id, now);
  }

  /** The application's route, if it names one, is there and active. */
  predicate RouteIsUp(h: Registry, routeId: string) {
    routeId == "" || (routeId in h.routes && h.routes[routeId].active)
  }

  /** An approval needs an actor, a pending application, a reservation on record, and a route that is up. */
  lemma ApproveAnswers(h: Registry, id: string, actorId: string, now: Time)
    ensures var s := Step(h, Approve(id, actorId, now));
      if id !in h.applications then s == Stepped(h, Failed(ApplicationNotFound))
      else if actorId == "" then s == Stepped(h, Failed(Authorization))
      else if h.applications[id].status != Pending then s == Stepped(h, Failed(InvalidState))
      else if id !in h.reservations then s == Stepped(h, Failed(Capacity))
      else if !RouteIsUp(h, h.applications[id].routeId) then s == Stepped(h, Failed(RouteNotFound))
      else
        var a := h.applications[id];
        var b := a.(status := Approved, updatedAt := now, version := a.version + 1);
        s == Stepped(
          h.(applications := h.applications[id := b],
             events := h.events + [AIEvent(id := id + "-approved", tenantId := "", entityId := id,
                                           action := "application.approved", actorId := actorId, at := now)]),
          Done(AnApplication(b)))
  {
  }

  /** A route goes only to an application of its own tenant and country, while it is active and has that much free. */
  lemma AssignAnswers(h: Registry, id: string, routeId: string, mbps: int)
    ensures var s := Step(h, Assign(id, routeId, mbps));
      if mbps <= 0 then s == Stepped(h, Failed(BadRequest))
      else if id !in h.applications then s == Stepped(h, Failed(ApplicationNotFound))
      else if routeId !in h.routes then s == Stepped(h, Failed(RouteNotFound))
      else
        var a, k := h.applications[id], h.routes[routeId];
        if !(a.tenantId == k.tenantId && SameCountry(a.country, k.country)) then s == Stepped(h, Failed(Authorization))
        else if !(k.active && mbps <= k.capacityMbps - k.allocatedMbps) then s == Stepped(h, Failed(Capacity))
        else s == Stepped(
          h.(routes := h.routes[routeId := k.(allocatedMbps := k.allocatedMbps + mbps, version := k.version + 1)],
             applications := h.applications[id := a.(routeId := routeId, version := a.version + 1)]),
          Done(Nothing))
  {
  }

  /** The call is accepted exactly so, in every run. */
  lemma AssignIsAccepted(calls: seq<Call>, id: string, routeId: string, mbps: int)
    ensures var h := Run(calls);
      Accepts(h, Assign(id, routeId, mbps)) <==>
        && mbps > 0 && id in h.applications && routeId in h.routes
        && h.routes[routeId].tenantId == h.applications[id].tenantId
        && SameCountry(h.routes[routeId].country, h.applications[id].country)
        && h.routes[routeId].active && mbps <= h.routes[routeId].capacityMbps - h.routes[routeId].allocatedMbps
  {
    AssignAnswers(Run(calls), id, routeId, mbps);
  }

  /** An offer goes to a stored application while it runs, has a slot free, and serves that country. */
  lemma ApplyAnswers(h: Registry, id: string, offerId: string, now: Time)
    ensures var s := Step(h, Apply(id, offerId, now));
      if id !in h.applications then s == Stepped(h, Failed(ApplicationNotFound))
      else if offerId !in h.offers then s == Stepped(h, Failed(OfferNotFound))
      else
        var a, k := h.applications[id], h.offers[offerId];
        if && k.effectiveFrom <= now <= k.effectiveTo && k.used < k.capacity
           && exists c :: c in k.countries && SameCountry(c, a.country) then
          s == Stepped(
            h.(offers := h.offers[offerId := k.(used := k.used + 1, version := k.version + 1)],
               applications := h.applications[id := a.(serviceOfferId := offerId, version := a.version + 1)]),
            Done(Nothing))
        else s == Stepped(h, Failed(Capacity))
  {
    if id in h.applications && offerId in h.offers {
      CountriesServed(h.offers[offerId].countries, h.applications[id].country);
    }
  }

  lemma CountriesServed(countries: seq<string>, country: string)
    ensures ServesCountry(countries, country) <==> exists c :: c in countries && SameCountry(c, country)
  {
    if i :| 0 <= i < |countries| && SameCountry(countries[i], country) {
      assert countries[i] in countries;
    }
  }

  /** A member with a name gets a seat while there is one; a member who has one is answered with the community. */
  lemma EnrollAnswers(h: Registry, communityId: string, memberId: string, name: string)
    requires IsTrimmed(memberId, name)
    ensures var s := Step(h, Enroll(communityId, memberId));
      if name == "" then s == Stepped(h, Failed(BadRequest))
      else if communityId !in h.communities then s == Stepped(h, Failed(CommunityNotFound))
      else
        var k := h.communities[communityId];
        if memberId in k.memberIds then s == Stepped(h, Done(ACommunity(k)))
        else if |k.memberIds| >= k.capacity then s == Stepped(h, Failed(Capacity))
        else
          var b := k.(memberIds := k.memberIds + [memberId], version := k.version + 1);
          s == Stepped(h.(communities := h.communities[communityId := b]), Done(ACommunity(b)))
  {
    TrimSpaceTrims(memberId);
    TrimmedIsUnique(memberId, name, TrimSpace(memberId));
  }

  /** Resubmitting and closing, from any registry: a returned application, and an active one. */
  lemma ResubmitAnswers(h: Registry, id: string, materials: seq<string>, now: Time)
    ensures var s := Step(h, Resubmit(id, materials, now));
      if |materials| == 0 then s == Stepped(h, Failed(BadRequest))
      else if id !in h.applications then s == Stepped(h, Failed(ApplicationNotFound))
      else if h.applications[id].status != AIStatus.Returned then s == Stepped(h, Failed(InvalidState))
      else
        var a := h.applications[id];
        var b := a.(status := Pending, attempt := a.attempt + 1, materials := materials, updatedAt := now, version := a.version + 1);
        s == Stepped(h.(applications := h.applications[id := b]), Done(AnApplication(b)))
  {
  }

  lemma CloseAnswers(h: Registry, id: string, now: Time)
    ensures var s := Step(h, Close(id, now));
      if id !in h.applications then s == Stepped(h, Failed(ApplicationNotFound))
      else if h.applications[id].status != AIStatus.Active then s == Stepped(h, Failed(InvalidState))
      else
        var a := h.applications[id];
        s == Stepped(h.(applications := h.applications[id := a.(status := Closed, updatedAt := now, version := a.version + 1)]),
                     Done(Nothing))
  {
  }

  // ---------------------------------------------------------------- whom resources go to

  /** The application's route, unless it is the one it was submitted with, is of its tenant and country. */
  ghost predicate RouteFits(h: Registry, a: Application, submitted: Application) {
    a.routeId != submitted.routeId ==>
      && a.routeId in h.routes && h.routes[a.routeId].tenantId == a.tenantId
      && SameCountry(h.routes[a.routeId].country, a.country)
  }

  /** A route keeps its tenant and country, and stays. */
  lemma RoutesStayPut(h: Registry, c: Call)
    ensures forall k :: k in h.routes ==>
      && k in Next(h, c).routes && Next(h, c).routes[k].tenantId == h.routes[k].tenantId
      && Next(h, c).routes[k].country == h.routes[k].country
  {
    forall k | k in h.routes ensures k in Next(h, c).routes && Next(h, c).routes[k].tenantId == h.routes[k].tenantId
        && Next(h, c).routes[k].country == h.routes[k].country {
      RouteStep(h, c, k);
    }
  }

  /** Only an assignment changes the route of an application that is there. */
  lemma RouteIsAssigned(h: Registry, c: Call, id: string)
    requires id in h.applications && id in Next(h, c).applications
    requires Next(h, c).applications[id].routeId != h.applications[id].routeId
    ensures c.Assign? && c.appId == id && Accepts(h, c) && Next(h, c).applications[id].routeId == c.routeId
  {
  }

  lemma RouteStillFits(h: Registry, c: Call, id: string, submitted: Application)
    requires id in h.applications && id in Next(h, c).applications
    requires SameSubmission(submitted, h.applications[id]) && SameSubmission(submitted, Next(h, c).applications[id])
    requires RouteFits(h, h.applications[id], submitted)
    ensures RouteFits(Next(h, c), Next(h, c).applications[id], submitted)
  {
    RoutesStayPut(h, c);
    if Next(h, c).applications[id].routeId != h.applications[id].routeId {
      RouteIsAssigned(h, c, id);
      AssignAnswers(h, id, c.routeId, c.mbps);
    }
  }

  /**
    In every run an application whose route is not the one it was submitted with has a route of its
    own tenant and country. (What it was submitted with is not checked.)
   */
  lemma {:induction false} RoutesGoToTheirTenants(calls: seq<Call>, id: string)
    ensures id in Run(calls).applications ==>
      FirstApplication(calls, id).Some? && RouteFits(Run(calls), Run(calls).applications[id], FirstApplication(calls, id).value)
  {
    ApplicationsAreTraced(calls, id);
    if calls != [] {
      var before, c := calls[..|calls| - 1], calls[|calls| - 1];
      RoutesGoToTheirTenants(before, id);
      ApplicationsAreTraced(before, id);
      if id in Run(before).applications && id in Run(calls).applications {
        RouteStillFits(Run(before), c, id, FirstApplication(before, id).value);
      } else if id in Run(calls).applications {
        ApplicationArrives(Run(before), c, id);
      }
    }
  }

  /** The application's offer, unless it was submitted naming it, serves its country. */
  ghost predicate OfferFits(h: Registry, a: Application, submitted: Application) {
    a.serviceOfferId != submitted.serviceOfferId ==>
      a.serviceOfferId in h.offers && exists c :: c in h.offers[a.serviceOfferId].countries && SameCountry(c, a.country)
  }

  lemma OffersStayPut(h: Registry, c: Call)
    ensures forall k :: k in h.offers ==> k in Next(h, c).offers && Next(h, c).offers[k].countries == h.offers[k].countries
  {
    forall k | k in h.offers ensures k in Next(h, c).offers && Next(h, c).offers[k].countries == h.offers[k].countries {
      OfferStep(h, c, k);
    }
  }

  lemma OfferIsApplied(h: Registry, c: Call, id: string)
    requires id in h.applications && id in Next(h, c).applications
    requires Next(h, c).applications[id].serviceOfferId != h.applications[id].serviceOfferId
    ensures c.Apply? && c.appId == id && Accepts(h, c) && Next(h, c).applications[id].serviceOfferId == c.offerId
  {
  }

  lemma OfferStillFits(h: Registry, c: Call, id: string, submitted: Application)
    requires id in h.applications && id in Next(h, c).applications
    requires SameSubmission(submitted, h.applications[id]) && SameSubmission(submitted, Next(h, c).applications[id])
    requires OfferFits(h, h.applications[id], submitted)
    ensures OfferFits(Next(h, c), Next(h, c).applications[id], submitted)
  {
    OffersStayPut(h, c);
    if Next(h, c).applications[id].serviceOfferId != h.applications[id].serviceOfferId {
      OfferIsApplied(h, c, id);
      ApplyAnswers(h, id, c.offerId, c.now);
    }
  }

  /** In every run an application whose offer is not the one it named at first has one that serves its country. */
  lemma {:induction false} OffersServeTheirCountries(calls: seq<Call>, id: string)
    ensures id in Run(calls).applications ==>
      FirstApplication(calls, id).Some? && OfferFits(Run(calls), Run(calls).applications[id], FirstApplication(calls, id).value)
  {
    ApplicationsAreTraced(calls, id);
    if calls != [] {
      var before, c := calls[..|calls| - 1], calls[|calls| - 1];
      OffersServeTheirCountries(before, id);
      ApplicationsAreTraced(before, id);
      if id in Run(before).applications && id in Run(calls).applications {
        OfferStillFits(Run(before), c, id, FirstApplication(before, id).value);
      } else if id in Run(calls).applications {
        ApplicationArrives(Run(before), c, id);
      }
    }
  }
}
