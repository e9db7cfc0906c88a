/**
  What the AI registry keeps over every run of calls from an empty registry: each resource's
  count is its starting value plus what has been given out and not returned.
 */
module AiTheorems {
  import opened Domain
  import opened AiRegistry
  import Tables

  // ---------------------------------------------------------------- sums over the reservations

  function Weight(r: Reservation, clusterId: string): int {
    if r.clusterId == clusterId && r.releasedAt == None then r.petaops else 0
  }

  ghost function SumOver(rs: map<string, Reservation>, ids: set<string>, clusterId: string): int
    requires ids <= rs.Keys
    decreases ids
  {
    if ids == {} then 0
    else
      var id := Tables.Any(ids);
      Weight(rs[id], clusterId) + SumOver(rs, ids - {id}, clusterId)
  }

  /** Compute held on a cluster by reservations that have not been released. */
  ghost function Live(rs: map<string, Reservation>, clusterId: string): int {
    SumOver(rs, rs.Keys, clusterId)
  }

  lemma {:induction false} SumWithout(rs: map<string, Reservation>, ids: set<string>, id: string, clusterId: string)
    requires ids <= rs.Keys && id in ids
    ensures SumOver(rs, ids, clusterId) == Weight(rs[id], clusterId) + SumOver(rs, ids - {id}, clusterId)
    decreases ids
  {
    var first := Tables.Any(ids);
    if first != id {
      SumWithout(rs, ids - {first}, id, clusterId);
      SumWithout(rs, ids - {id}, first, clusterId);
      assert ids - {first} - {id} == ids - {id} - {first};
    }
  }

  lemma {:induction false} SumFrame(rs: map<string, Reservation>, ss: map<string, Reservation>, ids: set<string>, clusterId: string)
    requires ids <= rs.Keys && ids <= ss.Keys && forall id :: id in ids ==> rs[id] == ss[id]
    ensures SumOver(rs, ids, clusterId) == SumOver(ss, ids, clusterId)
    decreases ids
  {
    if ids != {} {
      SumFrame(rs, ss, ids - {Tables.Any(ids)}, clusterId);
    }
  }

  lemma {:induction false} SumOfNothing(rs: map<string, Reservation>, ids: set<string>, clusterId: string)
    requires ids <= rs.Keys && forall id :: id in ids ==> rs[id].clusterId != clusterId
    ensures SumOver(rs, ids, clusterId) == 0
    decreases ids
  {
    if ids != {} {
      SumOfNothing(rs, ids - {Tables.Any(ids)}, clusterId);
    }
  }

  lemma {:induction false} SumNotNegative(rs: map<string, Reservation>, ids: set<string>, clusterId: string)
    requires ids <= rs.Keys && forall id :: id in ids ==> rs[id].petaops > 0
    ensures SumOver(rs, ids, clusterId) >= 0
    decreases ids
  {
    if ids != {} {
      SumNotNegative(rs, ids - {Tables.Any(ids)}, clusterId);
    }
  }

  /** One reservation against all the others. */
  lemma LiveWithout(rs: map<string, Reservation>, id: string, clusterId: string)
    requires id in rs
    ensures Live(rs, clusterId) == Weight(rs[id], clusterId) + Live(rs - {id}, clusterId)
  {
    SumWithout(rs, rs.Keys, id, clusterId);
    assert (rs - {id}).Keys == rs.Keys - {id};
    SumFrame(rs, rs - {id}, rs.Keys - {id}, clusterId);
  }

  lemma LiveUpdate(rs: map<string, Reservation>, id: string, r: Reservation, clusterId: string)
    ensures Live(rs[id := r], clusterId)
      == Weight(r, clusterId) + Live(rs, clusterId) - (if id in rs then Weight(rs[id], clusterId) else 0)
  {
    LiveWithout(rs[id := r], id, clusterId);
    assert rs[id := r] - {id} == rs - {id};
    if id in rs {
      LiveWithout(rs, id, clusterId);
    } else {
      assert rs - {id} == rs;
    }
  }

  // ---------------------------------------------------------------- shape of a reachable registry

  ghost predicate WellKept(h: Registry) {
    && (forall k :: k in h.clusters ==> h.clusters[k].id == k)
    && (forall a :: a in h.reservations ==>
          && a in h.applications
          && h.reservations[a].clusterId in h.clusters
          && h.reservations[a].petaops > 0)
  }

  lemma NextWellKept(h: Registry, c: Call)
    requires WellKept(h)
    ensures WellKept(Next(h, c))
  {
  }

  lemma {:induction false} RunWellKept(calls: seq<Call>)
    ensures WellKept(Run(calls))
  {
    if calls != [] {
      RunWellKept(calls[..|calls| - 1]);
      NextWellKept(Run(calls[..|calls| - 1]), calls[|calls| - 1]);
    }
  }

  predicate Accepts(h: Registry, c: Call) {
    Step(h, c).outcome.Done?
  }

  function Max(a: int, b: int): int {
    if a < b then b else a
  }

  // ---------------------------------------------------------------- compute

  /** The call that brought a cluster in: the first that passes validation. */
  function FirstCluster(calls: seq<Call>, id: string): Option<Cluster> {
    if calls == [] then None
    else if FirstCluster(calls[..|calls| - 1], id).Some? then FirstCluster(calls[..|calls| - 1], id)
    else
      match calls[|calls| - 1]
      case AddCluster(k) => if k.id == id != "" && k.totalPetaops > 0 then Some(k) else None
      case _ => None
  }

  /** `k` and `l` differ by what the live reservations on the cluster differ by. */
  ghost predicate Balanced(k: Cluster, rs: map<string, Reservation>, l: Cluster, ss: map<string, Reservation>, id: string) {
    && l.allocatedPetaops - Live(ss, id) == k.allocatedPetaops - Live(rs, id)
    && l.totalPetaops == k.totalPetaops && l.region == k.region
    && (l.allocatedPetaops <= k.allocatedPetaops || l.allocatedPetaops <= l.totalPetaops)
  }

  lemma ReservingBalances(h: Registry, appId: string, clusterId: string, petaops: int, now: Time, id: string)
    requires WellKept(h) && id in h.clusters && appId in h.applications && clusterId in h.clusters
    requires !LiveReservation(h, appId) && ComputeAvailable(h.clusters[clusterId], petaops)
    ensures var g := Reserving(h, appId, clusterId, petaops, now);
      Balanced(h.clusters[id], h.reservations, g.clusters[id], g.reservations, id)
  {
    LiveUpdate(h.reservations, appId, Reservation(appId, clusterId, petaops, now, None), id);
  }

  lemma ReleasingBalances(h: Registry, appId: string, now: Time, id: string)
    requires WellKept(h) && id in h.clusters && LiveReservation(h, appId)
    ensures var g := Releasing(h, appId, now);
      id in g.clusters && Balanced(h.clusters[id], h.reservations, g.clusters[id], g.reservations, id)
  {
    LiveUpdate(h.reservations, appId, h.reservations[appId].(releasedAt := Some(now)), id);
  }

  /** Only a reservation and a release touch the reservations and the clusters that are there. */
  lemma OthersLeaveCompute(h: Registry, c: Call, id: string)
    requires id in h.clusters
    requires !(c.Reserve? && Refusal(h, c) == None && !LiveReservation(h, c.appId))
    requires !(c.Release? && Refusal(h, c) == None && LiveReservation(h, c.appId))
    ensures Next(h, c).reservations == h.reservations
    ensures id in Next(h, c).clusters && Next(h, c).clusters[id] == h.clusters[id]
  {
  }

  /** One call moves a cluster's allocation and its live reservations by the same amount. */
  lemma ComputeStep(h: Registry, c: Call, id: string)
    requires WellKept(h) && id in h.clusters
    ensures id in Next(h, c).clusters
    ensures Balanced(h.clusters[id], h.reservations, Next(h, c).clusters[id], Next(h, c).reservations, id)
  {
    if c.Reserve? && Refusal(h, c) == None && !LiveReservation(h, c.appId) {
      ReservingBalances(h, c.appId, c.clusterId, c.petaops, c.now, id);
    } else if c.Release? && Refusal(h, c) == None && LiveReservation(h, c.appId) {
      ReleasingBalances(h, c.appId, c.now, id);
    } else {
      OthersLeaveCompute(h, c, id);
    }
  }

  lemma ClusterArrives(h: Registry, c: Call, id: string)
    requires WellKept(h) && id !in h.clusters
    ensures id in Next(h, c).clusters <==> c.AddCluster? && c.cluster.id == id != "" && c.cluster.totalPetaops > 0
    ensures id in Next(h, c).clusters ==> Next(h, c).clusters[id] == c.cluster && Live(Next(h, c).reservations, id) == 0
  {
    if id in Next(h, c).clusters {
      SumOfNothing(h.reservations, h.reservations.Keys, id);
    }
  }

  /**
    Compute is conserved: in every run a cluster's allocation is what it was registered with plus
    the live reservations on it, and never passes the total unless it was registered past it.
   */
  lemma {:induction false} ComputeIsConserved(calls: seq<Call>, id: string)
    ensures id in Run(calls).clusters <==> FirstCluster(calls, id).Some?
    ensures id in Run(calls).clusters ==>
      var k, first := Run(calls).clusters[id], FirstCluster(calls, id).value;
      && k.allocatedPetaops == first.allocatedPetaops + Live(Run(calls).reservations, id)
      && k.totalPetaops == first.totalPetaops && k.region == first.region
      && k.allocatedPetaops <= Max(k.totalPetaops, first.allocatedPetaops)
  {
    if calls != [] {
      var before, c := calls[..|calls| - 1], calls[|calls| - 1];
      ComputeIsConserved(before, id);
      RunWellKept(before);
      if id in Run(before).clusters {
        ComputeStep(Run(before), c, id);
      } else {
        ClusterArrives(Run(before), c, id);
      }
    }
  }

  /**
    A release is refused exactly when the cluster was registered with a negative allocation that
    the other live reservations do not make up for; the cluster is never missing.
   */
  lemma ReleaseIsRefusedOnlyBelowZero(calls: seq<Call>, appId: string, now: Time)
    ensures LiveReservation(Run(calls), appId) ==> FirstCluster(calls, Run(calls).reservations[appId].clusterId).Some?
    ensures var h := Run(calls);
      !Accepts(h, Release(appId, now)) <==>
        && LiveReservation(h, appId)
        && var id := h.reservations[appId].clusterId;
           FirstCluster(calls, id).value.allocatedPetaops + Live(h.reservations - {appId}, id) < 0
  {
    var h := Run(calls);
    RunWellKept(calls);
    if LiveReservation(h, appId) {
      var id := h.reservations[appId].clusterId;
      ComputeIsConserved(calls, id);
      LiveWithout(h.reservations, appId, id);
    }
  }

  /** With non-negative starts every release is accepted. */
  lemma ReleaseSucceeds(calls: seq<Call>, appId: string, now: Time)
    requires forall k :: AddCluster(k) in calls ==> k.allocatedPetaops >= 0
    ensures Accepts(Run(calls), Release(appId, now))
  {
    var h := Run(calls);
    ReleaseIsRefusedOnlyBelowZero(calls, appId, now);
    if LiveReservation(h, appId) {
      RunWellKept(calls);
      var id := h.reservations[appId].clusterId;
      FirstClusterWasAdded(calls, id);
      SumNotNegative(h.reservations - {appId}, (h.reservations - {appId}).Keys, id);
    }
  }

  lemma {:induction false} FirstClusterWasAdded(calls: seq<Call>, id: string)
    requires FirstCluster(calls, id).Some?
    ensures AddCluster(FirstCluster(calls, id).value) in calls
  {
    if FirstCluster(calls[..|calls| - 1], id).Some? {
      FirstClusterWasAdded(calls[..|calls| - 1], id);
    }
  }

  /** Releasing twice, or reserving while a reservation is live, changes nothing. */
  lemma SecondReleaseAndReserve(h: Registry, appId: string, now: Time, later: Time, clusterId: string, petaops: int)
    ensures var once := Next(h, Release(appId, now));
      Next(once, Release(appId, later)) == once
    ensures LiveReservation(h, appId) ==>
      && Next(h, Reserve(appId, clusterId, petaops, now)) == h
      && (Accepts(h, Reserve(appId, clusterId, petaops, now)) ==>
            Step(h, Reserve(appId, clusterId, petaops, now)).outcome == Done(AReservation(h.reservations[appId])))
  {
  }

  /** A release gives back what the reservation took, whatever was called in between. */
  lemma ReleaseGivesBack(calls: seq<Call>, appId: string, now: Time)
    requires LiveReservation(Run(calls), appId) && Accepts(Run(calls), Release(appId, now))
    ensures var h, r := Run(calls), Run(calls).reservations[appId];
      var after := Next(h, Release(appId, now));
      && r.clusterId in h.clusters && r.clusterId in after.clusters
      && after.clusters[r.clusterId].allocatedPetaops == h.clusters[r.clusterId].allocatedPetaops - r.petaops
      && Live(after.reservations, r.clusterId) == Live(h.reservations - {appId}, r.clusterId)
      && (forall k :: k in h.clusters && k != r.clusterId ==> k in after.clusters && after.clusters[k] == h.clusters[k])
      && !LiveReservation(after, appId)
  {
    var h, r := Run(calls), Run(calls).reservations[appId];
    RunWellKept(calls);
    LiveUpdate(h.reservations, appId, r.(releasedAt := Some(now)), r.clusterId);
    LiveWithout(h.reservations, appId, r.clusterId);
  }

  // ---------------------------------------------------------------- bandwidth

  function FirstRoute(calls: seq<Call>, id: string): Option<Route> {
    if calls == [] then None
    else if FirstRoute(calls[..|calls| - 1], id).Some? then FirstRoute(calls[..|calls| - 1], id)
    else
      match calls[|calls| - 1]
      case AddRoute(k) =>
        if k.id == id != "" && k.tenantId != "" && k.country != "" && k.capacityMbps > 0 then Some(k) else None
      case _ => None
  }

  /** Bandwidth granted on a route by the calls of a run. */
  function Granted(calls: seq<Call>, id: string): int {
    if calls == [] then 0
    else
      var before, c := calls[..|calls| - 1], calls[|calls| - 1];
      Granted(before, id) + (if c.Assign? && c.routeId == id && Accepts(Run(before), c) then c.mbps else 0)
  }

  lemma RouteStep(h: Registry, c: Call, id: string)
    requires id in h.routes
    ensures id in Next(h, c).routes
    ensures var k, l := h.routes[id], Next(h, c).routes[id];
      && l.allocatedMbps == k.allocatedMbps + (if c.Assign? && c.routeId == id && Accepts(h, c) then c.mbps else 0)
      && l.allocatedMbps <= Max(k.allocatedMbps, l.capacityMbps)
      && l == k.(allocatedMbps := l.allocatedMbps, version := l.version)
  {
  }

  lemma RouteArrives(h: Registry, c: Call, id: string)
    requires id !in h.routes
    ensures id in Next(h, c).routes <==>
      c.AddRoute? && c.route.id == id != "" && c.route.tenantId != "" && c.route.country != "" && c.route.capacityMbps > 0
    ensures id in Next(h, c).routes ==> Next(h, c).routes[id] == c.route
    ensures c.Assign? && c.routeId == id ==> !Accepts(h, c)
  {
  }

  /** A route carries what it was registered with plus every grant, within its capacity. */
  lemma {:induction false} BandwidthIsCounted(calls: seq<Call>, id: string)
    ensures id in Run(calls).routes <==> FirstRoute(calls, id).Some?
    ensures id !in Run(calls).routes ==> Granted(calls, id) == 0
    ensures id in Run(calls).routes ==>
      var k, first := Run(calls).routes[id], FirstRoute(calls, id).value;
      && k.allocatedMbps == first.allocatedMbps + Granted(calls, id)
      && k.allocatedMbps <= Max(k.capacityMbps, first.allocatedMbps)
      && k == first.(allocatedMbps := k.allocatedMbps, version := k.version)
  {
    if calls != [] {
      var before, c := calls[..|calls| - 1], calls[|calls| - 1];
      BandwidthIsCounted(before, id);
      if id in Run(before).routes {
        RouteStep(Run(before), c, id);
      } else {
        RouteArrives(Run(before), c, id);
      }
    }
  }

  // ---------------------------------------------------------------- offers

  function FirstOffer(calls: seq<Call>, id: string): Option<Offer> {
    if calls == [] then None
    else if FirstOffer(calls[..|calls| - 1], id).Some? then FirstOffer(calls[..|calls| - 1], id)
    else
      match calls[|calls| - 1]
      case AddOffer(k) =>
        if k.id == id != "" && k.providerId != "" && k.capacity > 0 && k.effectiveFrom < k.effectiveTo then Some(k) else None
      case _ => None
  }

  /** How often the offer has been applied. */
  function Applied(calls: seq<Call>, id: string): nat {
    if calls == [] then 0
    else
      var before, c := calls[..|calls| - 1], calls[|calls| - 1];
      Applied(before, id) + (if c.Apply? && c.offerId == id && Accepts(Run(before), c) then 1 else 0)
  }

  /** How many applications were submitted already naming the offer. */
  function Prefilled(calls: seq<Call>, id: string): nat {
    if calls == [] then 0
    else
      var before, c := calls[..|calls| - 1], calls[|calls| - 1];
      Prefilled(before, id) + (if c.Submit? && c.application.serviceOfferId == id && Accepts(Run(before), c) then 1 else 0)
  }

  function Holders(h: Registry, id: string): set<string> {
    set a | a in h.applications && h.applications[a].serviceOfferId == id
  }

  lemma OfferStep(h: Registry, c: Call, id: string)
    requires id in h.offers
    ensures id in Next(h, c).offers
    ensures var k, l := h.offers[id], Next(h, c).offers[id];
      && l.used == k.used + (if c.Apply? && c.offerId == id && Accepts(h, c) then 1 else 0)
      && l.used <= Max(k.used, l.capacity)
      && l == k.(used := l.used, version := l.version)
  {
  }

  lemma OfferArrives(h: Registry, c: Call, id: string)
    requires id !in h.offers
    ensures id in Next(h, c).offers <==>
      && c.AddOffer? && c.offer.id == id != "" && c.offer.providerId != "" && c.offer.capacity > 0
      && c.offer.effectiveFrom < c.offer.effectiveTo
    ensures id in Next(h, c).offers ==> Next(h, c).offers[id] == c.offer
    ensures c.Apply? && c.offerId == id ==> !Accepts(h, c)
  {
  }

  /** An offer's slots in use are those it came with plus its applications, within its capacity. */
  lemma {:induction false} SlotsAreCounted(calls: seq<Call>, id: string)
    ensures id in Run(calls).offers <==> FirstOffer(calls, id).Some?
    ensures id !in Run(calls).offers ==> Applied(calls, id) == 0
    ensures id in Run(calls).offers ==>
      var k, first := Run(calls).offers[id], FirstOffer(calls, id).value;
      && k.used == first.used + Applied(calls, id)
      && k.used <= Max(k.capacity, first.used)
      && k == first.(used := k.used, version := k.version)
  {
    if calls != [] {
      var before, c := calls[..|calls| - 1], calls[|calls| - 1];
      SlotsAreCounted(before, id);
      if id in Run(before).offers {
        OfferStep(Run(before), c, id);
      } else {
        OfferArrives(Run(before), c, id);
      }
    }
  }

  /** The call gives the offer to an application: by applying it, or by submitting it so. */
  predicate Gives(h: Registry, c: Call, id: string) {
    Accepts(h, c) && ((c.Apply? && c.offerId == id) || (c.Submit? && c.application.serviceOfferId == id))
  }

  /** The call applies an offer to an application that has this one already. */
  predicate Overwrites(h: Registry, c: Call, id: string) {
    c.Apply? && Accepts(h, c) && c.appId in Holders(h, id)
  }

  /** How often an offer was applied to an application that already held offer `id`. */
  function Losses(calls: seq<Call>, id: string): nat {
    if calls == [] then 0
    else
      var before, c := calls[..|calls| - 1], calls[|calls| - 1];
      Losses(before, id) + (if Overwrites(Run(before), c, id) then 1 else 0)
  }

  lemma AppliedHolders(h: Registry, c: Call, id: string)
    requires c.Apply? && Accepts(h, c)
    ensures Holders(Next(h, c), id) == Holders(h, id) - {c.appId} + (if c.offerId == id then {c.appId} else {})
  {
  }

  lemma SubmittedHolders(h: Registry, c: Call, id: string)
    requires c.Submit? && Accepts(h, c)
    ensures c.application.id !in Holders(h, id)
    ensures Holders(Next(h, c), id) == Holders(h, id) + (if c.application.serviceOfferId == id then {c.application.id} else {})
  {
  }

  lemma OthersLeaveHolders(h: Registry, c: Call, id: string)
    requires !((c.Apply? || c.Submit?) && Accepts(h, c))
    ensures Holders(Next(h, c), id) == Holders(h, id)
  {
  }

  lemma HoldersStep(h: Registry, c: Call, id: string)
    ensures |Holders(Next(h, c), id)| + (if Overwrites(h, c, id) then 1 else 0)
      == |Holders(h, id)| + (if Gives(h, c, id) then 1 else 0)
  {
    if c.Apply? && Accepts(h, c) {
      AppliedHolders(h, c, id);
    } else if c.Submit? && Accepts(h, c) {
      SubmittedHolders(h, c, id);
    } else {
      OthersLeaveHolders(h, c, id);
    }
  }

  /**
    Who holds an offer, exactly: in every run the holders are as many as its applications and the
    submissions that named it, less the applications made over it.
   */
  lemma {:induction false} HoldersAreCounted(calls: seq<Call>, id: string)
    ensures |Holders(Run(calls), id)| + Losses(calls, id) == Applied(calls, id) + Prefilled(calls, id)
  {
    if calls != [] {
      var before, c := calls[..|calls| - 1], calls[|calls| - 1];
      HoldersAreCounted(before, id);
      HoldersStep(Run(before), c, id);
    }
  }

  /** An offer has no more holders than slots taken exactly if as many were overwritten as came prefilled. */
  lemma OversoldExactly(calls: seq<Call>, id: string)
    requires id in Run(calls).offers
    ensures FirstOffer(calls, id).Some?
    ensures |Holders(Run(calls), id)| <= Run(calls).offers[id].used - FirstOffer(calls, id).value.used
      <==> Prefilled(calls, id) <= Losses(calls, id)
  {
    HoldersAreCounted(calls, id);
    SlotsAreCounted(calls, id);
  }

  lemma RunSnoc(calls: seq<Call>, c: Call)
    ensures Run(calls + [c]) == Next(Run(calls), c)
  {
    assert (calls + [c])[..|calls|] == calls;
  }

  /** So an offer can have more holders than slots: submissions naming it take none. */
  lemma SubmissionsTakeNoSlot(o: Offer, a: Application, b: Application, now: Time)
    requires Refusal(EMPTY_REGISTRY, AddOffer(o)) == None && o.used == 0 && o.capacity == 1
    requires ValidApplication(a) && ValidApplication(b) && a.id != b.id
    requires a.serviceOfferId == o.id && b.serviceOfferId == o.id
    ensures var h := Run([AddOffer(o), Submit(a, now), Submit(b, now)]);
      o.id in h.offers && |Holders(h, o.id)| > h.offers[o.id].capacity > h.offers[o.id].used
  {
    RunSnoc([], AddOffer(o));
    RunSnoc([AddOffer(o)], Submit(a, now));
    RunSnoc([AddOffer(o), Submit(a, now)], Submit(b, now));
    assert [] + [AddOffer(o)] == [AddOffer(o)];
    assert [AddOffer(o)] + [Submit(a, now)] == [AddOffer(o), Submit(a, now)];
    var calls := [AddOffer(o), Submit(a, now)] + [Submit(b, now)];
    assert calls == [AddOffer(o), Submit(a, now), Submit(b, now)];
    var one := Run([AddOffer(o)]);
    assert one == EMPTY_REGISTRY.(offers := EMPTY_REGISTRY.offers[o.id := o]);
    var two := Run([AddOffer(o), Submit(a, now)]);
    assert two.applications == one.applications[a.id := Submitted(a, now)] && two.offers == one.offers;
    assert Holders(Run(calls), o.id) == {a.id, b.id};
  }

  // ---------------------------------------------------------------- seats

  function FirstCommunity(calls: seq<Call>, id: string): Option<Community> {
    if calls == [] then None
    else if FirstCommunity(calls[..|calls| - 1], id).Some? then FirstCommunity(calls[..|calls| - 1], id)
    else
      match calls[|calls| - 1]
      case AddCommunity(k) => if k.id == id != "" && k.capacity > 0 then Some(k) else None
      case _ => None
  }

  predicate EverEnrolled(calls: seq<Call>, id: string, member: string) {
    && calls != []
    && var before, c := calls[..|calls| - 1], calls[|calls| - 1];
       EverEnrolled(before, id, member) || (c == Enroll(id, member) && Accepts(Run(before), c))
  }

  predicate Distinct(s: seq<string>) {
    forall i, j :: 0 <= i < j < |s| ==> s[i] != s[j]
  }

  lemma OthersLeaveSeats(h: Registry, c: Call, id: string)
    requires id in h.communities && !(c.Enroll? && c.communityId == id && Accepts(h, c))
    ensures id in Next(h, c).communities && Next(h, c).communities[id] == h.communities[id]
  {
  }

  lemma SeatsStep(h: Registry, c: Call, id: string)
    requires id in h.communities
    ensures id in Next(h, c).communities
    ensures var k, l := h.communities[id], Next(h, c).communities[id];
      && k.memberIds <= l.memberIds && (Distinct(k.memberIds) ==> Distinct(l.memberIds))
      && |l.memberIds| <= Max(|k.memberIds|, l.capacity)
      && (forall m :: m in l.memberIds <==> m in k.memberIds || (c == Enroll(id, m) && Accepts(h, c)))
      && l == k.(memberIds := l.memberIds, version := l.version)
  {
    if c.Enroll? && c.communityId == id && Accepts(h, c) {
      assert Refusal(h, c) == None && Next(h, c) == Accepted(h, c).registry;
    } else {
      OthersLeaveSeats(h, c, id);
    }
  }

  lemma CommunityArrives(h: Registry, c: Call, id: string)
    requires id !in h.communities
    ensures id in Next(h, c).communities <==>
      c.AddCommunity? && c.community.id == id != "" && c.community.capacity > 0
    ensures id in Next(h, c).communities ==> Next(h, c).communities[id] == c.community
    ensures c.Enroll? && c.communityId == id ==> !Accepts(h, c)
  {
  }

  /** A community's members are those it came with and everyone enrolled since, once each, within its capacity. */
  lemma {:induction false} SeatsAreCounted(calls: seq<Call>, id: string)
    ensures id in Run(calls).communities <==> FirstCommunity(calls, id).Some?
    ensures id !in Run(calls).communities ==> forall m :: !EverEnrolled(calls, id, m)
    ensures id in Run(calls).communities ==>
      var k, first := Run(calls).communities[id], FirstCommunity(calls, id).value;
      && first.memberIds <= k.memberIds && (Distinct(first.memberIds) ==> Distinct(k.memberIds))
      && |k.memberIds| <= Max(k.capacity, |first.memberIds|)
      && (forall m :: m in k.memberIds <==> m in first.memberIds || EverEnrolled(calls, id, m))
      && k == first.(memberIds := k.memberIds, version := k.version)
  {
    if calls != [] {
      var before, c := calls[..|calls| - 1], calls[|calls| - 1];
      SeatsAreCounted(before, id);
      if id in Run(before).communities {
        SeatsStep(Run(before), c, id);
      } else {
        CommunityArrives(Run(before), c, id);
      }
    }
  }

  // ---------------------------------------------------------------- applications

  function FirstApplication(calls: seq<Call>, id: string): Option<Application> {
    if calls == [] then None
    else if FirstApplication(calls[..|calls| - 1], id).Some? then FirstApplication(calls[..|calls| - 1], id)
    else
      match calls[|calls| - 1]
      case Submit(a, now) => if a.id == id && ValidApplication(a) then Some(Submitted(a, now)) else None
      case _ => None
  }

  function ActionsOn(events: seq<AIEvent>, id: string): seq<string> {
    if events == [] then []
    else
      var e := events[|events| - 1];
      ActionsOn(events[..|events| - 1], id) + (if e.entityId == id then [e.action] else [])
  }

  lemma ActionsAppend(events: seq<AIEvent>, e: AIEvent, id: string)
    ensures ActionsOn(events + [e], id) == ActionsOn(events, id) + (if e.entityId == id then [e.action] else [])
  {
    assert (events + [e])[..|events|] == events;
  }

  /** The parts of an application that no call changes once it is submitted. */
  predicate SameSubmission(a: Application, b: Application) {
    b == a.(status := b.status, routeId := b.routeId, serviceOfferId := b.serviceOfferId, updatedAt := b.updatedAt, version := b.version)
  }

  predicate RouteOk(h: Registry, routeId: string) {
    routeId != "" ==> routeId in h.routes && h.routes[routeId].active
  }

  ghost predicate ApplicationOk(h: Registry, id: string) {
    if id !in h.applications then ActionsOn(h.events, id) == []
    else
      var a := h.applications[id];
      if a.status == Pending then ActionsOn(h.events, id) == ["application.submitted"]
      else
        && a.status == Approved && ActionsOn(h.events, id) == ["application.submitted", "application.approved"]
        && id in h.reservations
        && RouteOk(h, a.routeId)
  }

  /** The event a call records, if it records one. */
  function Recorded(h: Registry, c: Call): Option<AIEvent> {
    if !Accepts(h, c) then None
    else if c.Submit? then Some(SubmittedEvent(Submitted(c.application, c.now), c.now))
    else if c.Approve? then Some(ApprovedEvent(c.appId, c.actorId, c.now))
    else None
  }

  lemma EventsGrow(h: Registry, c: Call)
    ensures Next(h, c).events == if Recorded(h, c).Some? then h.events + [Recorded(h, c).value] else h.events
  {
  }

  /** The action a call records on an application. */
  function ActionOn(h: Registry, c: Call, id: string): seq<string> {
    if Recorded(h, c).Some? && Recorded(h, c).value.entityId == id then [Recorded(h, c).value.action] else []
  }

  lemma EventsStep(h: Registry, c: Call, id: string)
    ensures ActionsOn(Next(h, c).events, id) == ActionsOn(h.events, id) + ActionOn(h, c, id)
  {
    EventsGrow(h, c);
    match Recorded(h, c)
    case Some(e) => ActionsAppend(h.events, e, id);
    case None => NoAction(ActionsOn(h.events, id));
  }

  lemma NoAction(s: seq<string>)
    ensures s + [] == s
  {
  }

  lemma ActionsAre(h: Registry, c: Call, id: string)
    ensures ActionOn(h, c, id) ==
      if !Accepts(h, c) then []
      else if c.Submit? && c.application.id == id then ["application.submitted"]
      else if c.Approve? && c.appId == id then ["application.approved"]
      else []
  {
  }

  lemma ApplicationStays(h: Registry, c: Call, id: string)
    requires id in h.applications && h.applications[id].status in {Pending, Approved}
    ensures id in Next(h, c).applications && SameSubmission(h.applications[id], Next(h, c).applications[id])
  {
  }

  lemma ApplicationArrives(h: Registry, c: Call, id: string)
    requires id !in h.applications
    ensures id in Next(h, c).applications <==> c.Submit? && c.application.id == id && ValidApplication(c.application)
    ensures id in Next(h, c).applications ==> Next(h, c).applications[id] == Submitted(c.application, c.now) && Accepts(h, c)
    ensures c.Approve? && c.appId == id ==> !Accepts(h, c)
  {
  }

  /** The status moves only by an approval, from pending to approved. */
  lemma StatusStep(h: Registry, c: Call, id: string)
    requires id in h.applications && h.applications[id].status in {Pending, Approved} && id in Next(h, c).applications
    ensures c.Approve? && c.appId == id && Accepts(h, c) ==>
      && h.applications[id].status == Pending && Next(h, c).applications[id].status == Approved
      && id in h.reservations && RouteOk(h, h.applications[id].routeId)
    ensures !(c.Approve? && c.appId == id && Accepts(h, c)) ==> Next(h, c).applications[id].status == h.applications[id].status
    ensures c.Submit? && c.application.id == id ==> !Accepts(h, c)
  {
  }

  lemma ResourcesStay(h: Registry, c: Call, id: string)
    requires id in h.applications && id in Next(h, c).applications
    ensures id in h.reservations ==> id in Next(h, c).reservations
    ensures RouteOk(h, h.applications[id].routeId) ==> RouteOk(Next(h, c), Next(h, c).applications[id].routeId)
  {
  }

  lemma ApplicationStaysOk(h: Registry, c: Call, id: string)
    requires ApplicationOk(h, id)
    ensures ApplicationOk(Next(h, c), id)
  {
    EventsStep(h, c, id);
    ActionsAre(h, c, id);
    if id in h.applications {
      ApplicationStays(h, c, id);
      StatusStep(h, c, id);
      ResourcesStay(h, c, id);
    } else {
      ApplicationArrives(h, c, id);
    }
  }

  /**
    In every run an application is pending or approved and nothing else; its events are exactly
    one submission and, once approved, one approval; an approved one has a reservation on record
    and any route it names is there and active; and what was submitted is never rewritten.
   */
  lemma {:induction false} ApplicationsAreTraced(calls: seq<Call>, id: string)
    ensures ApplicationOk(Run(calls), id)
    ensures id in Run(calls).applications <==> FirstApplication(calls, id).Some?
    ensures id in Run(calls).applications ==> SameSubmission(FirstApplication(calls, id).value, Run(calls).applications[id])
  {
    if calls != [] {
      var before, c := calls[..|calls| - 1], calls[|calls| - 1];
      ApplicationsAreTraced(before, id);
      if id in Run(before).applications {
        ApplicationStays(Run(before), c, id);
      } else {
        ApplicationArrives(Run(before), c, id);
      }
      ApplicationStaysOk(Run(before), c, id);
    }
  }

  /** No call ever returns or activates an application, so none can be resubmitted or closed. */
  lemma NothingIsResubmittedOrClosed(calls: seq<Call>, id: string, materials: seq<string>, now: Time)
    ensures !Accepts(Run(calls), Resubmit(id, materials, now)) && !Accepts(Run(calls), Close(id, now))
  {
    ApplicationsAreTraced(calls, id);
  }
}
