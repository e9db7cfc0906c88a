/**
  Licence renewals. Reading and saving are separate critical sections, and a save names the
  version that was read; any number of renewals may be between the two at once.
 */
module Licensing {
  import opened Domain

  datatype LicenseStatus = Pending | Active | Suspended | Expired

  datatype License = License(
    id: string, storeId: string, ownerId: string, regionCodes: seq<string>, logoVersion: int,
    standardVersion: int, status: LicenseStatus, effectiveFrom: Time, effectiveTo: Time,
    lastInspectionId: string, lastInspectionPass: bool, outstandingActions: int, version: int)

  datatype StoreProfile = StoreProfile(
    id: string, diningEnabled: bool, specialtyRetailEnabled: bool, cultureDisplayEnabled: bool)

  datatype LicenseError = InvalidLicense | NotRenewable | StoreNotCompliant | VersionConflict

  datatype Answer = Renewed(license: License) | Refused(error: LicenseError)

  type Licenses = map<string, License>

  const RENEWAL_WINDOW := 90 * 24 * 3_600_000_000_000

  // ---------------------------------------------------------------- policy

  predicate ThreeStoreModel(store: StoreProfile) {
    store.diningEnabled && store.specialtyRetailEnabled && store.cultureDisplayEnabled
  }

  function CanRenew(license: License, store: StoreProfile, now: Time): Option<LicenseError> {
    if license.status != LicenseStatus.Active || license.storeId != store.id then Some(NotRenewable)
    else if !license.lastInspectionPass || license.outstandingActions != 0 then Some(NotRenewable)
    else if now < license.effectiveTo - RENEWAL_WINDOW then Some(NotRenewable)
    else if !ThreeStoreModel(store) then Some(StoreNotCompliant)
    else None
  }

  // ---------------------------------------------------------------- one renewal

  datatype Renewal = Renewal(licenseId: string, store: StoreProfile, extension: int)

  /** Before the read; between the read and the save, with the licence read; or answered. */
  datatype Phase = Waiting | Holding(copy: License) | Finished(answer: Answer)

  datatype Caller = Caller(renewal: Renewal, phase: Phase)

  /** The read and the checks on what was read. */
  function ReadPhase(licenses: Licenses, r: Renewal, now: Time): Phase {
    if r.licenseId !in licenses then Finished(Refused(InvalidLicense))
    else if r.extension <= 0 then Finished(Refused(NotRenewable))
    else
      var copy := licenses[r.licenseId];
      match CanRenew(copy, r.store, now)
      case Some(e) => Finished(Refused(e))
      case None => Holding(copy)
  }

  /** SaveLicense: `None` when the stored version is not the expected one. */
  function Saved(licenses: Licenses, license: License, expectedVersion: int): Option<Licenses> {
    if license.id in licenses && licenses[license.id].version != expectedVersion then None
    else Some(licenses[license.id := license.(version := expectedVersion + 1)])
  }

  function Extended(copy: License, extension: int): License {
    copy.(effectiveTo := copy.effectiveTo + extension)
  }

  // ---------------------------------------------------------------- many renewals

  datatype Hub = Hub(licenses: Licenses, callers: seq<Caller>)

  /** Caller `i` takes its next step: it reads, or it saves; a finished caller stays as it is. */
  function Step(h: Hub, i: nat, now: Time): Hub
    requires i < |h.callers|
  {
    var c := h.callers[i];
    match c.phase
    case Waiting => h.(callers := h.callers[i := c.(phase := ReadPhase(h.licenses, c.renewal, now))])
    case Holding(copy) =>
      (match Saved(h.licenses, Extended(copy, c.renewal.extension), copy.version)
       case None => h.(callers := h.callers[i := c.(phase := Finished(Refused(VersionConflict)))])
       case Some(licenses) =>
         var answer := Extended(copy, c.renewal.extension).(version := copy.version + 1);
         Hub(licenses, h.callers[i := c.(phase := Finished(Renewed(answer)))]))
    case Finished(_) => h
  }

  datatype Turn = Turn(caller: nat, now: Time)

  /** Turns of callers that do not exist are skipped. */
  function Run(h: Hub, turns: seq<Turn>): Hub {
    if turns == [] then h
    else
      var before := Run(h, turns[..|turns| - 1]);
      var t := turns[|turns| - 1];
      if t.caller < |before.callers| then Step(before, t.caller, t.now) else before
  }

  ghost predicate WellKeyed(licenses: Licenses) {
    forall id :: id in licenses ==> licenses[id].id == id
  }

  predicate Succeeded(c: Caller, id: string) {
    c.renewal.licenseId == id && c.phase.Finished? && c.phase.answer.Renewed?
  }

  /** What the successful renewals of a licence add up to. */
  function TotalExtension(callers: seq<Caller>, id: string): int {
    if callers == [] then 0
    else
      var c := callers[|callers| - 1];
      TotalExtension(callers[..|callers| - 1], id) + (if Succeeded(c, id) then c.renewal.extension else 0)
  }

  function Successes(callers: seq<Caller>, id: string): nat {
    if callers == [] then 0
    else Successes(callers[..|callers| - 1], id) + (if Succeeded(callers[|callers| - 1], id) then 1 else 0)
  }

  lemma {:induction false} CallerChanges(callers: seq<Caller>, i: nat, c: Caller, id: string)
    requires i < |callers| && !Succeeded(callers[i], id)
    ensures TotalExtension(callers[i := c], id) == TotalExtension(callers, id) + (if Succeeded(c, id) then c.renewal.extension else 0)
    ensures Successes(callers[i := c], id) == Successes(callers, id) + (if Succeeded(c, id) then 1 else 0)
    decreases |callers|
  {
    var init := callers[..|callers| - 1];
    if i == |callers| - 1 {
      assert callers[i := c][..|callers| - 1] == init;
    } else {
      assert callers[i := c][..|callers| - 1] == init[i := c];
      CallerChanges(init, i, c, id);
    }
  }

  /** No caller has taken a step. */
  predicate Fresh(callers: seq<Caller>) {
    forall i :: 0 <= i < |callers| ==> callers[i].phase == Waiting
  }

  /** What a caller knows of the licence it is renewing: a copy with the stored version is the stored licence. */
  ghost predicate CallerOk(licenses: Licenses, start: Licenses, c: Caller) {
    var id := c.renewal.licenseId;
    match c.phase
    case Waiting => true
    case Holding(copy) =>
      && c.renewal.extension > 0 && id in licenses && id in start && copy.id == id
      && start[id].version <= copy.version <= licenses[id].version
      && (copy.version == licenses[id].version ==> copy == licenses[id])
    case Finished(answer) =>
      answer.Renewed? ==> id in licenses && id in start && start[id].version < answer.license.version <= licenses[id].version
  }

  ghost predicate Consistent(h: Hub, start: Licenses) {
    && WellKeyed(h.licenses) && h.licenses.Keys == start.Keys
    && (forall id :: id in start ==> start[id].version <= h.licenses[id].version)
    && (forall i :: 0 <= i < |h.callers| ==> CallerOk(h.licenses, start, h.callers[i]))
    && (forall i, j :: 0 <= i < j < |h.callers| && h.callers[i].renewal.licenseId == h.callers[j].renewal.licenseId
          && h.callers[i].phase.Finished? && h.callers[j].phase.Finished?
          && h.callers[i].phase.answer.Renewed? && h.callers[j].phase.answer.Renewed?
          ==> h.callers[i].phase.answer.license.version != h.callers[j].phase.answer.license.version)
  }

  /** The save of a caller whose copy is still current; every other caller's copy of it falls behind. */
  lemma SaveKeepsConsistent(h: Hub, start: Licenses, i: nat, now: Time)
    requires Consistent(h, start) && i < |h.callers| && h.callers[i].phase.Holding?
    requires h.licenses[h.callers[i].renewal.licenseId].version == h.callers[i].phase.copy.version
    ensures Consistent(Step(h, i, now), start)
  {
    var g, id := Step(h, i, now), h.callers[i].renewal.licenseId;
    assert CallerOk(h.licenses, start, h.callers[i]);
    assert g.licenses == h.licenses[id := Extended(h.callers[i].phase.copy, h.callers[i].renewal.extension).(version := h.callers[i].phase.copy.version + 1)];
    assert g.licenses.Keys == h.licenses.Keys;
    forall j | 0 <= j < |g.callers| ensures CallerOk(g.licenses, start, g.callers[j]) {
      assert CallerOk(h.licenses, start, h.callers[j]);
    }
    forall j | 0 <= j < |h.callers| && j != i && h.callers[j].renewal.licenseId == id
        && h.callers[j].phase.Finished? && h.callers[j].phase.answer.Renewed?
      ensures h.callers[j].phase.answer.license.version != g.callers[i].phase.answer.license.version
    {
      assert CallerOk(h.licenses, start, h.callers[j]);
    }
  }

  lemma StepKeepsConsistent(h: Hub, start: Licenses, i: nat, now: Time)
    requires Consistent(h, start) && i < |h.callers|
    ensures Consistent(Step(h, i, now), start)
  {
    var c, g := h.callers[i], Step(h, i, now);
    assert CallerOk(h.licenses, start, c);
    if c.phase.Holding? && h.licenses[c.renewal.licenseId].version == c.phase.copy.version {
      SaveKeepsConsistent(h, start, i, now);
    } else {
      assert g.licenses == h.licenses;
      forall j | 0 <= j < |g.callers| ensures CallerOk(g.licenses, start, g.callers[j]) {
        assert CallerOk(h.licenses, start, h.callers[j]);
      }
    }
  }

  /** Each licence is what it was, but for the extensions and version steps of its successful renewals. */
  ghost predicate Ledger(h: Hub, start: Licenses, id: string)
    requires id in start && id in h.licenses
  {
    h.licenses[id] == start[id].(effectiveTo := start[id].effectiveTo + TotalExtension(h.callers, id),
                                 version := start[id].version + Successes(h.callers, id))
  }

  lemma StepKeepsLedger(h: Hub, start: Licenses, i: nat, now: Time, id: string)
    requires Consistent(h, start) && i < |h.callers| && id in start && Ledger(h, start, id)
    ensures id in Step(h, i, now).licenses && Ledger(Step(h, i, now), start, id)
  {
    var c := h.callers[i];
    assert CallerOk(h.licenses, start, c);
    if !c.phase.Finished? {
      CallerChanges(h.callers, i, Step(h, i, now).callers[i], id);
      assert Step(h, i, now).callers == h.callers[i := Step(h, i, now).callers[i]];
    }
  }

  lemma {:induction false} NothingRenewedYet(callers: seq<Caller>, id: string)
    requires Fresh(callers)
    ensures TotalExtension(callers, id) == 0 && Successes(callers, id) == 0
  {
    if callers != [] {
      NothingRenewedYet(callers[..|callers| - 1], id);
    }
  }

  lemma {:induction false} RunIsConsistent(h: Hub, turns: seq<Turn>)
    requires WellKeyed(h.licenses) && Fresh(h.callers)
    ensures Consistent(Run(h, turns), h.licenses)
    ensures forall id :: id in h.licenses ==> Ledger(Run(h, turns), h.licenses, id)
  {
    if turns == [] {
      forall id | id in h.licenses ensures Ledger(h, h.licenses, id) {
        NothingRenewedYet(h.callers, id);
      }
    } else {
      var t, before := turns[|turns| - 1], Run(h, turns[..|turns| - 1]);
      RunIsConsistent(h, turns[..|turns| - 1]);
      if t.caller < |before.callers| {
        StepKeepsConsistent(before, h.licenses, t.caller, t.now);
        forall id | id in h.licenses ensures Ledger(Run(h, turns), h.licenses, id) {
          StepKeepsLedger(before, h.licenses, t.caller, t.now, id);
        }
      }
    }
  }

  /**
    No renewal is lost. However the steps of any number of renewals interleave, a licence ends
    where its start and its successful extensions put it, its version has moved once for each of
    them, nothing else of it has changed, and no two of them replaced the same version.
   */
  lemma NoLostRenewal(h: Hub, turns: seq<Turn>, id: string)
    requires WellKeyed(h.licenses) && Fresh(h.callers) && id in h.licenses
    ensures var g, was := Run(h, turns), h.licenses[id];
      && id in g.licenses
      && g.licenses[id] == was.(effectiveTo := was.effectiveTo + TotalExtension(g.callers, id),
                                version := was.version + Successes(g.callers, id))
      && (forall i, j :: 0 <= i < j < |g.callers| && Succeeded(g.callers[i], id) && Succeeded(g.callers[j], id) ==>
            g.callers[i].phase.answer.license.version != g.callers[j].phase.answer.license.version)
  {
    RunIsConsistent(h, turns);
    assert Ledger(Run(h, turns), h.licenses, id);
  }

  /**
    A save succeeds exactly when nothing was saved to the licence since it was read, and then what
    it answers is what is stored: the licence as it stood, extended.
   */
  lemma SaveSucceedsExactlyWhenCurrent(h: Hub, turns: seq<Turn>, i: nat, now: Time)
    requires WellKeyed(h.licenses) && Fresh(h.callers)
    requires i < |Run(h, turns).callers| && Run(h, turns).callers[i].phase.Holding?
    ensures var g := Run(h, turns);
      var c, id := g.callers[i], g.callers[i].renewal.licenseId;
      var after := Step(g, i, now);
      && id in g.licenses
      && (Succeeded(after.callers[i], id) <==> g.licenses[id] == c.phase.copy)
      && (Succeeded(after.callers[i], id) ==>
            && id in after.licenses && after.licenses[id] == after.callers[i].phase.answer.license
            && after.licenses[id].effectiveTo == g.licenses[id].effectiveTo + c.renewal.extension)
      && (!Succeeded(after.callers[i], id) ==> after.licenses == g.licenses)
  {
    RunIsConsistent(h, turns);
    assert CallerOk(Run(h, turns).licenses, h.licenses, Run(h, turns).callers[i]);
  }

  // ---------------------------------------------------------------- when a renewal may succeed

  /** What a renewal asks of the licence and the store, apart from the time. */
  predicate Renewable(l: License, r: Renewal) {
    && r.extension > 0 && l.status == LicenseStatus.Active && l.storeId == r.store.id
    && l.lastInspectionPass && l.outstandingActions == 0
    && r.store.diningEnabled && r.store.specialtyRetailEnabled && r.store.cultureDisplayEnabled
  }

  /** The last 90 days of a licence have begun, or it has run out. */
  predicate WindowIsOpen(effectiveTo: Time, now: Time) {
    now >= effectiveTo - 7_776_000_000_000_000
  }

  /** How the read step answers, or that it goes on. */
  lemma ReadAnswers(licenses: Licenses, r: Renewal, now: Time)
    ensures var p := ReadPhase(licenses, r, now);
      if r.licenseId !in licenses then p == Finished(Refused(InvalidLicense))
      else
        var l := licenses[r.licenseId];
        && (p == Holding(l) <==> Renewable(l, r) && WindowIsOpen(l.effectiveTo, now))
        && (p != Holding(l) ==>
              p == Finished(Refused(
                if && r.extension > 0 && l.status == LicenseStatus.Active && l.storeId == r.store.id
                   && l.lastInspectionPass && l.outstandingActions == 0 && WindowIsOpen(l.effectiveTo, now)
                then StoreNotCompliant else NotRenewable)))
  {
  }

  /** The licence after a renewal. */
  predicate Granted(l: License, r: Renewal, m: License) {
    m == l.(effectiveTo := l.effectiveTo + r.extension, version := l.version + 1)
  }

  /**
    A renewal alone is granted exactly if the licence is stored and renewable and its window is open;
    then the licence runs longer by the extension, under the next version, and nothing else changes.
   */
  lemma RenewalAlone(licenses: Licenses, r: Renewal, now: Time)
    requires WellKeyed(licenses)
    ensures var after := Run(Hub(licenses, [Caller(r, Waiting)]), [Turn(0, now), Turn(0, now)]);
      && |after.callers| == 1 && after.callers[0].phase.Finished?
      && var answer := after.callers[0].phase.answer;
         && (answer.Renewed? <==>
               && r.licenseId in licenses && Renewable(licenses[r.licenseId], r)
               && WindowIsOpen(licenses[r.licenseId].effectiveTo, now))
         && (answer.Renewed? ==> Granted(licenses[r.licenseId], r, answer.license))
         && (answer.Renewed? ==> after.licenses == licenses[r.licenseId := answer.license])
         && (answer.Refused? ==> after.licenses == licenses && answer.error != VersionConflict)
  {
    TwoTurns(Hub(licenses, [Caller(r, Waiting)]), now);
    ReadAnswers(licenses, r, now);
  }

  /** Caller `i` took a turn when the window of a licence that ends at `effectiveTo` was open. */
  ghost predicate CameInTime(turns: seq<Turn>, i: nat, effectiveTo: Time) {
    exists t :: t in turns && t.caller == i && WindowIsOpen(effectiveTo, t.now)
  }

  /** A caller that has passed the checks, whatever became of it. */
  predicate HasPassed(c: Caller) {
    c.phase.Holding? || (c.phase.Finished? && c.phase.answer.Renewed?)
  }

  /** It passed them on the licence as it was at the start, in all that no renewal changes. */
  ghost predicate PassedRightly(start: Licenses, turns: seq<Turn>, i: nat, c: Caller) {
    HasPassed(c) ==>
      && c.renewal.licenseId in start && Renewable(start[c.renewal.licenseId], c.renewal)
      && CameInTime(turns, i, start[c.renewal.licenseId].effectiveTo)
  }

  ghost predicate AllPassedRightly(h: Hub, start: Licenses, turns: seq<Turn>) {
    forall i :: 0 <= i < |h.callers| ==> PassedRightly(start, turns, i, h.callers[i])
  }

  lemma {:induction false} ExtensionsAreNotNegative(callers: seq<Caller>, id: string)
    requires forall i :: 0 <= i < |callers| && Succeeded(callers[i], id) ==> callers[i].renewal.extension > 0
    ensures TotalExtension(callers, id) >= 0
  {
    if callers != [] {
      ExtensionsAreNotNegative(callers[..|callers| - 1], id);
    }
  }

  lemma StillInTime(turns: seq<Turn>, t: Turn, i: nat, effectiveTo: Time)
    requires CameInTime(turns, i, effectiveTo)
    ensures CameInTime(turns + [t], i, effectiveTo)
  {
    var u :| u in turns && u.caller == i && WindowIsOpen(effectiveTo, u.now);
    assert u in turns + [t];
  }

  lemma TurnPassesRightly(h: Hub, start: Licenses, turns: seq<Turn>, t: Turn, i: nat)
    requires AllPassedRightly(h, start, turns) && t.caller < |h.callers| && i < |h.callers|
    requires h.licenses.Keys == start.Keys && forall id :: id in start ==> Ledger(h, start, id)
    ensures PassedRightly(start, turns + [t], i, Step(h, t.caller, t.now).callers[i])
  {
    var c, d, id := h.callers[i], Step(h, t.caller, t.now).callers[i], h.callers[i].renewal.licenseId;
    assert PassedRightly(start, turns, i, c);
    if HasPassed(c) {
      StillInTime(turns, t, i, start[id].effectiveTo);
    } else if HasPassed(d) {
      ReadAnswers(h.licenses, c.renewal, t.now);
      assert Ledger(h, start, id);
      forall j | 0 <= j < |h.callers| && Succeeded(h.callers[j], id) ensures h.callers[j].renewal.extension > 0 {
        assert PassedRightly(start, turns, j, h.callers[j]);
      }
      ExtensionsAreNotNegative(h.callers, id);
      assert t in turns + [t];
    }
  }

  lemma {:induction false} RunPassesRightly(h: Hub, turns: seq<Turn>)
    requires WellKeyed(h.licenses) && Fresh(h.callers)
    ensures |Run(h, turns).callers| == |h.callers| && AllPassedRightly(Run(h, turns), h.licenses, turns)
    ensures forall i :: 0 <= i < |h.callers| ==> Run(h, turns).callers[i].renewal == h.callers[i].renewal
  {
    if turns != [] {
      var init, t := turns[..|turns| - 1], turns[|turns| - 1];
      var before := Run(h, init);
      RunPassesRightly(h, init);
      RunIsConsistent(h, init);
      assert turns == init + [t];
      forall i | 0 <= i < |h.callers| ensures PassedRightly(h.licenses, turns, i, Run(h, turns).callers[i]) {
        assert PassedRightly(h.licenses, init, i, before.callers[i]);
        if t.caller < |before.callers| {
          TurnPassesRightly(before, h.licenses, init, t, i);
        } else if HasPassed(before.callers[i]) {
          StillInTime(init, t, i, h.licenses[before.callers[i].renewal.licenseId].effectiveTo);
        }
      }
    }
  }

  /**
    However renewals interleave, one that succeeds asked for an extension of a licence that, from the
    start on, was active, for that store, inspected and without outstanding actions, of a store with
    all three parts; and it came when the window of that licence was open.
   */
  lemma OnlyRenewableIsRenewed(h: Hub, turns: seq<Turn>, i: nat, id: string)
    requires WellKeyed(h.licenses) && Fresh(h.callers) && i < |Run(h, turns).callers|
    requires Succeeded(Run(h, turns).callers[i], id)
    ensures i < |h.callers| && h.callers[i].renewal.licenseId == id && id in h.licenses
    ensures Renewable(h.licenses[id], h.callers[i].renewal) && CameInTime(turns, i, h.licenses[id].effectiveTo)
  {
    RunPassesRightly(h, turns);
    assert PassedRightly(h.licenses, turns, i, Run(h, turns).callers[i]);
  }

  // ---------------------------------------------------------------- the source's objects

  class Registry {
    var licenses: Licenses

    constructor ()
      ensures licenses == map[]
    {
      licenses := map[];
    }

    method SaveLicense(license: License, expectedVersion: int) returns (r: Option<LicenseError>)
      modifies this
      ensures r == None <==> !(license.id in old(licenses) && old(licenses)[license.id].version != expectedVersion)
      ensures r == None ==> licenses == old(licenses)[license.id := license.(version := expectedVersion + 1)]
      ensures r != None ==> licenses == old(licenses) && r == Some(VersionConflict)
    {
      if license.id in licenses && licenses[license.id].version != expectedVersion {
        return Some(VersionConflict);
      }
      var stored := license.(version := expectedVersion + 1);
      licenses := licenses[stored.id := stored];
      return None;
    }
  }

  class Service {
    const registry: Registry

    constructor (registry: Registry)
      ensures this.registry == registry
    {
      this.registry := registry;
    }

    /** RenewLicense, run alone, is the two steps of a caller one after the other. */
    method RenewLicense(renewal: Renewal, now: Time) returns (answer: Answer)
      modifies registry
      ensures var after := Run(Hub(old(registry.licenses), [Caller(renewal, Waiting)]), [Turn(0, now), Turn(0, now)]);
        registry.licenses == after.licenses && after.callers == [Caller(renewal, Finished(answer))]
      ensures WellKeyed(old(registry.licenses)) ==>
        && (answer.Renewed? <==>
              && renewal.licenseId in old(registry.licenses)
              && Renewable(old(registry.licenses)[renewal.licenseId], renewal)
              && WindowIsOpen(old(registry.licenses)[renewal.licenseId].effectiveTo, now))
        && (answer.Renewed? ==> Granted(old(registry.licenses)[renewal.licenseId], renewal, answer.license))
    {
      ghost var h := Hub(registry.licenses, [Caller(renewal, Waiting)]);
      TwoTurns(h, now);
      ReadAnswers(registry.licenses, renewal, now);
      if renewal.licenseId !in registry.licenses {
        return Refused(InvalidLicense);
      }
      var license := registry.licenses[renewal.licenseId];
      if renewal.extension <= 0 {
        return Refused(NotRenewable);
      }
      var refusal := CanRenew(license, renewal.store, now);
      if refusal.Some? {
        return Refused(refusal.value);
      }
      var version := license.version;
      license := license.(effectiveTo := license.effectiveTo + renewal.extension);
      var conflict := registry.SaveLicense(license, version);
      if conflict.Some? {
        return Refused(conflict.value);
      }
      license := license.(version := version + 1);
      return Renewed(license);
    }
  }

  lemma TwoTurns(h: Hub, now: Time)
    requires |h.callers| == 1
    ensures Run(h, [Turn(0, now), Turn(0, now)]) == Step(Step(h, 0, now), 0, now)
  {
    assert [Turn(0, now), Turn(0, now)][..1] == [Turn(0, now)] && [Turn(0, now)][..0] == [];
    assert Run(h, [Turn(0, now)]) == Step(h, 0, now);
  }
}
