/**
  What a lost index can be rebuilt to after runs with rollbacks: exactly when the files of a run can
  be loaded at all, and what a re-routing that was rolled back does to the current referral.
 */
module Recovery {
  import opened Domain
  import opened Tables
  import opened Repo
  import opened Agreement
  import opened Workflow
  import opened Lifecycle
  import opened Maintenance
  import opened Rebuild
  import opened RebuildTheorems
  import opened Rollbacks

  // ---------------------------------------------------------------- which calls file a case

  /**
    The registration gets as far as the append of its case: it is not refused before its
    transaction, and that append, the first, does not fail. Whatever fails later, the line is there.
   */
  ghost predicate FilesCase(g: Config, d: Disk, e: Event) {
    e.call.Register? && RegisterPlan(g, d.index, e.call.req, e.env).Commit? && e.env.fault != AppendFails(0)
  }

  ghost predicate FilesCaseAt(g: Config, events: seq<Event>, i: int) {
    0 <= i < |events| && FilesCase(g, Run(g, EMPTY_DISK, events[..i]), events[i])
  }

  // ---------------------------------------------------------------- one call

  lemma OneRef(files: Files, id: string, ref: string, other: string)
    requires RefLogged(files, id, ref) && RefLogged(files, id, other)
    ensures ref == other
  {
    var a: Case :| Latest(files, Key(Items, id), Some(ItemRec(a))) && a.externalRef == ref;
    var b: Case :| Latest(files, Key(Items, id), Some(ItemRec(b))) && b.externalRef == other;
    LatestUnique(files, Key(Items, id), Some(ItemRec(a)), Some(ItemRec(b)));
  }

  lemma LoggedIsNotUnused(files: Files, id: string, ref: string)
    requires RefLogged(files, id, ref)
    ensures !Latest(files, Key(Items, id), None)
  {
    var a: Case :| Latest(files, Key(Items, id), Some(ItemRec(a))) && a.externalRef == ref;
    if Latest(files, Key(Items, id), None) {
      LatestUnique(files, Key(Items, id), Some(ItemRec(a)), None);
    }
  }

  /** A case in the files, with or without a row, keeps its reference through any call under an unused id. */
  lemma StepKeepsFiledRef(g: Config, d: Disk, e: Event, id: string, ref: string)
    requires Inv(g, d.index) && RefsLogged(d) && UnusedId(d.files, e.call, e.env) && RefLogged(d.files, id, ref)
    ensures RefLogged(Step(g, d, e.call, e.env).disk.files, id, ref)
  {
    LoggedIsNotUnused(d.files, id, ref);
    assert !(e.call.Register? && e.env.uuid1 == id);
    if id in d.index.items {
      assert RefLogged(d.files, id, d.index.items[id].externalRef);
      OneRef(d.files, id, ref, d.index.items[id].externalRef);
      StepKeepsRef(g, d, e.call, e.env, id, ref);
    } else {
      var c: Case :| Latest(d.files, Key(Items, id), Some(ItemRec(c))) && c.externalRef == ref;
      UnknownCaseIsNotWritten(g, d.index, e.call, e.env, id);
      StepLeavesKey(g, d, e.call, e.env, Key(Items, id), Some(ItemRec(c)));
    }
  }

  lemma StepFilesRef(g: Config, d: Disk, e: Event)
    requires UnusedId(d.files, e.call, e.env) && FilesCase(g, d, e)
    ensures RefLogged(Step(g, d, e.call, e.env).disk.files, e.env.uuid1, e.call.req.externalRef)
  {
    FiledCaseIsLatest(g, d, e.call.req, e.env);
    assert RegisterPlan(g, d.index, e.call.req, e.env).value.item.externalRef == e.call.req.externalRef;
  }

  /** A call that does not file the case of an id writes no line under it. */
  lemma StepLeavesOtherIds(g: Config, d: Disk, e: Event, id: string)
    requires Inv(g, d.index) && RefsLogged(d) && Latest(d.files, Key(Items, id), None)
    requires FilesCase(g, d, e) ==> e.env.uuid1 != id
    ensures Latest(Step(g, d, e.call, e.env).disk.files, Key(Items, id), None)
  {
    assert id !in d.index.items by {
      if id in d.index.items {
        LoggedIsNotUnused(d.files, id, d.index.items[id].externalRef);
      }
    }
    if e.call.Register? && !FilesCase(g, d, e) {
      RefusedFilesNothing(g, d, e);
    } else {
      UnknownCaseIsNotWritten(g, d.index, e.call, e.env, id);
      StepLeavesKey(g, d, e.call, e.env, Key(Items, id), None);
    }
  }

  lemma RefusedFilesNothing(g: Config, d: Disk, e: Event)
    requires e.call.Register? && !FilesCase(g, d, e)
    ensures Step(g, d, e.call, e.env).disk.files == d.files
  {
  }

  // ---------------------------------------------------------------- every run

  lemma FilesCaseBefore(g: Config, events: seq<Event>, n: nat, i: int)
    requires i < n <= |events|
    ensures FilesCaseAt(g, events, i) <==> FilesCaseAt(g, events[..n], i)
    ensures 0 <= i ==> events[..n][i] == events[i]
  {
    if 0 <= i {
      assert events[..n][..i] == events[..i];
    }
  }

  lemma UnusedIdsPrefix(g: Config, events: seq<Event>, n: nat)
    requires n <= |events| && UnusedIds(g, EMPTY_DISK, events)
    ensures UnusedIds(g, EMPTY_DISK, events[..n])
  {
    forall i | 0 <= i < n
      ensures UnusedId(Run(g, EMPTY_DISK, events[..n][..i]).files, events[..n][i].call, events[..n][i].env)
    {
      assert events[..n][..i] == events[..i];
    }
  }

  lemma EmptyHasRefs(g: Config)
    ensures Inv(g, EMPTY_INDEX) && RefsLogged(EMPTY_DISK)
  {
  }

  /** The invariants of a run in which no registration uses an id that a line carries. */
  lemma RunInvariants(g: Config, events: seq<Event>)
    requires ConfigOk(g) && UnusedIds(g, EMPTY_DISK, events)
    ensures Inv(g, Run(g, EMPTY_DISK, events).index) && RefsLogged(Run(g, EMPTY_DISK, events))
  {
    EmptyHasRefs(g);
    RunKeepsInv(g, EMPTY_DISK, events);
    RefsStayLogged(g, EMPTY_DISK, events);
  }

  lemma LastCaseIsFiled(g: Config, events: seq<Event>, n: nat)
    requires n + 1 == |events| && UnusedIds(g, EMPTY_DISK, events) && FilesCaseAt(g, events, n)
    ensures RefLogged(Run(g, EMPTY_DISK, events).files, events[n].env.uuid1, events[n].call.req.externalRef)
  {
    UnusedIdsBefore(g, EMPTY_DISK, events);
    StepFilesRef(g, Run(g, EMPTY_DISK, events[..n]), events[n]);
  }

  lemma LastCallKeepsRef(g: Config, events: seq<Event>, n: nat, id: string, ref: string)
    requires ConfigOk(g) && n + 1 == |events| && UnusedIds(g, EMPTY_DISK, events)
    requires RefLogged(Run(g, EMPTY_DISK, events[..n]).files, id, ref)
    ensures RefLogged(Run(g, EMPTY_DISK, events).files, id, ref)
  {
    UnusedIdsBefore(g, EMPTY_DISK, events);
    RunInvariants(g, events[..n]);
    StepKeepsFiledRef(g, Run(g, EMPTY_DISK, events[..n]), events[n], id, ref);
  }

  lemma LastCallLeavesId(g: Config, events: seq<Event>, n: nat, id: string)
    requires ConfigOk(g) && n + 1 == |events| && UnusedIds(g, EMPTY_DISK, events)
    requires Latest(Run(g, EMPTY_DISK, events[..n]).files, Key(Items, id), None)
    requires FilesCaseAt(g, events, n) ==> events[n].env.uuid1 != id
    ensures Latest(Run(g, EMPTY_DISK, events).files, Key(Items, id), None)
  {
    UnusedIdsBefore(g, EMPTY_DISK, events);
    RunInvariants(g, events[..n]);
    StepLeavesOtherIds(g, Run(g, EMPTY_DISK, events[..n]), events[n], id);
  }

  /** A case stays in the files with the reference it was filed with. */
  lemma {:induction false} FiledCaseStays(g: Config, events: seq<Event>, i: nat)
    requires ConfigOk(g) && UnusedIds(g, EMPTY_DISK, events) && FilesCaseAt(g, events, i)
    ensures RefLogged(Run(g, EMPTY_DISK, events).files, events[i].env.uuid1, events[i].call.req.externalRef)
  {
    var n := |events| - 1;
    if i == n {
      LastCaseIsFiled(g, events, n);
    } else {
      UnusedIdsPrefix(g, events, n);
      FilesCaseBefore(g, events, n, i);
      FiledCaseStays(g, events[..n], i);
      LastCallKeepsRef(g, events, n, events[i].env.uuid1, events[i].call.req.externalRef);
    }
  }

  /** And no line is there under any other id. */
  lemma {:induction false} OtherIdsStayUnused(g: Config, events: seq<Event>, id: string)
    requires ConfigOk(g) && UnusedIds(g, EMPTY_DISK, events)
    requires forall i :: FilesCaseAt(g, events, i) ==> events[i].env.uuid1 != id
    ensures Latest(Run(g, EMPTY_DISK, events).files, Key(Items, id), None)
  {
    if |events| > 0 {
      var n := |events| - 1;
      UnusedIdsPrefix(g, events, n);
      forall i | FilesCaseAt(g, events[..n], i) ensures events[..n][i].env.uuid1 != id {
        FilesCaseBefore(g, events, n, i);
      }
      OtherIdsStayUnused(g, events[..n], id);
      LastCallLeavesId(g, events, n, id);
    }
  }

  lemma FiledIdsDiffer(g: Config, events: seq<Event>, i: nat, j: nat)
    requires ConfigOk(g) && UnusedIds(g, EMPTY_DISK, events)
    requires i < j && FilesCaseAt(g, events, i) && FilesCaseAt(g, events, j)
    ensures events[i].env.uuid1 != events[j].env.uuid1
  {
    UnusedIdsPrefix(g, events, j);
    FilesCaseBefore(g, events, j, i);
    FiledCaseStays(g, events[..j], i);
    LoggedIsNotUnused(Run(g, EMPTY_DISK, events[..j]).files, events[i].env.uuid1, events[i].call.req.externalRef);
    assert UnusedId(Run(g, EMPTY_DISK, events[..j]).files, events[j].call, events[j].env);
  }

  /** A case in the files was filed by a call of the run, with the reference it has there. */
  lemma FiledBySomeCall(g: Config, events: seq<Event>, id: string, c: Case) returns (i: nat)
    requires ConfigOk(g) && UnusedIds(g, EMPTY_DISK, events)
    requires Latest(Run(g, EMPTY_DISK, events).files, Key(Items, id), Some(ItemRec(c)))
    ensures FilesCaseAt(g, events, i) && events[i].env.uuid1 == id && events[i].call.req.externalRef == c.externalRef
  {
    var files := Run(g, EMPTY_DISK, events).files;
    if forall j :: FilesCaseAt(g, events, j) ==> events[j].env.uuid1 != id {
      OtherIdsStayUnused(g, events, id);
      LatestUnique(files, Key(Items, id), Some(ItemRec(c)), None);
    }
    i :| FilesCaseAt(g, events, i) && events[i].env.uuid1 == id;
    FiledCaseStays(g, events, i);
    assert RefLogged(files, id, c.externalRef);
    OneRef(files, id, c.externalRef, events[i].call.req.externalRef);
  }

  ghost predicate NoRefFiledTwice(g: Config, events: seq<Event>) {
    forall i, j :: i < j && FilesCaseAt(g, events, i) && FilesCaseAt(g, events, j) ==>
      events[i].call.req.externalRef != events[j].call.req.externalRef
  }

  /**
    When a lost index can be rebuilt. Take any run on an empty store, with any faults and rollbacks
    and whatever its clocks say, in which no registration draws an id that a line carries already.
    All of its files can be loaded into an empty index if and only if no external reference was
    filed by two registrations: that is, if none was filed by one that was rolled back and then by
    another.
   */
  lemma RunFilesLoadExactly(g: Config, events: seq<Event>)
    requires ConfigOk(g) && UnusedIds(g, EMPTY_DISK, events)
    ensures Loadable(Run(g, EMPTY_DISK, events).files, map[]) <==> NoRefFiledTwice(g, events)
  {
    var files := Run(g, EMPTY_DISK, events).files;
    if Loadable(files, map[]) {
      forall i, j | i < j && FilesCaseAt(g, events, i) && FilesCaseAt(g, events, j)
        ensures events[i].call.req.externalRef != events[j].call.req.externalRef
      {
        TwiceFiledBlocks(g, events, i, j);
      }
    }
    if NoRefFiledTwice(g, events) {
      forall i, j, a, b | Latest(files, Key(Items, i), Some(ItemRec(a))) && Latest(files, Key(Items, j), Some(ItemRec(b)))
          && a.externalRef == b.externalRef
        ensures i == j
      {
        var m := FiledBySomeCall(g, events, i, a);
        var n := FiledBySomeCall(g, events, j, b);
        assert m == n;
      }
    }
  }

  lemma TwiceFiledBlocks(g: Config, events: seq<Event>, i: nat, j: nat)
    requires ConfigOk(g) && UnusedIds(g, EMPTY_DISK, events)
    requires i < j && FilesCaseAt(g, events, i) && FilesCaseAt(g, events, j)
    ensures events[i].call.req.externalRef == events[j].call.req.externalRef ==>
      !Loadable(Run(g, EMPTY_DISK, events).files, map[])
  {
    var files := Run(g, EMPTY_DISK, events).files;
    FiledCaseStays(g, events, i);
    FiledCaseStays(g, events, j);
    FiledIdsDiffer(g, events, i, j);
    var a: Case :| Latest(files, Key(Items, events[i].env.uuid1), Some(ItemRec(a))) && a.externalRef == events[i].call.req.externalRef;
    var b: Case :| Latest(files, Key(Items, events[j].env.uuid1), Some(ItemRec(b))) && b.externalRef == events[j].call.req.externalRef;
    if a.externalRef == b.externalRef {
      SameReference(files, map[], events[i].env.uuid1, events[j].env.uuid1, a, b);
    }
  }

  // ---------------------------------------------------------------- a re-routing rolled back

  /** A failure before the line of the new referral is in the file. */
  predicate BeforeReferral(fault: Fault) {
    fault == AppendFails(0) || fault == StatementFails(0) || fault == AppendFails(1)
  }

  /** The writes of a re-evaluation. */
  predicate IsReroute(ws: seq<Write>, id: string, uuid: string) {
    && |ws| == 4 && ws[0] == MarkAssignmentSuperseded(id)
    && ws[1].Save? && ws[1].r.AssignmentRec? && ws[1].r.referral.id == uuid && ws[1].r.referral.itemId == id
    && ws[2].UpdateItem? && ws[3].Save? && ws[3].r.AuditRec?
  }

  lemma ReevaluationReroutes(g: Config, x: Index, id: string, at: Time, env: Env)
    requires Constraints(x)
    ensures var p := PlanOf(g, x, Reevaluate(id, at), env); p.Commit? ==> IsReroute(p.writes, id, env.uuid1)
  {
  }

  lemma EarlyFaultFilesNothing(d: Disk, ws: seq<Write>, at: Time, fault: Fault, id: string, uuid: string)
    requires IsReroute(ws, id, uuid) && BeforeReferral(fault)
    ensures Transact(d, ws, at, fault).disk.files == d.files
  {
    if fault == AppendFails(1) {
      var x := d.index.(referrals := MarkSuperseded(d.index.referrals, id));
      assert RunFrom(d, ws, 0, at, fault) == RunFrom(Disk(d.files, x), ws, 1, at, fault);
    }
  }

  lemma ReferralIsFiled(d: Disk, ws: seq<Write>, at: Time, fault: Fault, id: string, uuid: string)
    requires IsReroute(ws, id, uuid) && !BeforeReferral(fault)
    requires Latest(d.files, Key(Assignments, uuid), None)
    ensures IsReferralKey(Transact(d, ws, at, fault).disk.files, Key(Assignments, uuid), id)
  {
    var k, x := Key(Assignments, uuid), d.index.(referrals := MarkSuperseded(d.index.referrals, id));
    assert RunFrom(d, ws, 0, at, fault) == RunFrom(Disk(d.files, x), ws, 1, at, fault);
    assert FiledLine(x, ws, 1, fault, k) == Some(ws[1].r);
    FiledLineIsLatest(Disk(d.files, x), ws, 1, at, fault, k, None);
    assert Latest(Transact(d, ws, at, fault).disk.files, k, Some(AssignmentRec(ws[1].r.referral)));
  }

  lemma OtherReferralStays(d: Disk, ws: seq<Write>, at: Time, fault: Fault, id: string, uuid: string, k: Key)
    requires IsReroute(ws, id, uuid) && IsReferralKey(d.files, k, id) && k != Key(Assignments, uuid)
    ensures IsReferralKey(Transact(d, ws, at, fault).disk.files, k, id)
  {
    var a: Referral :| Latest(d.files, k, Some(AssignmentRec(a))) && a.itemId == id;
    ReferralKeyed(d.files, k, AssignmentRec(a));
    OtherKeysKeepLatest(d, ws, 0, at, fault, k, Some(AssignmentRec(a)));
  }

  lemma ReferralKeyed(files: Files, k: Key, r: Record)
    requires Latest(files, k, Some(r))
    ensures Names(r, k)
  {
    LatestIsLine(files, k, r);
  }

  lemma ReferralIsLogged(d: Disk, id: string, a: Referral)
    requires Agrees(d) && IdsDistinct(d.index) && a in ReferralsOf(d.index.referrals, id)
    ensures IsReferralKey(d.files, Key(Assignments, a.id), id) && Row(d.index, Key(Assignments, a.id)) == Some(AssignmentRec(a))
  {
    ReferralsOfMember(d.index.referrals, id);
    FindIsMember(d.index);
    LatestIsRow(d, Key(Assignments, a.id), AssignmentRec(a.(isCurrent := true)));
  }

  lemma RerouteFilesTwo(d: Disk, ws: seq<Write>, at: Time, fault: Fault, id: string, uuid: string, k: Key)
    requires IsReroute(ws, id, uuid) && !BeforeReferral(fault)
    requires IsReferralKey(d.files, k, id) && k != Key(Assignments, uuid) && Latest(d.files, Key(Assignments, uuid), None)
    ensures !OneReferralFiled(Transact(d, ws, at, fault).disk.files, id)
  {
    ReferralIsFiled(d, ws, at, fault, id, uuid);
    OtherReferralStays(d, ws, at, fault, id, uuid, k);
  }

  lemma HasSoleCurrent(rs: seq<Referral>, c: Case)
    requires OneCurrent(rs, c)
    ensures SoleCurrent(rs, c.id)
  {
    var a :| IsTheCurrent(rs, c, a);
  }

  lemma OneReferralIsCurrent(g: Config, d: Disk, id: string, x: Index)
    requires Inv(g, d.index) && Agrees(d) && IdsDistinct(d.index)
    requires id in d.index.items && |ReferralsOf(d.index.referrals, id)| == 1
    requires LoadedFrom(d.files, map[], x)
    ensures SoleCurrent(PostProcess(x).referrals, id)
  {
    OneCurrentAfterRebuild(g, d, x, id);
    ReferralsAreOk(g, d.index, id);
    HasSoleCurrent(PostProcess(x).referrals, d.index.items[id]);
  }

  lemma EarlyRerouteFilesNothing(g: Config, d: Disk, id: string, at: Time, env: Env)
    requires Constraints(d.index) && BeforeReferral(env.fault)
    ensures Step(g, d, Reevaluate(id, at), env).disk.files == d.files
  {
    ReevaluationReroutes(g, d.index, id, at, env);
    var p := PlanOf(g, d.index, Reevaluate(id, at), env);
    if p.Commit? {
      EarlyFaultFilesNothing(d, p.writes, env.late, env.fault, id, env.uuid1);
    }
  }

  lemma LateRerouteFilesTwo(g: Config, d: Disk, id: string, at: Time, env: Env)
    requires Constraints(d.index) && PlanOf(g, d.index, Reevaluate(id, at), env).Commit? && !BeforeReferral(env.fault)
    requires Agrees(d) && IdsDistinct(d.index) && FindReferral(d.index.referrals, env.uuid1) == None
    requires |ReferralsOf(d.index.referrals, id)| == 1
    ensures !OneReferralFiled(Step(g, d, Reevaluate(id, at), env).disk.files, id)
  {
    ReevaluationReroutes(g, d.index, id, at, env);
    var p, a := PlanOf(g, d.index, Reevaluate(id, at), env), ReferralsOf(d.index.referrals, id)[0];
    ReferralIsLogged(d, id, a);
    assert Latest(d.files, Key(Assignments, env.uuid1), LoggedRow(d.index, Key(Assignments, env.uuid1)));
    RerouteFilesTwo(d, p.writes, env.late, env.fault, id, env.uuid1, Key(Assignments, a.id));
  }

  /**
    A re-evaluation that is rolled back changes no table, and a case that had one referral still
    has one. But unless it failed before the line of the new referral was in its file, every
    rebuild into an empty index now finds two of them and makes both current.
   */
  lemma RolledBackRerouteSplitsCurrent(g: Config, d: Disk, id: string, at: Time, env: Env, x: Index)
    requires Inv(g, d.index) && Agrees(d) && AllLinesOk(d.files) && IdsDistinct(d.index)
    requires id in d.index.items && |ReferralsOf(d.index.referrals, id)| == 1
    requires PlanOf(g, d.index, Reevaluate(id, at), env).Commit? && Step(g, d, Reevaluate(id, at), env).result.Err?
    requires FindReferral(d.index.referrals, env.uuid1) == None
    requires LoadedFrom(Step(g, d, Reevaluate(id, at), env).disk.files, map[], x)
    ensures Step(g, d, Reevaluate(id, at), env).disk.index == d.index
    ensures SoleCurrent(PostProcess(x).referrals, id) <==> BeforeReferral(env.fault)
  {
    StepOutcomeErr(g, d, Reevaluate(id, at), env);
    if BeforeReferral(env.fault) {
      EarlyRerouteFilesNothing(g, d, id, at, env);
      OneReferralIsCurrent(g, d, id, x);
    } else {
      LateRerouteFilesTwo(g, d, id, at, env);
      StepKeepsLinesOk(g, d, Reevaluate(id, at), env);
      SoleCurrentExactly(Step(g, d, Reevaluate(id, at), env).disk.files, x, id);
    }
  }

  lemma StepOutcomeErr(g: Config, d: Disk, call: Call, env: Env)
    requires Step(g, d, call, env).result.Err?
    ensures Step(g, d, call, env).disk.index == d.index
  {
  }
}
