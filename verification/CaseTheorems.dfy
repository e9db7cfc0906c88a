/**
  What the invariant means for a reader: routing, escalation history, the current referral, and
  the fate of closed cases, in every state that any run of calls and in-place rebuilds can reach.
 */
module CaseTheorems {
  import opened Domain
  import opened Dispatch
  import opened Tables
  import opened Repo
  import opened Workflow
  import opened Lifecycle
  import opened Maintenance

  /**
    The states a store can be in: any service calls, any faults, and rebuilds in place that can
    read all the files, from an empty data directory. A rebuild into another index, or past files
    that cannot be read, is not among them: what it gives is in RebuildTheorems.
   */
  ghost predicate Reachable(g: Config, x: Index) {
    exists acts: seq<Act>, disks: seq<Disk> :: IsTrace(g, acts, disks) && x == disks[|acts|].index
  }

  lemma ReachableInv(g: Config, x: Index)
    requires ConfigOk(g) && Reachable(g, x)
    ensures Inv(g, x)
  {
    var acts: seq<Act>, disks: seq<Disk> :| IsTrace(g, acts, disks) && x == disks[|acts|].index;
    TraceKeepsInv(g, acts, disks, |acts|);
  }

  /**
    A case is led by its rule's department, escalated once for each of its levels, and shares
    the rule's co-departments. A case that can still be re-routed has never been escalated.
   */
  lemma LeadFollowsRuleAndLevel(g: Config, x: Index, id: string)
    requires ConfigOk(g) && Reachable(g, x) && id in x.items
    ensures var c := x.items[id];
      && c.ruleVersion in x.rules
      && 0 <= c.level <= g.maxLevel
      && c.lead == EscalatedLead(x.rules[c.ruleVersion].lead, c.level)
      && c.co == x.rules[c.ruleVersion].co
      && (c.status == Registered || c.status == Adjudicated || c.status == Returned ==> c.level == 0)
  {
    ReachableInv(g, x);
    assert CaseOk(g, x, x.items[id]);
  }

  /** Re-evaluation, under whatever rules, leaves an escalated case and its referrals as they are. */
  lemma ReevaluationSparesEscalated(g: Config, d: Disk, id: string, at: Time, env: Env)
    requires ConfigOk(g) && Reachable(g, d.index) && id in d.index.items
    requires d.index.items[id].level > 0
    ensures Step(g, d, Reevaluate(id, at), env).disk == d
  {
    LeadFollowsRuleAndLevel(g, d.index, id);
  }

  /** Exactly one referral of a case is current, and it states the case's own routing. */
  lemma OneCurrentReferral(g: Config, x: Index, id: string)
    requires ConfigOk(g) && Reachable(g, x) && id in x.items
    ensures exists i ::
      && 0 <= i < |ReferralsOf(x.referrals, id)|
      && (forall j :: 0 <= j < |ReferralsOf(x.referrals, id)| ==>
            (ReferralsOf(x.referrals, id)[j].isCurrent <==> j == i))
      && var a := ReferralsOf(x.referrals, id)[i];
         a.lead == x.items[id].lead && a.co == x.items[id].co && a.ruleVersion == x.items[id].ruleVersion
  {
    ReachableInv(g, x);
    assert CaseOk(g, x, x.items[id]);
    var rs := ReferralsOf(x.referrals, id);
    assert ReferralsOk(x.items[id], rs);
    var i := |rs| - 1;
    assert rs[i].isCurrent;
  }

  lemma HistoryIsOk(g: Config, x: Index, id: string)
    requires ConfigOk(g) && Reachable(g, x) && id in x.items
    ensures var c := x.items[id];
      && c.level >= 0 && c.ruleVersion in x.rules && c.lead == EscalatedLead(x.rules[c.ruleVersion].lead, c.level)
      && EscalationsOk(g, c, x.rules[c.ruleVersion].lead, EscalationsOf(x.escalations, id))
  {
    ReachableInv(g, x);
    assert CaseOk(g, x, x.items[id]);
  }

  /** A case at level k has exactly the escalations 0->1, .., k-1->k, each handing on the last one's lead. */
  lemma EscalationChain(g: Config, x: Index, id: string)
    requires ConfigOk(g) && Reachable(g, x) && id in x.items
    ensures var es, c := EscalationsOf(x.escalations, id), x.items[id];
      && |es| == c.level && c.ruleVersion in x.rules
      && (forall j :: 0 <= j < |es| ==> es[j].fromLevel == j && es[j].toLevel == j + 1)
      && (forall j :: 0 < j < |es| ==> es[j].oldLead == es[j - 1].newLead && es[j - 1].escalatedAt < es[j].escalatedAt)
      && (|es| > 0 ==> es[0].oldLead == x.rules[c.ruleVersion].lead && es[|es| - 1].newLead == c.lead)
  {
    var c := x.items[id];
    HistoryIsOk(g, x, id);
    HistoryChains(g, c, x.rules[c.ruleVersion].lead, EscalationsOf(x.escalations, id));
  }

  lemma HistoryChains(g: Config, c: Case, base: string, es: seq<Escalation>)
    requires g.extension > 0 && EscalationsOk(g, c, base, es)
    ensures forall j :: 0 <= j < |es| ==> es[j].fromLevel == j && es[j].toLevel == j + 1
    ensures forall j :: 0 < j < |es| ==> es[j].oldLead == es[j - 1].newLead && es[j - 1].escalatedAt < es[j].escalatedAt
    ensures |es| > 0 ==> es[0].oldLead == base && es[|es| - 1].newLead == EscalatedLead(base, c.level)
  {
    forall j | 0 <= j < |es| ensures es[j].fromLevel == j && es[j].toLevel == j + 1 {
      assert EscalationOk(g, c, base, es, j);
    }
    if |es| > 0 {
      assert EscalationOk(g, c, base, es, 0) && EscalationOk(g, c, base, es, |es| - 1);
      assert EscalatedLead(base, 0) == base;
    }
    forall j | 0 < j < |es|
      ensures es[j].oldLead == es[j - 1].newLead && es[j - 1].escalatedAt < es[j].escalatedAt
    {
      assert EscalationOk(g, c, base, es, j - 1) && EscalationOk(g, c, base, es, j);
    }
  }

  lemma {:induction false} EscalationNotBefore(g: Config, c: Case, base: string, es: seq<Escalation>, k: nat)
    requires EscalationsOk(g, c, base, es) && k <= |es|
    ensures DeadlineBefore(g, c, es, k) >= c.registeredAt + g.deadline + k * g.extension
    ensures k > 0 ==> es[k - 1].escalatedAt > c.registeredAt + g.deadline + (k - 1) * g.extension
  {
    if k > 0 {
      EscalationNotBefore(g, c, base, es, k - 1);
      assert EscalationOk(g, c, base, es, k - 1);
      assert (k - 1) * g.extension + g.extension == k * g.extension;
    }
  }

  /** The k-th escalation comes after k-1 extensions of the first deadline, and moves the deadline on. */
  lemma EscalationTiming(g: Config, x: Index, id: string, k: nat)
    requires ConfigOk(g) && Reachable(g, x) && id in x.items
    requires 1 <= k <= |EscalationsOf(x.escalations, id)|
    ensures var c := x.items[id];
      && EscalationsOf(x.escalations, id)[k - 1].escalatedAt > c.registeredAt + g.deadline + (k - 1) * g.extension
      && c.deadline >= c.registeredAt + g.deadline + c.level * g.extension
  {
    var c, es := x.items[id], EscalationsOf(x.escalations, id);
    HistoryIsOk(g, x, id);
    EscalationNotBefore(g, c, x.rules[c.ruleVersion].lead, es, k);
    EscalationNotBefore(g, c, x.rules[c.ruleVersion].lead, es, |es|);
  }

  /** No two cases share an external reference. */
  lemma ReferencesAreUnique(g: Config, x: Index, i: string, j: string)
    requires ConfigOk(g) && Reachable(g, x)
    requires i in x.items && j in x.items && x.items[i].externalRef == x.items[j].externalRef
    ensures i == j
  {
    ReachableInv(g, x);
  }

  /** The stamps say how a case ended, and no stored case is in the status Registered. */
  lemma StampsMatchStatus(g: Config, x: Index, id: string)
    requires ConfigOk(g) && Reachable(g, x) && id in x.items
    ensures x.items[id].status != Registered
    ensures x.items[id].completedAt.Some? <==> x.items[id].status == Completed
    ensures x.items[id].cancelledAt.Some? <==> x.items[id].status == Cancelled
  {
    ReachableInv(g, x);
    assert CaseOk(g, x, x.items[id]);
  }

  // ---------------------------------------------------------------- closed cases

  /** All of the case but the stamp of its own ending, the reason and the update time. */
  predicate SameOutcome(c: Case, d: Case) {
    && d == c.(completedAt := d.completedAt, cancelledAt := d.cancelledAt,
               cancelReason := d.cancelReason, updatedAt := d.updatedAt)
    && (c.status != Completed ==> d.completedAt == c.completedAt)
    && (c.status != Cancelled ==> d.cancelledAt == c.cancelledAt && d.cancelReason == c.cancelReason)
  }

  ghost predicate Frozen(x: Index, y: Index, id: string)
    requires id in x.items
  {
    && id in y.items && SameOutcome(x.items[id], y.items[id])
    && ReferralsOf(y.referrals, id) == ReferralsOf(x.referrals, id)
    && EscalationsOf(y.escalations, id) == EscalationsOf(x.escalations, id)
  }

  lemma CaseStepFreezes(c: Case, call: Call, now: Time)
    requires IsCaseCall(call) && IsTerminal(c.status) && CaseStep(c, call, now).Ok?
    ensures SameOutcome(c, CaseStep(c, call, now).value)
  {
  }

  ghost predicate CommitFreezes(x: Index, p: Plan, id: string)
    requires PlanOk(p) && id in x.items
  {
    p.Commit? && ExecAll(x, p.writes).Some? ==> Frozen(x, ExecAll(x, p.writes).value, id)
  }

  lemma CaseCallFreezes(g: Config, x: Index, call: Call, env: Env)
    requires Constraints(x) && IsCaseCall(call) && call.id in x.items
    requires IsTerminal(x.items[call.id].status)
    ensures CommitFreezes(x, CasePlan(x, call, env), call.id)
  {
    CaseCallEffect(g, x, call, env);
    var p := CasePlan(x, call, env);
    if p.Commit? && ExecAll(x, p.writes).Some? {
      CaseStepFreezes(x.items[call.id], call, env.now);
      SameButFreezes(x, ExecAll(x, p.writes).value, call.id, CaseStep(x.items[call.id], call, env.now).value);
    }
  }

  lemma SameButFreezes(x: Index, y: Index, id: string, d: Case)
    requires id in x.items && SameOutcome(x.items[id], d)
    requires SameBut(x, y, x.items[id := d], x.referrals, x.escalations)
    ensures Frozen(x, y, id)
  {
  }

  lemma RegisterNeedsFreshId(g: Config, x: Index, req: RegisterRequest, env: Env)
    ensures var p := RegisterPlan(g, x, req, env);
      p.Commit? && ExecAll(x, p.writes).Some? ==> env.uuid1 !in x.items
  {
    var p := RegisterPlan(g, x, req, env);
    if p.Commit? {
      RegisterEffect(x, p.value.item, p.writes[1].r.referral, p.writes[2].r.entry);
    }
  }

  lemma OtherCallsLeaveCases(g: Config, x: Index, call: Call, env: Env)
    requires RowsKnown(x)
    requires call.CreateRule? || call.RecordBatch? || call.RetryFailure? || call.RecordTaskFailure?
    ensures var p := PlanOf(g, x, call, env);
      p.Commit? && ExecAll(x, p.writes).Some? ==>
        var y := ExecAll(x, p.writes).value;
        y.items == x.items && y.referrals == x.referrals && y.escalations == x.escalations
  {
    var p := PlanOf(g, x, call, env);
    if p.Commit? && ExecAll(x, p.writes).Some? {
      OtherWritesEffect(x, p.writes);
    }
  }

  lemma TouchedElsewhere(x: Index, y: Index, itemId: string, id: string)
    requires Touches(x, y, itemId) && id != itemId && id in x.items
    ensures Frozen(x, y, id) && SameIdentity(x.items[id], y.items[id])
  {
  }

  lemma SubjectFreezes(g: Config, x: Index, call: Call, env: Env)
    requires Inv(g, x) && Subject(call, env) in x.items && IsTerminal(x.items[Subject(call, env)].status)
    ensures CommitFreezes(x, PlanOf(g, x, call, env), Subject(call, env))
  {
    if IsCaseCall(call) {
      CaseCallFreezes(g, x, call, env);
    } else if call.Register? {
      RegisterFreezes(g, x, call.req, env);
    } else if call.Escalate? || call.Reevaluate? {
      SweepsPassBy(g, x, call, env);
    } else {
      OtherCallsLeaveCases(g, x, call, env);
    }
  }

  lemma RegisterFreezes(g: Config, x: Index, req: RegisterRequest, env: Env)
    requires env.uuid1 in x.items
    ensures CommitFreezes(x, RegisterPlan(g, x, req, env), env.uuid1)
  {
    RegisterNeedsFreshId(g, x, req, env);
  }

  /** Neither sweep plans a write for a closed case. */
  lemma SweepsPassBy(g: Config, x: Index, call: Call, env: Env)
    requires call.Escalate? || call.Reevaluate?
    requires call.id in x.items && IsTerminal(x.items[call.id].status)
    ensures !PlanOf(g, x, call, env).Commit?
  {
  }

  lemma PlanFreezes(g: Config, x: Index, call: Call, env: Env, id: string)
    requires Inv(g, x) && id in x.items && IsTerminal(x.items[id].status)
    ensures CommitFreezes(x, PlanOf(g, x, call, env), id)
  {
    var p := PlanOf(g, x, call, env);
    if id == Subject(call, env) {
      SubjectFreezes(g, x, call, env);
    } else if p.Commit? && ExecAll(x, p.writes).Some? {
      PlanTouches(g, x, call, env);
      TouchedElsewhere(x, ExecAll(x, p.writes).value, Subject(call, env), id);
    }
  }

  lemma StepFreezes(g: Config, d: Disk, call: Call, env: Env, id: string)
    requires Inv(g, d.index) && id in d.index.items && IsTerminal(d.index.items[id].status)
    ensures Frozen(d.index, Step(g, d, call, env).disk.index, id)
  {
    PlanFreezes(g, d.index, call, env, id);
    StepOutcome(g, d, call, env);
  }

  lemma ActFreezes(g: Config, before: Disk, act: Act, after: Disk, id: string)
    requires Inv(g, before.index) && Sturdy(before) && ActStep(g, before, act, after)
    requires id in before.index.items && IsTerminal(before.index.items[id].status)
    ensures Frozen(before.index, after.index, id)
  {
    match act
    case Serve(e) => StepFreezes(g, before, e.call, e.env, id);
    case RebuildInPlace(commitOk) => RebuildsAreRefused(g, before, commitOk, after);
  }

  /**
    A completed or cancelled case keeps its conclusion through whatever comes later: its status,
    text, routing, level, deadline, referrals and escalations. Only repeating the same ending may
    refresh the stamp of that ending.
   */
  lemma {:induction false} ClosedCasesAreFrozen(g: Config, acts: seq<Act>, disks: seq<Disk>, m: nat, n: nat, id: string)
    requires ConfigOk(g) && IsTrace(g, acts, disks) && m <= n <= |acts|
    ensures var x := disks[m].index;
      id in x.items && IsTerminal(x.items[id].status) ==> Frozen(x, disks[n].index, id)
    decreases n
  {
    if m < n && id in disks[m].index.items && IsTerminal(disks[m].index.items[id].status) {
      ClosedCasesAreFrozen(g, acts, disks, m, n - 1, id);
      TraceKeepsInv(g, acts, disks, n - 1);
      assert ActStep(g, disks[n - 1], acts[n - 1], disks[n]);
      ActFreezes(g, disks[n - 1], acts[n - 1], disks[n], id);
    }
  }

  /** The columns given at registration. */
  predicate SameIdentity(c: Case, d: Case) {
    d.id == c.id && d.externalRef == c.externalRef && d.registeredAt == c.registeredAt
    && d.registeredBy == c.registeredBy && d.createdAt == c.createdAt
  }

  ghost predicate CommitKeepsIdentity(x: Index, p: Plan, id: string)
    requires PlanOk(p) && id in x.items
  {
    p.Commit? && ExecAll(x, p.writes).Some? ==>
      var y := ExecAll(x, p.writes).value;
      id in y.items && SameIdentity(x.items[id], y.items[id])
  }

  lemma CaseCallKeepsIdentity(g: Config, x: Index, call: Call, env: Env)
    requires Constraints(x) && IsCaseCall(call) && call.id in x.items
    ensures CommitKeepsIdentity(x, CasePlan(x, call, env), call.id)
  {
    CaseCallEffect(g, x, call, env);
    if CaseStep(x.items[call.id], call, env.now).Ok? {
      CaseStepKeeps(g, x.items[call.id], call, env.now);
    }
  }

  lemma EscalateKeepsIdentity(g: Config, x: Index, id: string, env: Env)
    requires Constraints(x) && id in x.items
    ensures CommitKeepsIdentity(x, EscalatePlan(g, x, id, env), id)
  {
    EscalateRow(g, x, id, env);
  }

  lemma ReevaluateKeepsIdentity(g: Config, x: Index, id: string, rules: set<Rule>, current: int, env: Env)
    requires Constraints(x) && id in x.items
    ensures CommitKeepsIdentity(x, ReevaluateItemPlan(x, id, rules, current, env), id)
  {
    ReevaluateRow(g, x, id, rules, current, env);
  }

  lemma RegisterKeepsIdentity(g: Config, x: Index, req: RegisterRequest, env: Env)
    requires env.uuid1 in x.items
    ensures CommitKeepsIdentity(x, RegisterPlan(g, x, req, env), env.uuid1)
  {
    RegisterNeedsFreshId(g, x, req, env);
  }

  lemma SubjectKeepsIdentity(g: Config, x: Index, call: Call, env: Env)
    requires Inv(g, x) && Subject(call, env) in x.items
    ensures CommitKeepsIdentity(x, PlanOf(g, x, call, env), Subject(call, env))
  {
    if IsCaseCall(call) {
      CaseCallKeepsIdentity(g, x, call, env);
    } else if call.Register? {
      RegisterKeepsIdentity(g, x, call.req, env);
    } else if call.Escalate? {
      EscalateKeepsIdentity(g, x, call.id, env);
    } else if call.Reevaluate? {
      ReevaluateKeepsIdentity(g, x, call.id, ActiveRules(x, call.selectedAt), CurrentVersion(x), env);
    } else {
      OtherCallsLeaveCases(g, x, call, env);
    }
  }

  lemma PlanKeepsIdentity(g: Config, x: Index, call: Call, env: Env, id: string)
    requires Inv(g, x) && id in x.items
    ensures CommitKeepsIdentity(x, PlanOf(g, x, call, env), id)
  {
    var p := PlanOf(g, x, call, env);
    if id == Subject(call, env) {
      SubjectKeepsIdentity(g, x, call, env);
    } else if p.Commit? && ExecAll(x, p.writes).Some? {
      PlanTouches(g, x, call, env);
      TouchedElsewhere(x, ExecAll(x, p.writes).value, Subject(call, env), id);
    }
  }

  lemma StepKeepsIdentity(g: Config, d: Disk, call: Call, env: Env, id: string)
    requires Inv(g, d.index) && id in d.index.items
    ensures var y := Step(g, d, call, env).disk.index;
      id in y.items && SameIdentity(d.index.items[id], y.items[id])
  {
    PlanKeepsIdentity(g, d.index, call, env, id);
    StepOutcome(g, d, call, env);
  }

  lemma EscalateRow(g: Config, x: Index, id: string, env: Env)
    requires Constraints(x)
    ensures var p := EscalatePlan(g, x, id, env);
      p.Commit? && ExecAll(x, p.writes).Some? ==>
        ExecAll(x, p.writes).value.items
          == x.items[id := Raised(x.items[id], EscalationOf(g, x.items[id], env), env)]
  {
    var p := EscalatePlan(g, x, id, env);
    if p.Commit? && ExecAll(x, p.writes).Some? {
      var c := x.items[id];
      var e := EscalationOf(g, c, env);
      EscalateEffect(x, e, EscalationReferral(c, e, env), Raised(c, e, env), p.writes[4].r.entry);
    }
  }

  lemma ReevaluateRow(g: Config, x: Index, id: string, rules: set<Rule>, current: int, env: Env)
    requires Constraints(x)
    ensures var p := ReevaluateItemPlan(x, id, rules, current, env);
      p.Commit? && ExecAll(x, p.writes).Some? ==>
        ExecAll(x, p.writes).value.items
          == x.items[id := Rerouted(x.items[id], Choice(rules, x.items[id]).value, env.now)]
  {
    var p := ReevaluateItemPlan(x, id, rules, current, env);
    if p.Commit? && ExecAll(x, p.writes).Some? {
      var c := x.items[id];
      var r := Choice(rules, c).value;
      RerouteEffect(x, ReferralFor(r, c, env.uuid1, env.now), Rerouted(c, r, env.now), p.writes[3].r.entry);
    }
  }

  lemma {:induction false} RunKeepsIdentity(g: Config, d: Disk, events: seq<Event>, id: string)
    requires ConfigOk(g) && Inv(g, d.index) && id in d.index.items
    ensures var y := Run(g, d, events).index;
      id in y.items && SameIdentity(d.index.items[id], y.items[id])
  {
    if |events| > 0 {
      var before, last := events[..|events| - 1], events[|events| - 1];
      RunKeepsIdentity(g, d, before, id);
      RunKeepsInv(g, d, before);
      StepKeepsIdentity(g, Run(g, d, before), last.call, last.env, id);
    }
  }

  lemma ActKeepsIdentity(g: Config, before: Disk, act: Act, after: Disk, id: string)
    requires Inv(g, before.index) && Sturdy(before) && ActStep(g, before, act, after) && id in before.index.items
    ensures id in after.index.items && SameIdentity(before.index.items[id], after.index.items[id])
  {
    match act
    case Serve(e) => StepKeepsIdentity(g, before, e.call, e.env, id);
    case RebuildInPlace(commitOk) => RebuildsAreRefused(g, before, commitOk, after);
  }

  /** A case's identity and registration never change, and no case disappears. */
  lemma {:induction false} CasesKeepIdentity(g: Config, acts: seq<Act>, disks: seq<Disk>, m: nat, n: nat, id: string)
    requires ConfigOk(g) && IsTrace(g, acts, disks) && m <= n <= |acts|
    ensures var x, y := disks[m].index, disks[n].index;
      id in x.items ==> id in y.items && SameIdentity(x.items[id], y.items[id])
    decreases n
  {
    if m < n && id in disks[m].index.items {
      CasesKeepIdentity(g, acts, disks, m, n - 1, id);
      TraceKeepsInv(g, acts, disks, n - 1);
      assert ActStep(g, disks[n - 1], acts[n - 1], disks[n]);
      ActKeepsIdentity(g, disks[n - 1], acts[n - 1], disks[n], id);
    }
  }
}
