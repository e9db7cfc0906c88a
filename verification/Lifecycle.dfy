/**
  What every run of service calls keeps. `Inv` ties the cases to the rules, the referrals and
  the escalations; the lemmas after it say that each call preserves it, and the theorems at the
  end read off what it means for every reachable state.
 */
module Lifecycle {
  import opened Domain
  import opened Dispatch
  import opened Tables
  import opened Repo
  import opened Workflow

  // ---------------------------------------------------------------- rows of one case

  function ReferralsOf(s: seq<Referral>, id: string): seq<Referral> {
    if |s| == 0 then []
    else ReferralsOf(s[..|s| - 1], id) + (if s[|s| - 1].itemId == id then [s[|s| - 1]] else [])
  }

  function EscalationsOf(s: seq<Escalation>, id: string): seq<Escalation> {
    if |s| == 0 then []
    else EscalationsOf(s[..|s| - 1], id) + (if s[|s| - 1].itemId == id then [s[|s| - 1]] else [])
  }

  lemma ReferralsOfAppend(s: seq<Referral>, a: Referral, id: string)
    ensures ReferralsOf(s + [a], id) == ReferralsOf(s, id) + (if a.itemId == id then [a] else [])
  {
    assert (s + [a])[..|s|] == s;
  }

  lemma EscalationsOfAppend(s: seq<Escalation>, e: Escalation, id: string)
    ensures EscalationsOf(s + [e], id) == EscalationsOf(s, id) + (if e.itemId == id then [e] else [])
  {
    assert (s + [e])[..|s|] == s;
  }

  lemma {:induction false} ReferralsOfMarked(s: seq<Referral>, itemId: string, id: string)
    ensures var after := ReferralsOf(MarkSuperseded(s, itemId), id);
      && |after| == |ReferralsOf(s, id)|
      && forall i :: 0 <= i < |after| ==>
           after[i] == if id == itemId then ReferralsOf(s, id)[i].(isCurrent := false) else ReferralsOf(s, id)[i]
  {
    if |s| > 0 {
      var t := MarkSuperseded(s, itemId);
      assert t[..|t| - 1] == MarkSuperseded(s[..|s| - 1], itemId);
      ReferralsOfMarked(s[..|s| - 1], itemId, id);
    }
  }

  lemma {:induction false} NoReferrals(s: seq<Referral>, id: string)
    requires forall a :: a in s ==> a.itemId != id
    ensures ReferralsOf(s, id) == []
  {
    if |s| > 0 {
      NoReferrals(s[..|s| - 1], id);
    }
  }

  lemma {:induction false} NoEscalations(s: seq<Escalation>, id: string)
    requires forall e :: e in s ==> e.itemId != id
    ensures EscalationsOf(s, id) == []
  {
    if |s| > 0 {
      NoEscalations(s[..|s| - 1], id);
    }
  }

  // ---------------------------------------------------------------- the invariant

  /** One current referral, the last one, and it carries the case's own routing. */
  predicate ReferralsOk(c: Case, rs: seq<Referral>) {
    && |rs| > 0
    && (forall i :: 0 <= i < |rs| ==> (rs[i].isCurrent <==> i == |rs| - 1))
    && var last := rs[|rs| - 1];
       last.lead == c.lead && last.co == c.co && last.ruleVersion == c.ruleVersion
  }

  /** The deadline the case had before its escalation number j (counting from 0). */
  function DeadlineBefore(g: Config, c: Case, es: seq<Escalation>, j: nat): Time
    requires j <= |es|
  {
    if j == 0 then c.registeredAt + g.deadline else es[j - 1].newDeadline
  }

  predicate EscalationOk(g: Config, c: Case, base: string, es: seq<Escalation>, j: nat)
    requires j < |es|
  {
    && es[j].fromLevel == j && es[j].toLevel == j + 1
    && es[j].oldLead == EscalatedLead(base, j) && es[j].newLead == EscalatedLead(base, j + 1)
    && es[j].newDeadline == es[j].escalatedAt + g.extension
    && DeadlineBefore(g, c, es, j) < es[j].escalatedAt
  }

  predicate EscalationsOk(g: Config, c: Case, base: string, es: seq<Escalation>) {
    && |es| == c.level
    && (forall j :: 0 <= j < |es| ==> EscalationOk(g, c, base, es, j))
    && c.deadline == DeadlineBefore(g, c, es, |es|)
  }

  /** The stamps tell how a case ended; and no case is ever left waiting in Registered. */
  predicate StampsOk(c: Case) {
    && c.status != Registered
    && (c.completedAt.Some? <==> c.status == Completed)
    && (c.cancelledAt.Some? <==> c.status == Cancelled)
  }

  predicate LevelOk(g: Config, c: Case) {
    && 0 <= c.level <= g.maxLevel
    && (c.status == Registered || c.status == Adjudicated || c.status == Returned ==> c.level == 0)
    && (c.status == Escalated ==> c.level > 0)
  }

  ghost predicate CaseOk(g: Config, x: Index, c: Case) {
    && c.ruleVersion in x.rules
    && LevelOk(g, c) && StampsOk(c)
    && c.lead == EscalatedLead(x.rules[c.ruleVersion].lead, c.level)
    && c.co == x.rules[c.ruleVersion].co
    && ReferralsOk(c, ReferralsOf(x.referrals, c.id))
    && |ReferralsOf(x.referrals, c.id)| > c.level
    && EscalationsOk(g, c, x.rules[c.ruleVersion].lead, EscalationsOf(x.escalations, c.id))
  }

  ghost predicate RowsKnown(x: Index) {
    && (forall a :: a in x.referrals ==> a.itemId in x.items)
    && (forall e :: e in x.escalations ==> e.itemId in x.items)
    && (forall v :: v in x.rules ==> v >= 1)
  }

  ghost predicate CasesOk(g: Config, x: Index) {
    forall id :: id in x.items ==> CaseOk(g, x, x.items[id])
  }

  ghost predicate Inv(g: Config, x: Index) {
    Constraints(x) && RowsKnown(x) && CasesOk(g, x)
  }

  // ---------------------------------------------------------------- effects of the writes

  lemma ExecAllSplit(x: Index, w: Write, ws: seq<Write>)
    requires forall u :: u in [w] + ws ==> WellFormed(u)
    ensures forall u :: u in ws ==> WellFormed(u)
    ensures WellFormed(w)
    ensures ExecAll(x, [w] + ws)
      == match Exec(x, w) case None => None case Some(y) => ExecAll(y, ws)
  {
    assert w in [w] + ws;
    assert ([w] + ws)[1..] == ws;
    forall u | u in ws ensures WellFormed(u) {
      assert u in [w] + ws;
    }
  }

  predicate SameBut(x: Index, y: Index, items: map<string, Case>, referrals: seq<Referral>, escalations: seq<Escalation>) {
    && y.items == items && y.referrals == referrals && y.escalations == escalations
    && y.rules == x.rules && y.failures == x.failures && y.batches == x.batches && y.manifest == x.manifest
  }

  /** updateItemWithAudit touches one row and the audit trail. */
  lemma UpdateEffect(x: Index, c: Case, entry: AuditEntry)
    requires c.id in x.items && MergeItem(x.items[c.id], c) == c
    ensures ExecAll(x, [UpdateItem(c), Save(AuditRec(entry))]).Some? <==> entry.id !in x.audit
    ensures var o := ExecAll(x, [UpdateItem(c), Save(AuditRec(entry))]);
      o.Some? ==> o.value == x.(items := x.items[c.id := c], audit := x.audit[entry.id := entry])
  {
    var y := x.(items := x.items[c.id := c]);
    assert [UpdateItem(c), Save(AuditRec(entry))] == [UpdateItem(c)] + [Save(AuditRec(entry))];
    ExecAllSplit(x, UpdateItem(c), [Save(AuditRec(entry))]);
    ExecAllSplit(y, Save(AuditRec(entry)), []);
    assert [Save(AuditRec(entry))] + [] == [Save(AuditRec(entry))];
  }

  /** Re-routing a case: the old referral is closed, a new one becomes current, the row follows. */
  lemma RerouteEffect(x: Index, a: Referral, c: Case, entry: AuditEntry)
    requires c.id in x.items && MergeItem(x.items[c.id], c) == c
    ensures var ws := [MarkAssignmentSuperseded(c.id), Save(AssignmentRec(a)), UpdateItem(c), Save(AuditRec(entry))];
      var o := ExecAll(x, ws);
      o.Some? ==>
        && SameBut(x, o.value, x.items[c.id := c], MarkSuperseded(x.referrals, c.id) + [a], x.escalations)
        && o.value.audit == x.audit[entry.id := entry]
  {
    var mark, save, update := MarkAssignmentSuperseded(c.id), Save(AssignmentRec(a)), [UpdateItem(c), Save(AuditRec(entry))];
    var y := x.(referrals := MarkSuperseded(x.referrals, c.id));
    assert [mark, save, UpdateItem(c), Save(AuditRec(entry))] == [mark] + ([save] + update);
    ExecAllSplit(x, mark, [save] + update);
    ExecAllSplit(y, save, update);
    if Exec(y, save).Some? {
      UpdateEffect(Exec(y, save).value, c, entry);
    }
  }

  lemma EscalateEffect(x: Index, e: Escalation, a: Referral, c: Case, entry: AuditEntry)
    requires c.id in x.items && MergeItem(x.items[c.id], c) == c
    ensures var ws := [Save(EscalationRec(e)), MarkAssignmentSuperseded(c.id), Save(AssignmentRec(a)), UpdateItem(c), Save(AuditRec(entry))];
      var o := ExecAll(x, ws);
      o.Some? ==>
        && SameBut(x, o.value, x.items[c.id := c], MarkSuperseded(x.referrals, c.id) + [a], x.escalations + [e])
        && o.value.audit == x.audit[entry.id := entry]
  {
    var rest := [MarkAssignmentSuperseded(c.id), Save(AssignmentRec(a)), UpdateItem(c), Save(AuditRec(entry))];
    assert [Save(EscalationRec(e)), MarkAssignmentSuperseded(c.id), Save(AssignmentRec(a)), UpdateItem(c), Save(AuditRec(entry))]
        == [Save(EscalationRec(e))] + rest;
    ExecAllSplit(x, Save(EscalationRec(e)), rest);
    if Exec(x, Save(EscalationRec(e))).Some? {
      RerouteEffect(Exec(x, Save(EscalationRec(e))).value, a, c, entry);
    }
  }

  lemma RegisterEffect(x: Index, c: Case, a: Referral, entry: AuditEntry)
    ensures var o := ExecAll(x, [Save(ItemRec(c)), Save(AssignmentRec(a)), Save(AuditRec(entry))]);
      o.Some? ==>
        && c.id !in x.items && !RefTaken(x, c.externalRef)
        && SameBut(x, o.value, x.items[c.id := c], x.referrals + [a], x.escalations)
        && o.value.audit == x.audit[entry.id := entry]
  {
    var w1, w2, w3 := Save(ItemRec(c)), Save(AssignmentRec(a)), Save(AuditRec(entry));
    assert [w1, w2, w3] == [w1] + ([w2] + ([w3] + []));
    ExecAllSplit(x, w1, [w2] + ([w3] + []));
    if Exec(x, w1).Some? {
      var y := Exec(x, w1).value;
      ExecAllSplit(y, w2, [w3] + []);
      if Exec(y, w2).Some? {
        ExecAllSplit(Exec(y, w2).value, w3, []);
      }
    }
  }

  // ---------------------------------------------------------------- steps keep the invariant

  /** The routing, the history and the timing of a case: what most calls leave alone. */
  predicate SameRouting(c: Case, d: Case) {
    && d.id == c.id && d.externalRef == c.externalRef
    && d.lead == c.lead && d.co == c.co && d.ruleVersion == c.ruleVersion
    && d.level == c.level && d.deadline == c.deadline && d.registeredAt == c.registeredAt
  }

  lemma EscalationsOkFrame(g: Config, c: Case, d: Case, base: string, es: seq<Escalation>)
    requires EscalationsOk(g, c, base, es)
    requires d.level == c.level && d.deadline == c.deadline && d.registeredAt == c.registeredAt
    ensures EscalationsOk(g, d, base, es)
  {
    forall j | 0 <= j < |es| ensures EscalationOk(g, d, base, es, j) {
      assert EscalationOk(g, c, base, es, j);
    }
  }

  lemma ReplaceKeepsConstraints(x: Index, d: Case, y: Index)
    requires Constraints(x) && d.id in x.items && x.items[d.id].externalRef == d.externalRef
    requires y.items == x.items[d.id := d] && y.rules == x.rules && y.failures == x.failures
    ensures Constraints(y)
  {
    assert x.items[d.id].id == d.id;
  }

  lemma CaseOkFrame(g: Config, x: Index, y: Index, c: Case)
    requires CaseOk(g, x, c) && y.rules == x.rules
    requires ReferralsOf(y.referrals, c.id) == ReferralsOf(x.referrals, c.id)
    requires EscalationsOf(y.escalations, c.id) == EscalationsOf(x.escalations, c.id)
    ensures CaseOk(g, y, c)
  {
  }

  /** Every case but one keeps its referrals and escalations. */
  ghost predicate SameElsewhere(x: Index, y: Index, itemId: string) {
    forall id :: id != itemId ==>
      && ReferralsOf(y.referrals, id) == ReferralsOf(x.referrals, id)
      && EscalationsOf(y.escalations, id) == EscalationsOf(x.escalations, id)
  }

  /** Only the rows of case `d` changed, and they fit. */
  lemma OneCaseKeepsInv(g: Config, x: Index, d: Case, y: Index)
    requires Constraints(x) && CasesOk(g, x) && CaseOk(g, y, d)
    requires y.items == x.items[d.id := d] && y.rules == x.rules
    requires SameElsewhere(x, y, d.id)
    ensures CasesOk(g, y)
  {
    forall id | id in y.items ensures CaseOk(g, y, y.items[id]) {
      if id != d.id {
        CaseOkFrame(g, x, y, x.items[id]);
      }
    }
  }

  lemma UpdateKeepsInv(g: Config, x: Index, d: Case, y: Index)
    requires Inv(g, x) && d.id in x.items
    requires SameRouting(x.items[d.id], d) && LevelOk(g, d) && StampsOk(d)
    requires SameBut(x, y, x.items[d.id := d], x.referrals, x.escalations)
    ensures Inv(g, y)
  {
    var c := x.items[d.id];
    assert CaseOk(g, x, c);
    ReplaceKeepsConstraints(x, d, y);
    EscalationsOkFrame(g, c, d, x.rules[c.ruleVersion].lead, EscalationsOf(x.escalations, d.id));
    OneCaseKeepsInv(g, x, d, y);
  }

  /** The referrals after a re-route: only the new one is current. */
  lemma ReferralsAfterReroute(x: Index, c: Case, d: Case, a: Referral)
    requires ReferralsOk(c, ReferralsOf(x.referrals, c.id)) && d.id == c.id
    requires a.itemId == c.id && a.isCurrent && a.lead == d.lead && a.co == d.co && a.ruleVersion == d.ruleVersion
    ensures ReferralsOk(d, ReferralsOf(MarkSuperseded(x.referrals, c.id) + [a], c.id))
    ensures |ReferralsOf(MarkSuperseded(x.referrals, c.id) + [a], c.id)| == |ReferralsOf(x.referrals, c.id)| + 1
  {
    ReferralsOfMarked(x.referrals, c.id, c.id);
    ReferralsOfAppend(MarkSuperseded(x.referrals, c.id), a, c.id);
  }

  lemma RerouteElsewhere(x: Index, itemId: string, a: Referral, y: Index)
    requires RowsKnown(x) && a.itemId == itemId && itemId in x.items
    requires y.referrals == MarkSuperseded(x.referrals, itemId) + [a]
    requires y.escalations == x.escalations
      || exists e :: y.escalations == x.escalations + [e] && e.itemId == itemId
    requires y.items.Keys == x.items.Keys && y.rules == x.rules
    ensures SameElsewhere(x, y, itemId) && RowsKnown(y)
  {
    var t := MarkSuperseded(x.referrals, itemId);
    forall id | id != itemId
      ensures ReferralsOf(y.referrals, id) == ReferralsOf(x.referrals, id)
      ensures EscalationsOf(y.escalations, id) == EscalationsOf(x.escalations, id)
    {
      ReferralsOfMarked(x.referrals, itemId, id);
      ReferralsOfAppend(t, a, id);
      if y.escalations != x.escalations {
        var e :| y.escalations == x.escalations + [e] && e.itemId == itemId;
        EscalationsOfAppend(x.escalations, e, id);
      }
    }
    forall b | b in t ensures b.itemId in x.items {
      var i :| 0 <= i < |t| && t[i] == b;
      assert x.referrals[i] in x.referrals;
    }
  }

  lemma ReroutedCaseOk(g: Config, x: Index, c: Case, d: Case, r: Rule, a: Referral, y: Index)
    requires CaseOk(g, x, c) && y.rules == x.rules
    requires r.version in x.rules && x.rules[r.version] == r
    requires IsReevaluable(c.status) && d == Rerouted(c, r, d.updatedAt)
    requires a.itemId == d.id && a.isCurrent && a.lead == r.lead && a.co == r.co && a.ruleVersion == r.version
    requires y.referrals == MarkSuperseded(x.referrals, d.id) + [a] && y.escalations == x.escalations
    ensures CaseOk(g, y, d)
  {
    ReferralsAfterReroute(x, c, d, a);
  }

  lemma RerouteKeepsInv(g: Config, x: Index, d: Case, r: Rule, a: Referral, y: Index)
    requires Inv(g, x) && d.id in x.items
    requires r.version in x.rules && x.rules[r.version] == r
    requires IsReevaluable(x.items[d.id].status) && d == Rerouted(x.items[d.id], r, d.updatedAt)
    requires a.itemId == d.id && a.isCurrent && a.lead == r.lead && a.co == r.co && a.ruleVersion == r.version
    requires SameBut(x, y, x.items[d.id := d], MarkSuperseded(x.referrals, d.id) + [a], x.escalations)
    ensures Inv(g, y)
  {
    RerouteElsewhere(x, d.id, a, y);
    ReplaceKeepsConstraints(x, d, y);
    ReroutedCaseOk(g, x, x.items[d.id], d, r, a, y);
    OneCaseKeepsInv(g, x, d, y);
  }

  lemma EscalationsAfterRaise(g: Config, c: Case, env: Env, base: string, es: seq<Escalation>)
    requires EscalationsOk(g, c, base, es) && c.lead == EscalatedLead(base, c.level)
    requires c.deadline < env.now
    ensures var e := EscalationOf(g, c, env);
      && EscalationsOk(g, Raised(c, e, env), base, es + [e])
      && e.newLead == EscalatedLead(base, c.level + 1)
  {
    var e := EscalationOf(g, c, env);
    var d := Raised(c, e, env);
    forall j | 0 <= j < |es + [e]| ensures EscalationOk(g, d, base, es + [e], j) {
      if j < |es| {
        assert EscalationOk(g, c, base, es, j);
      }
    }
  }

  lemma RaisedCaseOk(g: Config, x: Index, c: Case, env: Env, y: Index)
    requires CaseOk(g, x, c) && y.rules == x.rules
    requires c.level + 1 <= g.maxLevel && ValidTransition(c.status, Escalated)
    requires c.deadline < env.now && !IsTerminal(c.status)
    requires var e := EscalationOf(g, c, env);
      && y.referrals == MarkSuperseded(x.referrals, c.id) + [EscalationReferral(c, e, env)]
      && y.escalations == x.escalations + [e]
    ensures CaseOk(g, y, Raised(c, EscalationOf(g, c, env), env))
  {
    var e := EscalationOf(g, c, env);
    ReferralsAfterReroute(x, c, Raised(c, e, env), EscalationReferral(c, e, env));
    EscalationsOfAppend(x.escalations, e, c.id);
    EscalationsAfterRaise(g, c, env, x.rules[c.ruleVersion].lead, EscalationsOf(x.escalations, c.id));
  }

  lemma EscalateKeepsInv(g: Config, x: Index, c: Case, env: Env, y: Index)
    requires Inv(g, x) && c.id in x.items && x.items[c.id] == c
    requires c.level + 1 <= g.maxLevel && ValidTransition(c.status, Escalated)
    requires c.deadline < env.now && !IsTerminal(c.status)
    requires var e := EscalationOf(g, c, env);
      SameBut(x, y, x.items[c.id := Raised(c, e, env)],
              MarkSuperseded(x.referrals, c.id) + [EscalationReferral(c, e, env)], x.escalations + [e])
    ensures Inv(g, y)
  {
    var e := EscalationOf(g, c, env);
    var d, a := Raised(c, e, env), EscalationReferral(c, e, env);
    RerouteElsewhere(x, c.id, a, y);
    ReplaceKeepsConstraints(x, d, y);
    RaisedCaseOk(g, x, c, env, y);
    OneCaseKeepsInv(g, x, d, y);
  }

  lemma NoRowsYet(g: Config, x: Index, id: string)
    requires Inv(g, x) && id !in x.items
    ensures ReferralsOf(x.referrals, id) == [] && EscalationsOf(x.escalations, id) == []
  {
    NoReferrals(x.referrals, id);
    NoEscalations(x.escalations, id);
  }

  lemma FreshCaseOk(g: Config, x: Index, c: Case, a: Referral, y: Index)
    requires ReferralsOf(x.referrals, c.id) == [] && EscalationsOf(x.escalations, c.id) == []
    requires LevelOk(g, c) && c.level == 0 && StampsOk(c) && c.deadline == c.registeredAt + g.deadline
    requires c.ruleVersion in y.rules && c.lead == y.rules[c.ruleVersion].lead && c.co == y.rules[c.ruleVersion].co
    requires a.itemId == c.id && a.isCurrent && a.lead == c.lead && a.co == c.co && a.ruleVersion == c.ruleVersion
    requires y.referrals == x.referrals + [a] && y.escalations == x.escalations
    ensures CaseOk(g, y, c)
  {
    ReferralsOfAppend(x.referrals, a, c.id);
  }

  lemma RegisterKeepsInv(g: Config, x: Index, c: Case, r: Rule, a: Referral, y: Index)
    requires Inv(g, x) && g.maxLevel >= 0 && c.id !in x.items && !RefTaken(x, c.externalRef)
    requires r.version in x.rules && x.rules[r.version] == r
    requires c.lead == r.lead && c.co == r.co && c.ruleVersion == r.version && c.level == 0
    requires LevelOk(g, c) && StampsOk(c) && c.deadline == c.registeredAt + g.deadline
    requires a.itemId == c.id && a.isCurrent && a.lead == r.lead && a.co == r.co && a.ruleVersion == r.version
    requires SameBut(x, y, x.items[c.id := c], x.referrals + [a], x.escalations)
    ensures Inv(g, y)
  {
    NoRowsYet(g, x, c.id);
    assert Constraints(y) by {
      InsertKeepsConstraints(x, ItemRec(c));
    }
    assert SameElsewhere(x, y, c.id) by {
      forall id ensures ReferralsOf(y.referrals, id) == ReferralsOf(x.referrals, id) + (if id == c.id then [a] else []) {
        ReferralsOfAppend(x.referrals, a, id);
      }
    }
    FreshCaseOk(g, x, c, a, y);
    assert CasesOk(g, y) by {
      OneCaseKeepsInv(g, x, c, y);
    }
  }

  /** Writes that touch no case: rules come and go, but no rule ever changes whom it names. */
  predicate LeavesCases(w: Write) {
    match w
    case Save(r) => (r.RuleRec? && r.rule.version >= 1) || r.AuditRec? || r.BatchRec? || r.FailureRec?
    case UpdateFailure(_) => true
    case SupersedeRule(_, _) => true
    case _ => false
  }

  lemma CaseOkRules(g: Config, x: Index, y: Index, c: Case)
    requires CaseOk(g, x, c) && y.referrals == x.referrals && y.escalations == x.escalations
    requires c.ruleVersion in y.rules
    requires y.rules[c.ruleVersion].lead == x.rules[c.ruleVersion].lead && y.rules[c.ruleVersion].co == x.rules[c.ruleVersion].co
    ensures CaseOk(g, y, c)
  {
  }

  lemma LeavesCasesEffect(x: Index, w: Write)
    requires WellFormed(w) && LeavesCases(w) && Exec(x, w).Some?
    ensures var y := Exec(x, w).value;
      && y.items == x.items && y.referrals == x.referrals && y.escalations == x.escalations
      && RulesStayNamed(x, y)
  {
    if w.Save? {
      SaveLeavesCases(x, w.r);
    } else if w.SupersedeRule? {
      SupersedeLeavesCases(x, w);
    }
  }

  /** Rules only come, and keep naming the same departments. */
  predicate RulesStayNamed(x: Index, y: Index) {
    && (forall v :: v in x.rules ==>
          v in y.rules && y.rules[v].lead == x.rules[v].lead && y.rules[v].co == x.rules[v].co)
    && (forall v :: v in y.rules ==> v in x.rules || v >= 1)
  }

  lemma SaveLeavesCases(x: Index, r: Record)
    requires !r.Malformed? && LeavesCases(Save(r)) && Insert(x, r).Some?
    ensures var y := Insert(x, r).value;
      y.items == x.items && y.referrals == x.referrals && y.escalations == x.escalations && RulesStayNamed(x, y)
  {
    if r.RuleRec? {
      assert Row(x, RuleKey(r.rule.version)).None?;
    }
  }

  lemma SupersedeLeavesCases(x: Index, w: Write)
    requires w.SupersedeRule? && Exec(x, w).Some?
    ensures var y := Exec(x, w).value;
      y.items == x.items && y.referrals == x.referrals && y.escalations == x.escalations && RulesStayNamed(x, y)
  {
  }

  lemma RulesKeepInv(g: Config, x: Index, w: Write)
    requires Inv(g, x) && WellFormed(w) && LeavesCases(w) && Exec(x, w).Some?
    ensures Inv(g, Exec(x, w).value)
  {
    var y := Exec(x, w).value;
    ExecKeepsConstraints(x, w);
    LeavesCasesEffect(x, w);
    forall id | id in y.items ensures CaseOk(g, y, y.items[id]) {
      CaseOkRules(g, x, y, x.items[id]);
    }
  }

  lemma {:induction false} OtherWritesKeepInv(g: Config, x: Index, ws: seq<Write>)
    requires Inv(g, x) && forall w :: w in ws ==> WellFormed(w) && LeavesCases(w)
    requires ExecAll(x, ws).Some?
    ensures Inv(g, ExecAll(x, ws).value)
    decreases |ws|
  {
    if |ws| > 0 {
      assert WellFormed(ws[0]) && LeavesCases(ws[0]);
      RulesKeepInv(g, x, ws[0]);
      OtherWritesKeepInv(g, Exec(x, ws[0]).value, ws[1..]);
    }
  }

  // ---------------------------------------------------------------- calls keep the invariant

  ghost predicate CommitKeepsInv(g: Config, x: Index, p: Plan)
    requires PlanOk(p)
  {
    p.Commit? && ExecAll(x, p.writes).Some? ==> Inv(g, ExecAll(x, p.writes).value)
  }

  lemma UpdatePlanEffect(x: Index, c: Case, action: string, actor: string, details: string, env: Env)
    requires c.id in x.items && MergeItem(x.items[c.id], c) == c
    ensures var p := UpdatePlan(c, action, actor, details, env);
      ExecAll(x, p.writes).Some? ==>
        SameBut(x, ExecAll(x, p.writes).value, x.items[c.id := c], x.referrals, x.escalations)
  {
    UpdateEffect(x, c, AuditEntry(env.uuid1, c.id, "item", action, actor, env.late, details));
  }

  lemma UpdatePlanKeepsInv(g: Config, x: Index, c: Case, action: string, actor: string, details: string, env: Env)
    requires Inv(g, x) && c.id in x.items
    requires SameRouting(x.items[c.id], c) && LevelOk(g, c) && StampsOk(c)
    requires MergeItem(x.items[c.id], c) == c
    ensures CommitKeepsInv(g, x, UpdatePlan(c, action, actor, details, env))
  {
    UpdatePlanEffect(x, c, action, actor, details, env);
    var o := ExecAll(x, UpdatePlan(c, action, actor, details, env).writes);
    if o.Some? {
      UpdateKeepsInv(g, x, c, o.value);
    }
  }

  /** The six calls on an existing case leave its routing, history and timing alone. */
  lemma CaseStepKeeps(g: Config, c: Case, call: Call, now: Time)
    requires IsCaseCall(call) && CaseStep(c, call, now).Ok?
    ensures var d := CaseStep(c, call, now).value;
      && SameRouting(c, d) && MergeItem(c, d) == d
      && (LevelOk(g, c) ==> LevelOk(g, d)) && (StampsOk(c) ==> StampsOk(d))
  {
  }

  lemma CaseCallKeepsInv(g: Config, x: Index, call: Call, env: Env)
    requires Inv(g, x) && IsCaseCall(call)
    ensures CommitKeepsInv(g, x, CasePlan(x, call, env))
  {
    if call.id in x.items && CaseStep(x.items[call.id], call, env.now).Ok? {
      var c := x.items[call.id];
      assert CaseOk(g, x, c) && c.id == call.id;
      CaseStepKeeps(g, c, call, env.now);
      var (action, actor, details) := AuditOf(call);
      UpdatePlanKeepsInv(g, x, CaseStep(c, call, env.now).value, action, actor, details, env);
    }
  }

  lemma RegisterCallKeepsInv(g: Config, x: Index, req: RegisterRequest, env: Env)
    requires Inv(g, x) && g.maxLevel >= 0
    ensures CommitKeepsInv(g, x, RegisterPlan(g, x, req, env))
  {
    var p := RegisterPlan(g, x, req, env);
    if p.Commit? {
      var c0 := NewCase(g, req, env);
      var r := Choice(ActiveRules(x, env.now), c0).value;
      ActiveRulesDistinct(x, env.now);
      var c := Routed(c0, r);
      var a := ReferralFor(r, c, env.uuid2, env.now);
      RegisterEffect(x, c, a, AuditEntry(env.uuid3, c.id, "item", "register", c.registeredBy, env.now, ""));
      if ExecAll(x, p.writes).Some? {
        RegisterKeepsInv(g, x, c, r, a, ExecAll(x, p.writes).value);
      }
    }
  }

  lemma EscalateCallKeepsInv(g: Config, x: Index, id: string, env: Env)
    requires Inv(g, x)
    ensures CommitKeepsInv(g, x, EscalatePlan(g, x, id, env))
  {
    var p := EscalatePlan(g, x, id, env);
    if p.Commit? && ExecAll(x, p.writes).Some? {
      var c := x.items[id];
      var e := EscalationOf(g, c, env);
      EscalateEffect(x, e, EscalationReferral(c, e, env), Raised(c, e, env), p.writes[4].r.entry);
      EscalateKeepsInv(g, x, c, env, ExecAll(x, p.writes).value);
    }
  }

  lemma ReevaluateWritesKeepInv(g: Config, x: Index, c: Case, r: Rule, env: Env)
    requires Inv(g, x) && c.id in x.items && x.items[c.id] == c && IsReevaluable(c.status)
    requires r.version in x.rules && x.rules[r.version] == r
    requires ExecAll(x, ReevaluateWrites(c, r, env)).Some?
    ensures Inv(g, ExecAll(x, ReevaluateWrites(c, r, env)).value)
  {
    var d, a, ws := Rerouted(c, r, env.now), ReferralFor(r, c, env.uuid1, env.now), ReevaluateWrites(c, r, env);
    RerouteEffect(x, a, d, ws[3].r.entry);
    RerouteKeepsInv(g, x, d, r, a, ExecAll(x, ws).value);
  }

  lemma ReevaluateCallKeepsInv(g: Config, x: Index, id: string, rules: set<Rule>, current: int, env: Env)
    requires Inv(g, x) && forall r :: r in rules ==> r.version in x.rules && x.rules[r.version] == r
    ensures CommitKeepsInv(g, x, ReevaluateItemPlan(x, id, rules, current, env))
  {
    var p := ReevaluateItemPlan(x, id, rules, current, env);
    if p.Commit? && ExecAll(x, p.writes).Some? {
      ReevaluateWritesKeepInv(g, x, x.items[id], Choice(rules, x.items[id]).value, env);
    }
  }

  lemma OtherCallKeepsInv(g: Config, x: Index, call: Call, env: Env)
    requires Inv(g, x)
    requires call.CreateRule? || call.RecordBatch? || call.RetryFailure? || call.RecordTaskFailure?
    ensures CommitKeepsInv(g, x, PlanOf(g, x, call, env))
  {
    var p := PlanOf(g, x, call, env);
    OtherPlansLeaveCases(g, x, call, env);
    if p.Commit? && ExecAll(x, p.writes).Some? {
      OtherWritesKeepInv(g, x, p.writes);
    }
  }

  lemma OtherPlansLeaveCases(g: Config, x: Index, call: Call, env: Env)
    requires RowsKnown(x)
    requires call.CreateRule? || call.RecordBatch? || call.RetryFailure? || call.RecordTaskFailure?
    ensures var p := PlanOf(g, x, call, env);
      p.Commit? ==> forall w :: w in p.writes ==> WellFormed(w) && LeavesCases(w)
  {
  }

  lemma CallKeepsInv(g: Config, x: Index, call: Call, env: Env)
    requires Inv(g, x) && g.maxLevel >= 0
    ensures CommitKeepsInv(g, x, PlanOf(g, x, call, env))
  {
    if IsCaseCall(call) {
      CaseCallKeepsInv(g, x, call, env);
    } else if call.Register? {
      RegisterCallKeepsInv(g, x, call.req, env);
    } else if call.Escalate? {
      EscalateCallKeepsInv(g, x, call.id, env);
    } else if call.Reevaluate? {
      ActiveRulesDistinct(x, call.selectedAt);
      ReevaluateCallKeepsInv(g, x, call.id, ActiveRules(x, call.selectedAt), CurrentVersion(x), env);
    } else {
      OtherCallKeepsInv(g, x, call, env);
    }
  }

  /** After a step the tables are as they were, or as all of its plan's statements leave them. */
  lemma StepOutcome(g: Config, d: Disk, call: Call, env: Env)
    ensures var p, y := PlanOf(g, d.index, call, env), Step(g, d, call, env).disk.index;
      y == d.index || (p.Commit? && ExecAll(d.index, p.writes) == Some(y))
  {
    var p := PlanOf(g, d.index, call, env);
    if p.Commit? {
      TransactIndex(d, p.writes, env.late, env.fault);
    }
  }

  /** Every call, committed, rolled back or refused, keeps the invariant. */
  lemma StepKeepsInv(g: Config, d: Disk, call: Call, env: Env)
    requires Inv(g, d.index) && g.maxLevel >= 0
    ensures Inv(g, Step(g, d, call, env).disk.index)
  {
    CallKeepsInv(g, d.index, call, env);
    StepOutcome(g, d, call, env);
  }

  /** So does any run of calls, with any faults. */
  lemma {:induction false} RunKeepsInv(g: Config, d: Disk, events: seq<Event>)
    requires Inv(g, d.index) && g.maxLevel >= 0
    ensures Inv(g, Run(g, d, events).index)
  {
    if |events| > 0 {
      var before, last := events[..|events| - 1], events[|events| - 1];
      RunKeepsInv(g, d, before);
      StepKeepsInv(g, Run(g, d, before), last.call, last.env);
    }
  }

  // ---------------------------------------------------------------- what a step touches

  /** Every case but one is the same row, with the same referrals and escalations. */
  ghost predicate Touches(x: Index, y: Index, itemId: string) {
    && SameElsewhere(x, y, itemId)
    && (forall id :: id != itemId ==> (id in y.items <==> id in x.items))
    && (forall id :: id != itemId && id in x.items ==> y.items[id] == x.items[id])
  }

  lemma {:induction false} OtherWritesEffect(x: Index, ws: seq<Write>)
    requires forall w :: w in ws ==> WellFormed(w) && LeavesCases(w)
    requires ExecAll(x, ws).Some?
    ensures var y := ExecAll(x, ws).value;
      y.items == x.items && y.referrals == x.referrals && y.escalations == x.escalations
    decreases |ws|
  {
    if |ws| > 0 {
      assert WellFormed(ws[0]) && LeavesCases(ws[0]);
      LeavesCasesEffect(x, ws[0]);
      OtherWritesEffect(Exec(x, ws[0]).value, ws[1..]);
    }
  }

  /** The case a call is about. */
  function Subject(call: Call, env: Env): string {
    match call
    case Register(_) => env.uuid1
    case CreateRule(_) => ""
    case RecordBatch(_, _, _, _) => ""
    case RetryFailure(_, _) => ""
    case RecordTaskFailure(_, _, _, _) => ""
    case _ => call.id
  }

  ghost predicate CommitTouches(x: Index, p: Plan, itemId: string)
    requires PlanOk(p)
  {
    p.Commit? && ExecAll(x, p.writes).Some? ==> Touches(x, ExecAll(x, p.writes).value, itemId)
  }

  /** A call on one case stores what `CaseStep` makes of it. */
  lemma CaseCallEffect(g: Config, x: Index, call: Call, env: Env)
    requires Constraints(x) && IsCaseCall(call)
    ensures var p := CasePlan(x, call, env);
      p.Commit? && ExecAll(x, p.writes).Some? ==>
        && CaseStep(x.items[call.id], call, env.now).Ok?
        && SameBut(x, ExecAll(x, p.writes).value,
                   x.items[call.id := CaseStep(x.items[call.id], call, env.now).value], x.referrals, x.escalations)
  {
    if call.id in x.items && CaseStep(x.items[call.id], call, env.now).Ok? {
      var c, d := x.items[call.id], CaseStep(x.items[call.id], call, env.now).value;
      assert d.id == call.id && MergeItem(c, d) == d by {
        CaseStepKeeps(g, c, call, env.now);
      }
      var (action, actor, details) := AuditOf(call);
      UpdatePlanEffect(x, d, action, actor, details, env);
    }
  }

  lemma CaseCallTouches(g: Config, x: Index, call: Call, env: Env)
    requires Constraints(x) && IsCaseCall(call)
    ensures CommitTouches(x, CasePlan(x, call, env), call.id)
  {
    CaseCallEffect(g, x, call, env);
  }

  lemma RegisterTouches(g: Config, x: Index, req: RegisterRequest, env: Env)
    ensures CommitTouches(x, RegisterPlan(g, x, req, env), env.uuid1)
  {
    var p := RegisterPlan(g, x, req, env);
    if p.Commit? && ExecAll(x, p.writes).Some? {
      var c, a := p.value.item, p.writes[1].r.referral;
      RegisterEffect(x, c, a, p.writes[2].r.entry);
      forall id | id != c.id ensures ReferralsOf(x.referrals + [a], id) == ReferralsOf(x.referrals, id) {
        ReferralsOfAppend(x.referrals, a, id);
      }
    }
  }

  lemma EscalateTouches(g: Config, x: Index, id: string, env: Env)
    requires Constraints(x) && RowsKnown(x)
    ensures CommitTouches(x, EscalatePlan(g, x, id, env), id)
  {
    var p := EscalatePlan(g, x, id, env);
    if p.Commit? && ExecAll(x, p.writes).Some? {
      var c := x.items[id];
      var e := EscalationOf(g, c, env);
      EscalateEffect(x, e, EscalationReferral(c, e, env), Raised(c, e, env), p.writes[4].r.entry);
      RerouteElsewhere(x, id, EscalationReferral(c, e, env), ExecAll(x, p.writes).value);
    }
  }

  lemma ReevaluateTouches(g: Config, x: Index, id: string, rules: set<Rule>, current: int, env: Env)
    requires Constraints(x) && RowsKnown(x)
    ensures CommitTouches(x, ReevaluateItemPlan(x, id, rules, current, env), id)
  {
    var p := ReevaluateItemPlan(x, id, rules, current, env);
    if p.Commit? && ExecAll(x, p.writes).Some? {
      var c := x.items[id];
      var r := Choice(rules, c).value;
      var a := ReferralFor(r, c, env.uuid1, env.now);
      RerouteEffect(x, a, Rerouted(c, r, env.now), p.writes[3].r.entry);
      RerouteElsewhere(x, id, a, ExecAll(x, p.writes).value);
    }
  }

  lemma PlanTouches(g: Config, x: Index, call: Call, env: Env)
    requires Inv(g, x)
    ensures CommitTouches(x, PlanOf(g, x, call, env), Subject(call, env))
  {
    if IsCaseCall(call) {
      CaseCallTouches(g, x, call, env);
    } else if call.Register? {
      RegisterTouches(g, x, call.req, env);
    } else if call.Escalate? {
      EscalateTouches(g, x, call.id, env);
    } else if call.Reevaluate? {
      ReevaluateTouches(g, x, call.id, ActiveRules(x, call.selectedAt), CurrentVersion(x), env);
    } else {
      OtherCallTouches(g, x, call, env);
    }
  }

  lemma OtherCallTouches(g: Config, x: Index, call: Call, env: Env)
    requires RowsKnown(x)
    requires call.CreateRule? || call.RecordBatch? || call.RetryFailure? || call.RecordTaskFailure?
    ensures CommitTouches(x, PlanOf(g, x, call, env), Subject(call, env))
  {
    var p := PlanOf(g, x, call, env);
    if p.Commit? && ExecAll(x, p.writes).Some? {
      OtherWritesEffect(x, p.writes);
    }
  }

  /** A step changes nothing of any case but its subject. */
  lemma StepTouches(g: Config, d: Disk, call: Call, env: Env)
    requires Inv(g, d.index)
    ensures Touches(d.index, Step(g, d, call, env).disk.index, Subject(call, env))
  {
    PlanTouches(g, d.index, call, env);
    StepOutcome(g, d, call, env);
  }
}
