/**
  Runs of service calls seen from the shard files: what every run keeps, and what a run without
  rollbacks keeps on top of it.
 */
module LogTheorems {
  import opened Domain
  import opened Tables
  import opened Repo
  import opened Agreement
  import opened Workflow
  import opened Lifecycle

  // ---------------------------------------------------------------- the calls write soundly

  ghost predicate CommitSound(x: Index, p: Plan) {
    p.Commit? ==> AllSound(x, p.writes)
  }

  predicate FiledBy(p: Plan, at: Time) {
    p.Commit? ==> forall w :: w in p.writes ==> FilingTime(w, at) <= at
  }

  lemma CasePlanSound(g: Config, x: Index, call: Call, env: Env)
    requires Constraints(x) && IsCaseCall(call)
    ensures CommitSound(x, CasePlan(x, call, env))
  {
    if call.id in x.items && CaseStep(x.items[call.id], call, env.now).Ok? {
      CaseStepKeeps(g, x.items[call.id], call, env.now);
    }
  }

  lemma RegisterPlanSound(g: Config, x: Index, req: RegisterRequest, env: Env)
    ensures CommitSound(x, RegisterPlan(g, x, req, env))
  {
  }

  lemma EscalatePlanSound(g: Config, x: Index, id: string, env: Env)
    requires Constraints(x)
    ensures CommitSound(x, EscalatePlan(g, x, id, env))
  {
  }

  lemma ReevaluatePlanSound(x: Index, id: string, rules: set<Rule>, current: int, env: Env)
    requires Constraints(x)
    ensures CommitSound(x, ReevaluateItemPlan(x, id, rules, current, env))
  {
  }

  lemma OtherPlanSound(g: Config, x: Index, call: Call, env: Env)
    requires Constraints(x)
    requires call.CreateRule? || call.RecordBatch? || call.RetryFailure? || call.RecordTaskFailure?
    ensures CommitSound(x, PlanOf(g, x, call, env))
  {
  }

  lemma PlanSound(g: Config, x: Index, call: Call, env: Env)
    requires Constraints(x)
    ensures CommitSound(x, PlanOf(g, x, call, env))
  {
    if IsCaseCall(call) {
      CasePlanSound(g, x, call, env);
    } else if call.Register? {
      RegisterPlanSound(g, x, call.req, env);
    } else if call.Escalate? {
      EscalatePlanSound(g, x, call.id, env);
    } else if call.Reevaluate? {
      ReevaluatePlanSound(x, call.id, ActiveRules(x, call.selectedAt), CurrentVersion(x), env);
    } else {
      OtherPlanSound(g, x, call, env);
    }
  }

  lemma RegisterFiledBy(g: Config, x: Index, req: RegisterRequest, env: Env)
    requires env.now <= env.late
    ensures FiledBy(RegisterPlan(g, x, req, env), env.late)
  {
  }

  lemma SweepCallsFiledBy(g: Config, x: Index, id: string, rules: set<Rule>, current: int, env: Env)
    requires env.now <= env.late
    ensures FiledBy(EscalatePlan(g, x, id, env), env.late)
    ensures FiledBy(ReevaluateItemPlan(x, id, rules, current, env), env.late)
  {
  }

  lemma CaseCallFiledBy(x: Index, call: Call, env: Env)
    requires env.now <= env.late && IsCaseCall(call)
    ensures FiledBy(CasePlan(x, call, env), env.late)
  {
  }

  lemma CreateRuleFiledBy(x: Index, q: RuleRequest, env: Env)
    requires env.now <= env.late
    ensures FiledBy(CreateRulePlan(x, q, env), env.late)
  {
  }

  lemma PlanFiledBy(g: Config, x: Index, call: Call, env: Env)
    requires env.now <= env.late && BackoffOk(call)
    ensures FiledBy(PlanOf(g, x, call, env), env.late)
  {
    if IsCaseCall(call) {
      CaseCallFiledBy(x, call, env);
    } else if call.Register? {
      RegisterFiledBy(g, x, call.req, env);
    } else if call.CreateRule? {
      CreateRuleFiledBy(x, call.rule, env);
    } else if call.Escalate? {
      SweepCallsFiledBy(g, x, call.id, {}, 0, env);
    } else if call.Reevaluate? {
      SweepCallsFiledBy(g, x, call.id, ActiveRules(x, call.selectedAt), CurrentVersion(x), env);
    } else if call.RecordTaskFailure? {
      assert Wrap64(-call.baseBackoff * call.attempts) <= 0;
    }
  }

  // ---------------------------------------------------------------- every run

  lemma StepStaysAhead(g: Config, d: Disk, call: Call, env: Env)
    requires Constraints(d.index) && WriteAhead(d)
    ensures WriteAhead(Step(g, d, call, env).disk)
  {
    var p := PlanOf(g, d.index, call, env);
    PlanSound(g, d.index, call, env);
    if p.Commit? {
      TransactStaysAhead(d, p.writes, env.late, env.fault);
    }
  }

  /** Write-ahead: in any run, rollbacks included, every row is a record already in the files. */
  lemma {:induction false} EveryRowIsLogged(g: Config, events: seq<Event>)
    requires ConfigOk(g)
    ensures WriteAhead(Run(g, EMPTY_DISK, events))
  {
    if |events| > 0 {
      var before, last := events[..|events| - 1], events[|events| - 1];
      EveryRowIsLogged(g, before);
      RunKeepsInv(g, EMPTY_DISK, before);
      StepStaysAhead(g, Run(g, EMPTY_DISK, before), last.call, last.env);
    }
  }

  lemma {:induction false} LastOfFinds(records: seq<Record>, r: Record)
    requires r in records && !r.Malformed?
    ensures LastOf(records, KeyOf(r)).Some?
  {
    if records[|records| - 1] != r {
      assert records == records[..|records| - 1] + [records[|records| - 1]];
      LastOfFinds(records[..|records| - 1], r);
    }
  }

  // ---------------------------------------------------------------- runs without rollback

  /** A negative backoff, or one that overflows, could date a failure record in the future. */
  predicate BackoffOk(call: Call) {
    call.RecordTaskFailure? ==> Wrap64(-call.baseBackoff * call.attempts) <= 0
  }

  /**
    The store's clock never goes back from one transaction to the next, and no call dates a record
    ahead of it. A call may be dated earlier than the one before: a sweep reads the clock once for
    all its cases, and an import dates its batch when it starts.
   */
  predicate Clocked(events: seq<Event>) {
    && (forall i :: 0 <= i < |events| ==> events[i].env.now <= events[i].env.late && BackoffOk(events[i].call))
    && (forall i :: 0 < i < |events| ==> events[i - 1].env.late <= events[i].env.late)
  }

  ghost predicate Committed(g: Config, d: Disk, e: Event) {
    var p := PlanOf(g, d.index, e.call, e.env);
    p.Commit? ==> Transact(d, p.writes, e.env.late, e.env.fault).ok
  }

  /** No transaction of the run was rolled back. Refused calls are allowed. */
  ghost predicate AllCommitted(g: Config, d: Disk, events: seq<Event>) {
    forall i :: 0 <= i < |events| ==> Committed(g, Run(g, d, events[..i]), events[i])
  }

  lemma StepAgrees(g: Config, d: Disk, e: Event)
    requires Constraints(d.index) && Agrees(d) && Horizon(d.files, e.env.late) && e.env.now <= e.env.late
    requires Committed(g, d, e) && BackoffOk(e.call)
    ensures Agrees(Step(g, d, e.call, e.env).disk)
    ensures Horizon(Step(g, d, e.call, e.env).disk.files, e.env.late)
  {
    var p := PlanOf(g, d.index, e.call, e.env);
    PlanSound(g, d.index, e.call, e.env);
    PlanFiledBy(g, d.index, e.call, e.env);
    if p.Commit? {
      TransactAgrees(d, p.writes, e.env.late, e.env.fault);
    }
  }

  /** After a run of committed calls, reading the files in path order gives every table back. */
  lemma {:induction false} FilesAgreeWithTables(g: Config, events: seq<Event>)
    requires ConfigOk(g) && Clocked(events) && AllCommitted(g, EMPTY_DISK, events)
    ensures Agrees(Run(g, EMPTY_DISK, events))
    ensures |events| > 0 ==> Horizon(Run(g, EMPTY_DISK, events).files, events[|events| - 1].env.late)
    ensures |events| == 0 ==> Run(g, EMPTY_DISK, events).files == map[]
  {
    if |events| == 0 {
      forall k ensures Latest(map[], k, LoggedRow(EMPTY_INDEX, k)) {
        assert LoggedRow(EMPTY_INDEX, k) == None;
      }
    } else {
      var before, last := events[..|events| - 1], events[|events| - 1];
      forall i | 0 <= i < |before| ensures Committed(g, Run(g, EMPTY_DISK, before[..i]), before[i]) {
        assert before[..i] == events[..i];
      }
      FilesAgreeWithTables(g, before);
      RunKeepsInv(g, EMPTY_DISK, before);
      assert Committed(g, Run(g, EMPTY_DISK, events[..|events| - 1]), last);
      StepAgrees(g, Run(g, EMPTY_DISK, before), last);
    }
  }

  // ---------------------------------------------------------------- superseded rules

  /** The audit trail tells exactly which rules are superseded. */
  ghost predicate SupersedesAgree(x: Index) {
    && (forall v :: SupersedeLogged(x, v) <==> v in x.rules && x.rules[v].status == Superseded)
    && (forall v :: v in x.rules ==> x.rules[v].status == Active || x.rules[v].status == Superseded)
  }

  predicate LeavesRules(w: Write) {
    match w
    case Save(r) => !r.RuleRec? && (r.AuditRec? ==> r.entry.action != SUPERSEDE_ACTION)
    case SupersedeRule(_, _) => false
    case _ => true
  }

  lemma AuditInsert(x: Index, a: AuditEntry, v: int)
    requires a.id !in x.audit
    ensures SupersedeLogged(x.(audit := x.audit[a.id := a]), v) <==> SupersedeLogged(x, v) || SupersedesRule(a, v)
  {
    var y := x.(audit := x.audit[a.id := a]);
    if SupersedeLogged(x, v) {
      var b :| b in x.audit && SupersedesRule(x.audit[b], v);
      assert b in y.audit && SupersedesRule(y.audit[b], v);
    }
    if SupersedesRule(a, v) {
      assert a.id in y.audit && SupersedesRule(y.audit[a.id], v);
    }
  }

  lemma LeavesRulesEffect(x: Index, w: Write)
    requires WellFormed(w) && LeavesRules(w) && Exec(x, w).Some?
    ensures Exec(x, w).value.rules == x.rules
    ensures forall v :: SupersedeLogged(Exec(x, w).value, v) <==> SupersedeLogged(x, v)
  {
    if w.Save? && w.r.AuditRec? {
      forall v ensures SupersedeLogged(Exec(x, w).value, v) <==> SupersedeLogged(x, v) {
        AuditInsert(x, w.r.entry, v);
      }
    } else {
      OtherRowsEffect(x, w);
      SameAudit(x, Exec(x, w).value);
    }
  }

  lemma OtherRowsEffect(x: Index, w: Write)
    requires WellFormed(w) && LeavesRules(w) && Exec(x, w).Some? && !(w.Save? && w.r.AuditRec?)
    ensures Exec(x, w).value.rules == x.rules && Exec(x, w).value.audit == x.audit
  {
    if w.Save? {
      OtherInsertEffect(x, w.r);
    }
  }

  lemma OtherInsertEffect(x: Index, r: Record)
    requires !r.Malformed? && !r.RuleRec? && !r.AuditRec? && Insert(x, r).Some?
    ensures Insert(x, r).value.rules == x.rules && Insert(x, r).value.audit == x.audit
  {
  }

  lemma SameAudit(x: Index, y: Index)
    requires y.audit == x.audit
    ensures forall v :: SupersedeLogged(y, v) <==> SupersedeLogged(x, v)
  {
  }

  lemma {:induction false} OtherWritesLeaveRules(x: Index, ws: seq<Write>)
    requires forall w :: w in ws ==> WellFormed(w) && LeavesRules(w)
    requires ExecAll(x, ws).Some?
    ensures ExecAll(x, ws).value.rules == x.rules
    ensures forall v :: SupersedeLogged(ExecAll(x, ws).value, v) <==> SupersedeLogged(x, v)
    decreases |ws|
  {
    if |ws| > 0 {
      assert WellFormed(ws[0]) && LeavesRules(ws[0]);
      LeavesRulesEffect(x, ws[0]);
      OtherWritesLeaveRules(Exec(x, ws[0]).value, ws[1..]);
    }
  }

  lemma OtherPlansLeaveRules(g: Config, x: Index, call: Call, env: Env)
    requires !call.CreateRule?
    ensures var p := PlanOf(g, x, call, env);
      p.Commit? ==> forall w :: w in p.writes ==> LeavesRules(w)
  {
  }

  function AfterSupersede(x: Index, q: RuleRequest, env: Env): map<int, Rule> {
    if q.supersedeVersion in x.rules && q.supersedeVersion > 0 then
      x.rules[q.supersedeVersion := x.rules[q.supersedeVersion].(status := Superseded, effectiveTo := Some(env.wall))]
    else x.rules
  }

  lemma SaveRuleEffect(x: Index, r: Rule, a: AuditEntry)
    requires ExecAll(x, [Save(RuleRec(r)), Save(AuditRec(a))]).Some? && a.action != SUPERSEDE_ACTION
    ensures var y := ExecAll(x, [Save(RuleRec(r)), Save(AuditRec(a))]).value;
      && r.version !in x.rules && y.rules == x.rules[r.version := r]
      && forall v :: SupersedeLogged(y, v) <==> SupersedeLogged(x, v)
  {
    var w1, w2 := Save(RuleRec(r)), Save(AuditRec(a));
    assert [w1, w2] == [w1] + ([w2] + []);
    ExecAllSplit(x, w1, [w2] + []);
    var y := Exec(x, w1).value;
    ExecAllSplit(y, w2, []);
    assert y.audit == x.audit;
    LeavesRulesEffect(y, w2);
    forall v ensures SupersedeLogged(y, v) <==> SupersedeLogged(x, v) {
      assert y.audit == x.audit;
    }
  }

  lemma SupersedeEffect(x: Index, version: int, wall: Time, s: AuditEntry)
    requires version > 0 && s.action == SUPERSEDE_ACTION && s.entityType == "rule" && s.entityId == IntText(version)
    requires Exec(Exec(x, SupersedeRule(version, wall)).value, Save(AuditRec(s))).Some?
    ensures var y := Exec(x, SupersedeRule(version, wall)).value;
      var z := Exec(y, Save(AuditRec(s))).value;
      && z.rules == y.rules
      && forall v :: SupersedeLogged(z, v) <==> SupersedeLogged(x, v) || v == version
  {
    var y := Exec(x, SupersedeRule(version, wall)).value;
    SameAudit(x, y);
    CastDecimal(version);
    forall v ensures SupersedeLogged(Exec(y, Save(AuditRec(s))).value, v) <==> SupersedeLogged(x, v) || v == version {
      AuditInsert(y, s, v);
    }
  }

  lemma CreateRuleEffect(x: Index, q: RuleRequest, r: Rule, env: Env)
    requires ExecAll(x, RuleWrites(q, r, env)).Some?
    ensures var y := ExecAll(x, RuleWrites(q, r, env)).value;
      && r.version !in x.rules && y.rules == AfterSupersede(x, q, env)[r.version := r]
      && forall v :: SupersedeLogged(y, v) <==> SupersedeLogged(x, v) || (q.supersedeVersion > 0 && v == q.supersedeVersion)
  {
    var ws := RuleWrites(q, r, env);
    var created := AuditEntry(env.uuid2, IntText(r.version), "rule", "rule_create", q.createdBy, env.now, r.name);
    var tail := [Save(RuleRec(r)), Save(AuditRec(created))];
    if q.supersedeVersion > 0 {
      var s := AuditEntry(env.uuid1, IntText(q.supersedeVersion), "rule", SUPERSEDE_ACTION, q.createdBy, env.now,
                          "superseded by v" + IntText(r.version));
      var w := SupersedeRule(q.supersedeVersion, env.wall);
      assert ws == [w] + ([Save(AuditRec(s))] + tail);
      ExecAllSplit(x, w, [Save(AuditRec(s))] + tail);
      var y := Exec(x, w).value;
      ExecAllSplit(y, Save(AuditRec(s)), tail);
      SupersedeEffect(x, q.supersedeVersion, env.wall, s);
      SaveRuleEffect(Exec(y, Save(AuditRec(s))).value, r, created);
    } else {
      assert ws == tail;
      SaveRuleEffect(x, r, created);
    }
  }

  /**
    A committed CreateRule keeps the audit trail in step with the rules exactly when the version
    it supersedes, if any, exists at that moment. Naming the version that the very same call is
    about to create, or a later one, breaks it: nothing rejects such a request.
   */
  lemma SupersedeMustExist(g: Config, x: Index, q: RuleRequest, env: Env)
    requires Constraints(x) && RowsKnown(x) && SupersedesAgree(x)
    requires var p := CreateRulePlan(x, q, env); p.Commit? && ExecAll(x, p.writes).Some?
    ensures SupersedesAgree(ExecAll(x, CreateRulePlan(x, q, env).writes).value)
      <==> q.supersedeVersion <= 0 || q.supersedeVersion in x.rules
  {
    var p := CreateRulePlan(x, q, env);
    CreateRuleEffect(x, q, p.value.rule, env);
    SupersedesAfterCreate(x, q, p.value.rule, env, ExecAll(x, p.writes).value);
  }

  lemma SupersedesAfterCreate(x: Index, q: RuleRequest, r: Rule, env: Env, y: Index)
    requires SupersedesAgree(x) && r.version !in x.rules && r.status == Active
    requires y.rules == AfterSupersede(x, q, env)[r.version := r]
    requires forall v :: SupersedeLogged(y, v) <==> SupersedeLogged(x, v) || (q.supersedeVersion > 0 && v == q.supersedeVersion)
    ensures SupersedesAgree(y) <==> q.supersedeVersion <= 0 || q.supersedeVersion in x.rules
  {
    var v := q.supersedeVersion;
    assert !SupersedeLogged(x, r.version);
    if v > 0 && v !in x.rules {
      assert SupersedeLogged(y, v) && !(v in y.rules && y.rules[v].status == Superseded);
    }
  }

  predicate NamesExistingRule(x: Index, call: Call) {
    call.CreateRule? && call.rule.supersedeVersion > 0 ==> call.rule.supersedeVersion in x.rules
  }

  /** Every rule superseded in the run existed when it was superseded. */
  ghost predicate SupersedesExist(g: Config, d: Disk, events: seq<Event>) {
    forall i :: 0 <= i < |events| ==> NamesExistingRule(Run(g, d, events[..i]).index, events[i].call)
  }

  lemma StepSupersedesAgree(g: Config, d: Disk, call: Call, env: Env)
    requires Constraints(d.index) && RowsKnown(d.index) && SupersedesAgree(d.index)
    requires NamesExistingRule(d.index, call)
    ensures SupersedesAgree(Step(g, d, call, env).disk.index)
  {
    var x, p := d.index, PlanOf(g, d.index, call, env);
    StepOutcome(g, d, call, env);
    if p.Commit? && ExecAll(x, p.writes).Some? {
      if call.CreateRule? {
        SupersedeMustExist(g, x, call.rule, env);
      } else {
        OtherPlansLeaveRules(g, x, call, env);
        OtherWritesLeaveRules(x, p.writes);
      }
    }
  }

  /** Committed or not, a run whose supersedes name existing rules keeps the audit trail in step. */
  lemma {:induction false} AuditTellsSupersededRules(g: Config, events: seq<Event>)
    requires ConfigOk(g) && SupersedesExist(g, EMPTY_DISK, events)
    ensures SupersedesAgree(Run(g, EMPTY_DISK, events).index)
  {
    if |events| > 0 {
      var before, last := events[..|events| - 1], events[|events| - 1];
      forall i | 0 <= i < |before| ensures NamesExistingRule(Run(g, EMPTY_DISK, before[..i]).index, before[i].call) {
        assert before[..i] == events[..i];
      }
      AuditTellsSupersededRules(g, before);
      RunKeepsInv(g, EMPTY_DISK, before);
      assert NamesExistingRule(Run(g, EMPTY_DISK, events[..|events| - 1]).index, last.call);
      StepSupersedesAgree(g, Run(g, EMPTY_DISK, before), last.call, last.env);
    }
  }

  /** A rule has an end exactly when it is superseded, and then the audit trail says so. */
  ghost predicate EndsStamped(x: Index) {
    forall v :: v in x.rules ==>
      && (x.rules[v].status == Active || x.rules[v].status == Superseded)
      && (x.rules[v].effectiveTo.Some? <==> x.rules[v].status == Superseded)
      && (x.rules[v].status == Superseded ==> SupersedeLogged(x, v))
  }

  lemma {:induction false} RunStampsEnds(g: Config, events: seq<Event>)
    ensures EndsStamped(Run(g, EMPTY_DISK, events).index)
  {
    if |events| > 0 {
      var before, last := events[..|events| - 1], events[|events| - 1];
      RunStampsEnds(g, before);
      StepStampsEnds(g, Run(g, EMPTY_DISK, before), last.call, last.env);
    }
  }

  lemma StepStampsEnds(g: Config, d: Disk, call: Call, env: Env)
    requires EndsStamped(d.index)
    ensures EndsStamped(Step(g, d, call, env).disk.index)
  {
    var p := PlanOf(g, d.index, call, env);
    StepOutcome(g, d, call, env);
    if p.Commit? && ExecAll(d.index, p.writes).Some? {
      if call.CreateRule? {
        CreateRuleEffect(d.index, call.rule, p.value.rule, env);
      } else {
        OtherPlansLeaveRules(g, d.index, call, env);
        OtherWritesLeaveRules(d.index, p.writes);
      }
    }
  }

  /** The versions that the calls of a run superseded. */
  ghost function Superseding(g: Config, events: seq<Event>): set<int> {
    if |events| == 0 then {}
    else
      var before, last := events[..|events| - 1], events[|events| - 1];
      Superseding(g, before) + SupersededBy(g, Run(g, EMPTY_DISK, before), last)
  }

  /** Those among them that existed when the call superseded them. */
  ghost function SupersedingKnown(g: Config, events: seq<Event>): set<int> {
    if |events| == 0 then {}
    else
      var before, last := events[..|events| - 1], events[|events| - 1];
      var d := Run(g, EMPTY_DISK, before);
      SupersedingKnown(g, before) + SupersededBy(g, d, last) * d.index.rules.Keys
  }

  /** The version a call supersedes, if it is answered Ok and names one. */
  ghost function SupersededBy(g: Config, d: Disk, e: Event): set<int> {
    if e.call.CreateRule? && e.call.rule.supersedeVersion > 0 && Step(g, d, e.call, e.env).result.Ok? then
      {e.call.rule.supersedeVersion}
    else {}
  }

  predicate IsSuperseded(x: Index, v: int) {
    v in x.rules && x.rules[v].status == Superseded
  }

  /**
    In any run the audit trail names exactly the versions that some call superseded, and the
    superseded rules are those that existed when a call did so.
   */
  lemma {:induction false} SupersedeHistory(g: Config, events: seq<Event>, v: int)
    ensures SupersedeLogged(Run(g, EMPTY_DISK, events).index, v) <==> v in Superseding(g, events)
    ensures IsSuperseded(Run(g, EMPTY_DISK, events).index, v) <==> v in SupersedingKnown(g, events)
  {
    if |events| > 0 {
      var before, last := events[..|events| - 1], events[|events| - 1];
      SupersedeHistory(g, before, v);
      StepSupersedes(g, Run(g, EMPTY_DISK, before), last, v);
    }
  }

  lemma StepSupersedes(g: Config, d: Disk, e: Event, v: int)
    ensures var x, y := d.index, Step(g, d, e.call, e.env).disk.index;
      && (SupersedeLogged(y, v) <==> SupersedeLogged(x, v) || v in SupersededBy(g, d, e))
      && (IsSuperseded(y, v) <==> IsSuperseded(x, v) || (v in SupersededBy(g, d, e) && v in x.rules))
  {
    var p := PlanOf(g, d.index, e.call, e.env);
    if p.Commit? {
      TransactIndex(d, p.writes, e.env.late, e.env.fault);
      if Transact(d, p.writes, e.env.late, e.env.fault).ok {
        if e.call.CreateRule? {
          CreateRuleEffect(d.index, e.call.rule, p.value.rule, e.env);
        } else {
          OtherPlansLeaveRules(g, d.index, e.call, e.env);
          OtherWritesLeaveRules(d.index, p.writes);
        }
      }
    }
  }
}
