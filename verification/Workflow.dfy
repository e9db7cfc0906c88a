/**
  The service calls. Each one reads the index and then either is refused, or returns what is
  already there, or hands a list of writes to one transaction: that is its `Plan`, and `Execute`
  carries it out on the disk.
 */
module Workflow {
  import opened Domain
  import opened Dispatch
  import opened Tables
  import opened Repo

  datatype Config = Config(deadline: int, extension: int, maxLevel: int)

  /** config.Validate on the business section. */
  predicate ConfigOk(g: Config) {
    g.maxLevel >= 1 && g.deadline > 0 && g.extension > 0
  }

  /**
    What one call takes from outside: fresh ids, the clock when the call starts, the clock when
    its transaction runs, the wall clock used by SupersedeRule, and the store's faults.
   */
  datatype Env = Env(
    uuid1: string, uuid2: string, uuid3: string,
    now: Time, late: Time, wall: Time, fault: Fault)

  datatype Value = ACase(item: Case) | ARule(rule: Rule) | AnEscalation(escalation: Escalation) | Nothing

  datatype Plan =
    | Reject(error: Error)
    | Reuse(value: Value)
    | Commit(writes: seq<Write>, value: Value)

  datatype Reply = Reply(disk: Disk, result: Result<Value>)

  predicate PlanOk(p: Plan) {
    p.Commit? ==> forall w :: w in p.writes ==> WellFormed(w)
  }

  function Execute(d: Disk, p: Plan, env: Env): Reply
    requires PlanOk(p)
  {
    match p
    case Reject(e) => Reply(d, Err(e))
    case Reuse(v) => Reply(d, Ok(v))
    case Commit(ws, v) =>
      var o := Transact(d, ws, env.late, env.fault);
      Reply(o.disk, if o.ok then Ok(v) else Err(StoreFailure))
  }

  // ---------------------------------------------------------------- requests

  datatype RegisterRequest = RegisterRequest(
    externalRef: string, title: string, description: string, operatorName: string,
    operatorContact: string, materials: seq<string>, category: string, keywords: seq<string>,
    registeredBy: string, storeId: string)

  /** Empty text leaves a field alone; an absent list does too. */
  datatype ModifyRequest = ModifyRequest(
    title: string, description: string, operatorName: string, operatorContact: string,
    materials: Option<seq<string>>, category: string, keywords: Option<seq<string>>, actor: string)

  datatype RuleRequest = RuleRequest(
    name: string, description: string, matchKeywords: seq<string>, matchCategory: string,
    lead: string, co: seq<string>, priority: int, isDefault: bool, createdBy: string,
    supersedeVersion: int)

  datatype Call =
    | Register(req: RegisterRequest)
    | StartProcessing(id: string, actor: string)
    | Modify(id: string, change: ModifyRequest)
    | ReturnForCorrection(id: string, reason: string, actor: string)
    | Resubmit(id: string, actor: string)
    | Cancel(id: string, reason: string, actor: string)
    | Complete(id: string, actor: string)
    | CreateRule(rule: RuleRequest)
    | Escalate(id: string)
    | Reevaluate(id: string, selectedAt: Time)
    | RecordBatch(storeId: string, rows: nat, successes: nat, failures: nat)
    | RetryFailure(id: string, actor: string)
    | RecordTaskFailure(task: string, cause: string, attempts: nat, baseBackoff: int)

  // ---------------------------------------------------------------- case calls

  function Entry(uuid: string, entityId: string, entityType: string, action: string,
                 actor: string, at: Time, details: string): Write {
    Save(AuditRec(AuditEntry(uuid, entityId, entityType, action, actor, at, details)))
  }

  function RequestError(req: RegisterRequest): Option<Error> {
    if req.externalRef == "" || req.title == "" || req.registeredBy == "" then Some(Validation) else None
  }

  function NewCase(g: Config, req: RegisterRequest, env: Env): Case {
    Case(env.uuid1, req.externalRef, req.title, req.description, req.operatorName,
         req.operatorContact, req.materials, req.category, req.keywords, Registered,
         "", [], 0, env.now, req.registeredBy, env.now + g.deadline, 0, req.storeId,
         None, None, "", env.now, env.now)
  }

  function Routed(c: Case, r: Rule): Case {
    c.(lead := r.lead, co := r.co, ruleVersion := r.version, status := Adjudicated)
  }

  function RegisterWrites(c: Case, r: Rule, env: Env): seq<Write> {
    [ Save(ItemRec(c)),
      Save(AssignmentRec(ReferralFor(r, c, env.uuid2, env.now))),
      Entry(env.uuid3, c.id, "item", "register", c.registeredBy, env.now, "") ]
  }

  ghost function RegisterPlan(g: Config, x: Index, req: RegisterRequest, env: Env): (p: Plan)
    ensures PlanOk(p)
  {
    if RequestError(req).Some? then Reject(RequestError(req).value)
    else if ByRef(x, req.externalRef).Some? then Reuse(ACase(ByRef(x, req.externalRef).value))
    else
      var c := NewCase(g, req, env);
      match Choice(ActiveRules(x, env.now), c)
      case None => Reject(NoMatchingRule)
      case Some(r) => Commit(RegisterWrites(Routed(c, r), r, env), ACase(Routed(c, r)))
  }

  /** updateItemWithAudit. */
  function UpdatePlan(c: Case, action: string, actor: string, details: string, env: Env): (p: Plan)
    ensures PlanOk(p)
  {
    Commit([ UpdateItem(c), Entry(env.uuid1, c.id, "item", action, actor, env.late, details) ], ACase(c))
  }

  predicate IsCaseCall(call: Call) {
    || call.StartProcessing? || call.Modify? || call.ReturnForCorrection?
    || call.Resubmit? || call.Cancel? || call.Complete?
  }

  function Edited(c: Case, q: ModifyRequest, now: Time): Case {
    c.(title := if q.title != "" then q.title else c.title,
       description := if q.description != "" then q.description else c.description,
       operatorName := if q.operatorName != "" then q.operatorName else c.operatorName,
       operatorContact := if q.operatorContact != "" then q.operatorContact else c.operatorContact,
       materials := if q.materials.Some? then q.materials.value else c.materials,
       category := if q.category != "" then q.category else c.category,
       keywords := if q.keywords.Some? then q.keywords.value else c.keywords,
       updatedAt := now)
  }

  function Moved(c: Case, to: Status, now: Time): Result<Case> {
    match TransitionTo(c, to)
    case None => Err(InvalidTransition)
    case Some(d) => Ok(d.(updatedAt := now))
  }

  /** What a call makes of the case it names, before anything is stored. */
  function CaseStep(c: Case, call: Call, now: Time): Result<Case>
    requires IsCaseCall(call)
  {
    match call
    case StartProcessing(_, _) => Moved(c, InProgress, now)
    case Modify(_, change) => if IsTerminal(c.status) then Err(AlreadyCompleted) else Ok(Edited(c, change, now))
    case ReturnForCorrection(_, _, _) => Moved(c, Returned, now)
    case Resubmit(_, _) =>
      (match Moved(c, Registered, now)
       case Err(e) => Err(e)
       case Ok(d) => Moved(d, Adjudicated, now))
    case Cancel(_, reason, _) =>
      (match Moved(c, Cancelled, now)
       case Err(e) => Err(e)
       case Ok(d) => Ok(d.(cancelledAt := Some(now), cancelReason := reason)))
    case Complete(_, _) =>
      (match Moved(c, Completed, now)
       case Err(e) => Err(e)
       case Ok(d) => Ok(d.(completedAt := Some(now))))
  }

  /** The audit action, actor and details of a call on one case. */
  function AuditOf(call: Call): (string, string, string)
    requires IsCaseCall(call)
  {
    match call
    case StartProcessing(_, actor) => ("start_processing", actor, "")
    case Modify(_, change) => ("modify", change.actor, "")
    case ReturnForCorrection(_, reason, actor) => ("return_for_correction", actor, reason)
    case Resubmit(_, actor) => ("resubmit", actor, "")
    case Cancel(_, reason, actor) => ("cancel", actor, reason)
    case Complete(_, actor) => ("complete", actor, "")
  }

  function CasePlan(x: Index, call: Call, env: Env): (p: Plan)
    requires IsCaseCall(call)
    ensures PlanOk(p)
  {
    if call.id !in x.items then Reject(NotFound)
    else
      match CaseStep(x.items[call.id], call, env.now)
      case Err(e) => Reject(e)
      case Ok(c) =>
        var (action, actor, details) := AuditOf(call);
        UpdatePlan(c, action, actor, details, env)
  }

  // ---------------------------------------------------------------- rules

  function NewRule(q: RuleRequest, version: int, env: Env): Rule {
    Rule(version, q.name, q.description, q.matchKeywords, q.matchCategory, q.lead, q.co,
         q.priority, q.isDefault, env.now, None, Active, env.now, q.createdBy)
  }

  function RuleWrites(q: RuleRequest, r: Rule, env: Env): seq<Write> {
    (if q.supersedeVersion > 0 then
       [ SupersedeRule(q.supersedeVersion, env.wall),
         Entry(env.uuid1, IntText(q.supersedeVersion), "rule", SUPERSEDE_ACTION, q.createdBy, env.now,
               "superseded by v" + IntText(r.version)) ]
     else [])
    + [ Save(RuleRec(r)),
        Entry(env.uuid2, IntText(r.version), "rule", "rule_create", q.createdBy, env.now, r.name) ]
  }

  ghost function CreateRulePlan(x: Index, q: RuleRequest, env: Env): (p: Plan)
    ensures PlanOk(p)
  {
    if q.name == "" || q.lead == "" || q.createdBy == "" then Reject(Validation)
    else
      var r := NewRule(q, CurrentVersion(x) + 1, env);
      Commit(RuleWrites(q, r, env), ARule(r))
  }

  // ---------------------------------------------------------------- escalation

  /** The WHERE clause of FindOverdueItems. */
  predicate IsOverdue(c: Case, now: Time, maxLevel: int) {
    !IsTerminal(c.status) && c.deadline < now && c.level < maxLevel
  }

  function EscalationOf(g: Config, c: Case, env: Env): Escalation {
    Escalation(env.uuid1, c.id, c.level, c.level + 1, c.lead,
               EscalationDepartmentName(c.lead, c.level + 1), env.now, "deadline_exceeded",
               env.now + g.extension)
  }

  function EscalationReferral(c: Case, e: Escalation, env: Env): Referral {
    Referral(env.uuid2, c.id, e.newLead, c.co, c.ruleVersion, env.now, "system_escalation", true)
  }

  function Raised(c: Case, e: Escalation, env: Env): Case {
    c.(lead := e.newLead, level := e.toLevel, deadline := e.newDeadline, status := Escalated,
       updatedAt := env.now)
  }

  function EscalateWrites(g: Config, c: Case, env: Env): seq<Write> {
    var e := EscalationOf(g, c, env);
    [ Save(EscalationRec(e)),
      MarkAssignmentSuperseded(c.id),
      Save(AssignmentRec(EscalationReferral(c, e, env))),
      UpdateItem(Raised(c, e, env)),
      Entry(env.uuid3, c.id, "item", "escalate", "system", env.now,
            "level " + IntText(e.fromLevel) + "->" + IntText(e.toLevel) + " lead " + e.oldLead + "->" + e.newLead) ]
  }

  /** escalateItem on a row read by the sweep. */
  function EscalateItemPlan(g: Config, c: Case, env: Env): (p: Plan)
    ensures PlanOk(p)
  {
    if c.level + 1 > g.maxLevel then Reject(MaxEscalationReached)
    else if !ValidTransition(c.status, Escalated) then Reject(InvalidTransition)
    else Commit(EscalateWrites(g, c, env), AnEscalation(EscalationOf(g, c, env)))
  }

  function EscalatePlan(g: Config, x: Index, id: string, env: Env): (p: Plan)
    ensures PlanOk(p)
  {
    if id in x.items && IsOverdue(x.items[id], env.now, g.maxLevel) then
      EscalateItemPlan(g, x.items[id], env)
    else Reject(NotFound)
  }

  // ---------------------------------------------------------------- re-evaluation

  predicate IsReevaluable(s: Status) {
    s == Registered || s == Adjudicated
  }

  predicate IsStale(c: Case, current: int) {
    IsReevaluable(c.status) && c.ruleVersion < current
  }

  function Rerouted(c: Case, r: Rule, now: Time): Case {
    Routed(c, r).(updatedAt := now)
  }

  function RerouteWrites(c: Case, d: Case, a: Referral, env: Env): seq<Write> {
    [ MarkAssignmentSuperseded(d.id), Save(AssignmentRec(a)), UpdateItem(d),
      Entry(env.uuid2, d.id, "item", "rule_reevaluated", "system", env.now,
            "rule v" + IntText(c.ruleVersion) + "->v" + IntText(a.ruleVersion) + " lead " + a.lead) ]
  }

  function ReevaluateWrites(c: Case, r: Rule, env: Env): seq<Write> {
    RerouteWrites(c, Rerouted(c, r, env.now), ReferralFor(r, c, env.uuid1, env.now), env)
  }

  /** reevaluateItem, given the rules and the current version that the sweep read. */
  ghost function ReevaluateItemPlan(x: Index, id: string, rules: set<Rule>, current: int, env: Env): (p: Plan)
    ensures PlanOk(p)
  {
    if id !in x.items then Reject(NotFound)
    else
      var c := x.items[id];
      if !IsStale(c, current) then Reuse(Nothing)
      else
        match Choice(rules, c)
        case None => Reuse(Nothing)
        case Some(r) => Commit(ReevaluateWrites(c, r, env), ACase(Rerouted(c, r, env.now)))
  }

  // ---------------------------------------------------------------- batches and failures

  function BatchPlan(storeId: string, rows: nat, successes: nat, failures: nat, env: Env): (p: Plan)
    ensures PlanOk(p)
  {
    Commit([ Save(BatchRec(ImportBatch(env.uuid1, storeId, env.now, rows, successes, failures, env.now))),
             Entry(env.uuid2, env.uuid1, "batch", "batch_import", storeId, env.now,
                   IntText(successes) + " success, " + IntText(failures) + " fail") ], Nothing)
  }

  function RetryPlan(x: Index, id: string, actor: string, env: Env): (p: Plan)
    ensures PlanOk(p)
  {
    if id !in x.failures then Reject(NotFound)
    else
      Commit([ UpdateFailure(x.failures[id].(status := Retried, resolvedAt := Some(env.now))),
               Entry(env.uuid1, id, "failure", "failure_retry", actor, env.now, "") ], Nothing)
  }

  function TaskFailurePlan(task: string, cause: string, attempts: nat, baseBackoff: int, env: Env): (p: Plan)
    ensures PlanOk(p)
  {
    Commit([ Save(FailureRec(PermanentFailure(
               env.uuid1, "scheduler_task", task, task, cause, attempts,
               env.now + Wrap64(-baseBackoff * attempts), env.now, ActiveFailure, None, None,
               "exhausted after " + IntText(attempts) + " attempts"))) ], Nothing)
  }

  // ---------------------------------------------------------------- runs

  ghost function PlanOf(g: Config, x: Index, call: Call, env: Env): (p: Plan)
    ensures PlanOk(p)
  {
    if IsCaseCall(call) then CasePlan(x, call, env)
    else
    match call
    case Register(req) => RegisterPlan(g, x, req, env)
    case CreateRule(q) => CreateRulePlan(x, q, env)
    case Escalate(id) => EscalatePlan(g, x, id, env)
    case Reevaluate(id, at) => ReevaluateItemPlan(x, id, ActiveRules(x, at), CurrentVersion(x), env)
    case RecordBatch(storeId, rows, ok, bad) => BatchPlan(storeId, rows, ok, bad, env)
    case RetryFailure(id, actor) => RetryPlan(x, id, actor, env)
    case RecordTaskFailure(task, cause, n, base) => TaskFailurePlan(task, cause, n, base, env)
  }

  /** One call on the disk, whether it commits, rolls back or is refused. */
  ghost function Step(g: Config, d: Disk, call: Call, env: Env): Reply {
    Execute(d, PlanOf(g, d.index, call, env), env)
  }

  datatype Event = Event(call: Call, env: Env)

  /** Any sequence of calls, from any disk. */
  ghost function Run(g: Config, d: Disk, events: seq<Event>): Disk {
    if |events| == 0 then d
    else
      var before := Run(g, d, events[..|events| - 1]);
      Step(g, before, events[|events| - 1].call, events[|events| - 1].env).disk
  }
}
