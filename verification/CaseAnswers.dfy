/**
  What every call answers and stores, column by column: which requests it accepts, with which error
  it refuses the others, and what the tables hold afterwards.
 */
module CaseAnswers {
  import opened Domain
  import opened Dispatch
  import opened Tables
  import opened Repo
  import opened Agreement
  import opened Workflow
  import opened Lifecycle
  import opened CaseTheorems
  import opened LogTheorems

  // ---------------------------------------------------------------- one transaction

  /** A call with a transaction is answered with its value, or fails in the store and changes no table. */
  lemma CommitAnswers(g: Config, d: Disk, call: Call, env: Env)
    requires PlanOf(g, d.index, call, env).Commit?
    ensures var p, reply := PlanOf(g, d.index, call, env), Step(g, d, call, env);
      && (reply.result == Ok(p.value) || reply.result == Err(StoreFailure))
      && (reply.result.Ok? ==> ExecAll(d.index, p.writes) == Some(reply.disk.index))
      && (reply.result.Err? ==> reply.disk.index == d.index)
      && (env.fault == NoFault && ExecAll(d.index, p.writes).Some? ==> reply.result.Ok?)
  {
    var p := PlanOf(g, d.index, call, env);
    TransactIndex(d, p.writes, env.late, env.fault);
  }

  // ---------------------------------------------------------------- calls on one case

  /** The store took the call, or failed: nothing else can go wrong, and without a fault only a used audit id can. */
  predicate Updated(x: Index, env: Env, reply: Reply, c: Case, entry: AuditEntry) {
    && (reply.result == Ok(ACase(c)) || reply.result == Err(StoreFailure))
    && (reply.result.Ok? ==> reply.disk.index == x.(items := x.items[c.id := c], audit := x.audit[entry.id := entry]))
    && (reply.result.Err? ==> reply.disk.index == x)
    && (env.fault == NoFault && entry.id !in x.audit ==> reply.result.Ok?)
  }

  /** The audit entry of a call on one case. */
  function CaseEntry(env: Env, id: string, action: string, actor: string, details: string): AuditEntry {
    AuditEntry(id := env.uuid1, entityId := id, entityType := "item", action := action, actor := actor,
               timestamp := env.late, details := details)
  }

  lemma CaseCallAnswers(g: Config, d: Disk, call: Call, env: Env)
    requires Constraints(d.index) && IsCaseCall(call) && call.id in d.index.items
    ensures var step, reply := CaseStep(d.index.items[call.id], call, env.now), Step(g, d, call, env);
      && (step.Err? ==> reply == Reply(d, Err(step.error)))
      && (step.Ok? ==> step.value.id == call.id && var (action, actor, details) := AuditOf(call);
            Updated(d.index, env, reply, step.value, CaseEntry(env, call.id, action, actor, details)))
  {
    var x, step := d.index, CaseStep(d.index.items[call.id], call, env.now);
    if step.Ok? {
      CaseStepKeeps(g, x.items[call.id], call, env.now);
      var (action, actor, details) := AuditOf(call);
      CommitAnswers(g, d, call, env);
      UpdateEffect(x, step.value, CaseEntry(env, call.id, action, actor, details));
    }
  }

  /** Starting work: on adjudicated and escalated cases, and again on those in progress. */
  lemma StartProcessingAnswers(g: Config, d: Disk, id: string, actor: string, env: Env)
    requires Constraints(d.index)
    ensures var x, reply := d.index, Step(g, d, StartProcessing(id, actor), env);
      if id !in x.items then reply == Reply(d, Err(NotFound))
      else if x.items[id].status !in {Adjudicated, InProgress, Escalated} then reply == Reply(d, Err(InvalidTransition))
      else Updated(x, env, reply, x.items[id].(status := InProgress, updatedAt := env.now),
                   CaseEntry(env, id, "start_processing", actor, ""))
  {
    if id in d.index.items {
      CaseCallAnswers(g, d, StartProcessing(id, actor), env);
    }
  }

  /** Returning a case: only before work on it has started. */
  lemma ReturnForCorrectionAnswers(g: Config, d: Disk, id: string, reason: string, actor: string, env: Env)
    requires Constraints(d.index)
    ensures var x, reply := d.index, Step(g, d, ReturnForCorrection(id, reason, actor), env);
      if id !in x.items then reply == Reply(d, Err(NotFound))
      else if x.items[id].status !in {Registered, Adjudicated, Returned} then reply == Reply(d, Err(InvalidTransition))
      else Updated(x, env, reply, x.items[id].(status := Returned, updatedAt := env.now),
                   CaseEntry(env, id, "return_for_correction", actor, reason))
  {
    if id in d.index.items {
      CaseCallAnswers(g, d, ReturnForCorrection(id, reason, actor), env);
    }
  }

  /** Resubmitting: returned cases, which go back to the department they had. */
  lemma ResubmitAnswers(g: Config, d: Disk, id: string, actor: string, env: Env)
    requires Constraints(d.index)
    ensures var x, reply := d.index, Step(g, d, Resubmit(id, actor), env);
      if id !in x.items then reply == Reply(d, Err(NotFound))
      else if x.items[id].status !in {Registered, Returned} then reply == Reply(d, Err(InvalidTransition))
      else Updated(x, env, reply, x.items[id].(status := Adjudicated, updatedAt := env.now),
                   CaseEntry(env, id, "resubmit", actor, ""))
  {
    if id in d.index.items {
      CaseCallAnswers(g, d, Resubmit(id, actor), env);
    }
  }

  /** Cancelling: every case but a completed one, a cancelled one again. */
  lemma CancelAnswers(g: Config, d: Disk, id: string, reason: string, actor: string, env: Env)
    requires Constraints(d.index)
    ensures var x, reply := d.index, Step(g, d, Cancel(id, reason, actor), env);
      if id !in x.items then reply == Reply(d, Err(NotFound))
      else if x.items[id].status == Completed then reply == Reply(d, Err(InvalidTransition))
      else Updated(x, env, reply,
                   x.items[id].(status := Cancelled, cancelledAt := Some(env.now), cancelReason := reason, updatedAt := env.now),
                   CaseEntry(env, id, "cancel", actor, reason))
  {
    if id in d.index.items {
      CaseCallAnswers(g, d, Cancel(id, reason, actor), env);
    }
  }

  /** Completing: cases in progress or escalated, a completed one again. */
  lemma CompleteAnswers(g: Config, d: Disk, id: string, actor: string, env: Env)
    requires Constraints(d.index)
    ensures var x, reply := d.index, Step(g, d, Complete(id, actor), env);
      if id !in x.items then reply == Reply(d, Err(NotFound))
      else if x.items[id].status !in {InProgress, Escalated, Completed} then reply == Reply(d, Err(InvalidTransition))
      else Updated(x, env, reply, x.items[id].(status := Completed, completedAt := Some(env.now), updatedAt := env.now),
                   CaseEntry(env, id, "complete", actor, ""))
  {
    if id in d.index.items {
      CaseCallAnswers(g, d, Complete(id, actor), env);
    }
  }

  function Given(new': string, old': string): string {
    if new' == "" then old' else new'
  }

  function GivenList(new': Option<seq<string>>, old': seq<string>): seq<string> {
    if new'.None? then old' else new'.value
  }

  /** Editing: any case that is not closed; what is given replaces what is there, and nothing is routed anew. */
  lemma ModifyAnswers(g: Config, d: Disk, id: string, q: ModifyRequest, env: Env)
    requires Constraints(d.index)
    ensures var x, reply := d.index, Step(g, d, Modify(id, q), env);
      if id !in x.items then reply == Reply(d, Err(NotFound))
      else if x.items[id].status in {Completed, Cancelled} then reply == Reply(d, Err(AlreadyCompleted))
      else
        var c := x.items[id];
        Updated(x, env, reply,
                c.(title := Given(q.title, c.title), description := Given(q.description, c.description),
                   operatorName := Given(q.operatorName, c.operatorName),
                   operatorContact := Given(q.operatorContact, c.operatorContact),
                   materials := GivenList(q.materials, c.materials), category := Given(q.category, c.category),
                   keywords := GivenList(q.keywords, c.keywords), updatedAt := env.now),
                CaseEntry(env, id, "modify", q.actor, ""))
  {
    if id in d.index.items {
      CaseCallAnswers(g, d, Modify(id, q), env);
    }
  }

  /** In every state a case that is escalated has been raised, and one that waits for its department has not. */
  lemma EscalatedMeansRaised(g: Config, x: Index, id: string)
    requires ConfigOk(g) && Reachable(g, x) && id in x.items
    ensures x.items[id].status == Escalated ==> |EscalationsOf(x.escalations, id)| == x.items[id].level >= 1
    ensures x.items[id].status in {Adjudicated, Returned} ==> EscalationsOf(x.escalations, id) == []
  {
    ReachableInv(g, x);
    assert CaseOk(g, x, x.items[id]);
  }

  // ---------------------------------------------------------------- which rule routes a request

  predicate InForce(r: Rule, at: Time) {
    r.status == Active && r.effectiveFrom <= at && (r.effectiveTo == None || at < r.effectiveTo.value)
  }

  /** The rule is a default rule, or states something and everything it states is met. */
  predicate MetBy(r: Rule, category: string, keywords: seq<string>) {
    || r.isDefault
    || (&& (r.matchCategory == "" ==> r.matchKeywords != [])
        && (r.matchCategory == "" || r.matchCategory == category)
        && (r.matchKeywords == [] || exists k :: k in r.matchKeywords && k in keywords))
  }

  /** Rule `v` can route a request with these facts, made at `since`, when the rules are read at `at`. */
  predicate CanRoute(x: Index, v: int, at: Time, since: Time, category: string, keywords: seq<string>)
    requires v in x.rules
  {
    InForce(x.rules[v], at) && InForce(x.rules[v], since) && MetBy(x.rules[v], category, keywords)
  }

  /** Rule `v` can, and every other rule that can has a lower priority, or the same and a lower version. */
  ghost predicate Routes(x: Index, v: int, at: Time, since: Time, category: string, keywords: seq<string>) {
    && v in x.rules && CanRoute(x, v, at, since, category, keywords)
    && forall w :: w in x.rules && w != v && CanRoute(x, w, at, since, category, keywords) ==>
         x.rules[w].priority < x.rules[v].priority || (x.rules[w].priority == x.rules[v].priority && w < v)
  }

  ghost predicate NoRoute(x: Index, at: Time, since: Time, category: string, keywords: seq<string>) {
    forall v :: v in x.rules ==> !CanRoute(x, v, at, since, category, keywords)
  }

  lemma EligibleIs(x: Index, v: int, at: Time, c: Case)
    requires v in x.rules
    ensures x.rules[v] in ActiveRules(x, at) && Eligible(x.rules[v], c)
      <==> CanRoute(x, v, at, c.registeredAt, c.category, c.keywords)
  {
    assert x.rules[v].matchKeywords != [] ==>
      (SharesKeyword(x.rules[v], c) <==> exists k :: k in x.rules[v].matchKeywords && k in c.keywords);
    if InForce(x.rules[v], at) {
      assert x.rules[v] in ActiveRules(x, at);
    }
    if x.rules[v] in ActiveRules(x, at) {
      var w :| w in x.rules && IsActiveAt(x.rules[w], at) && x.rules[w] == x.rules[v];
    }
  }

  /** The adjudicator's choice, read off the rules table. */
  lemma ChoiceRoutes(x: Index, at: Time, c: Case)
    requires Constraints(x)
    ensures var o := Choice(ActiveRules(x, at), c);
      && (o.None? <==> NoRoute(x, at, c.registeredAt, c.category, c.keywords))
      && (o.Some? ==> o.value.version in x.rules && x.rules[o.value.version] == o.value
                      && Routes(x, o.value.version, at, c.registeredAt, c.category, c.keywords))
  {
    var rules := ActiveRules(x, at);
    var o := Choice(rules, c);
    ActiveRulesDistinct(x, at);
    ChoiceExists(rules, c);
    forall v | v in x.rules ensures x.rules[v] in rules && Eligible(x.rules[v], c)
        <==> CanRoute(x, v, at, c.registeredAt, c.category, c.keywords) {
      EligibleIs(x, v, at, c);
    }
    if o.Some? {
      var v := o.value.version;
      forall w | w in x.rules && w != v && CanRoute(x, w, at, c.registeredAt, c.category, c.keywords)
        ensures x.rules[w].priority < x.rules[v].priority || (x.rules[w].priority == x.rules[v].priority && w < v)
      {
        assert x.rules[w] in rules && Eligible(x.rules[w], c) && x.rules[w].version == w;
        assert Beats(o.value, x.rules[w]);
      }
    } else {
      forall v | v in x.rules ensures !CanRoute(x, v, at, c.registeredAt, c.category, c.keywords) {
        assert !(x.rules[v] in rules && Eligible(x.rules[v], c));
      }
    }
  }

  // ---------------------------------------------------------------- registrations

  /** The case that a registration under rule `v` stores. */
  function CaseFor(g: Config, x: Index, req: RegisterRequest, env: Env, v: int): Case
    requires v in x.rules
  {
    Case(id := env.uuid1, externalRef := req.externalRef, title := req.title, description := req.description,
         operatorName := req.operatorName, operatorContact := req.operatorContact, materials := req.materials,
         category := req.category, keywords := req.keywords, status := Adjudicated,
         lead := x.rules[v].lead, co := x.rules[v].co, ruleVersion := v,
         registeredAt := env.now, registeredBy := req.registeredBy, deadline := env.now + g.deadline, level := 0,
         storeId := req.storeId, completedAt := None, cancelledAt := None, cancelReason := "",
         createdAt := env.now, updatedAt := env.now)
  }

  /** A referral to the department of rule `v`. */
  function ReferralTo(x: Index, id: string, itemId: string, v: int, at: Time): Referral
    requires v in x.rules
  {
    Referral(id := id, itemId := itemId, lead := x.rules[v].lead, co := x.rules[v].co, ruleVersion := v,
             adjudicatedAt := at, adjudicatedBy := "system", isCurrent := true)
  }

  predicate MissesField(req: RegisterRequest) {
    req.externalRef == "" || req.title == "" || req.registeredBy == ""
  }

  /** The tables after a registration under rule `v`. */
  function WithCase(g: Config, x: Index, req: RegisterRequest, env: Env, v: int): Index
    requires v in x.rules
  {
    x.(items := x.items[env.uuid1 := CaseFor(g, x, req, env, v)],
       referrals := x.referrals + [ReferralTo(x, env.uuid2, env.uuid1, v, env.now)],
       audit := x.audit[env.uuid3 := AuditEntry(id := env.uuid3, entityId := env.uuid1, entityType := "item",
                                                action := "register", actor := req.registeredBy,
                                                timestamp := env.now, details := "")])
  }

  predicate IdsUnused(x: Index, env: Env) {
    env.uuid1 !in x.items && env.uuid3 !in x.audit && forall a :: a in x.referrals ==> a.id != env.uuid2
  }

  /** The case under `id` has the reference. */
  predicate HasReference(x: Index, id: string, ref: string) {
    id in x.items && x.items[id].externalRef == ref
  }

  /** A registration that lacks a field, or whose reference is known. */
  lemma RegisterAnswersAtOnce(g: Config, d: Disk, req: RegisterRequest, env: Env)
    requires Constraints(d.index)
    ensures MissesField(req) <==> Step(g, d, Register(req), env).result == Err(Validation)
    ensures MissesField(req) ==> Step(g, d, Register(req), env).disk == d
    ensures forall id :: HasReference(d.index, id, req.externalRef) && !MissesField(req) ==>
      Step(g, d, Register(req), env) == Reply(d, Ok(ACase(d.index.items[id])))
  {
    forall id | HasReference(d.index, id, req.externalRef) && !MissesField(req)
      ensures Step(g, d, Register(req), env) == Reply(d, Ok(ACase(d.index.items[id])))
    {
      ByRefIs(d.index, id);
    }
    if PlanOf(g, d.index, Register(req), env).Commit? {
      CommitAnswers(g, d, Register(req), env);
    }
  }

  /**
    A registration of an unknown reference. It is refused exactly when no rule in force is met by its
    category and keywords. Otherwise it is routed by the rule in force and met that has the highest
    priority, and among those the highest version; and unless the store fails, exactly one case with
    the columns of the request, one referral and one audit entry are stored, and the case is the answer.
   */
  lemma RegisterAnswers(g: Config, d: Disk, req: RegisterRequest, env: Env)
    requires Constraints(d.index) && !MissesField(req) && forall id :: !HasReference(d.index, id, req.externalRef)
    ensures var x, reply := d.index, Step(g, d, Register(req), env);
      && (reply.result == Err(NoMatchingRule) <==> NoRoute(x, env.now, env.now, req.category, req.keywords))
      && (reply.result == Err(NoMatchingRule) ==> reply.disk == d)
      && (reply.result != Err(NoMatchingRule) ==>
            exists v :: Routes(x, v, env.now, env.now, req.category, req.keywords)
              && (reply.result == Ok(ACase(CaseFor(g, x, req, env, v))) || reply.result == Err(StoreFailure))
              && reply.disk.index == (if reply.result.Ok? then WithCase(g, x, req, env, v) else x)
              && (env.fault == NoFault && IdsUnused(x, env) ==> reply.result.Ok?))
  {
    var x, c := d.index, NewCase(g, req, env);
    assert !RefTaken(x, req.externalRef) by {
      if RefTaken(x, req.externalRef) {
        var id :| id in x.items && x.items[id].externalRef == req.externalRef;
        assert HasReference(x, id, req.externalRef);
      }
    }
    ChoiceRoutes(x, env.now, c);
    var o := Choice(ActiveRules(x, env.now), c);
    if o.Some? {
      CommitAnswers(g, d, Register(req), env);
      RegisterStores(g, x, req, env, o.value);
    }
  }

  lemma RegisterStores(g: Config, x: Index, req: RegisterRequest, env: Env, r: Rule)
    requires r.version in x.rules && x.rules[r.version] == r && !RefTaken(x, req.externalRef)
    ensures var c := CaseFor(g, x, req, env, r.version);
      var ws := RegisterWrites(Routed(NewCase(g, req, env), r), r, env);
      && Routed(NewCase(g, req, env), r) == c
      && (ExecAll(x, ws).Some? ==> ExecAll(x, ws).value == WithCase(g, x, req, env, r.version))
      && (IdsUnused(x, env) ==> ExecAll(x, ws).Some?)
  {
    var c, a := CaseFor(g, x, req, env, r.version), ReferralTo(x, env.uuid2, env.uuid1, r.version, env.now);
    var entry := AuditEntry(env.uuid3, env.uuid1, "item", "register", req.registeredBy, env.now, "");
    RegisterEffect(x, c, a, entry);
    if IdsUnused(x, env) {
      RegisterIsTaken(x, c, a, entry);
    }
  }

  lemma NoSuchReferral(s: seq<Referral>, id: string)
    requires forall a :: a in s ==> a.id != id
    ensures FindReferral(s, id) == None
  {
    if s != [] {
      assert s[|s| - 1] in s;
      NoSuchReferral(s[..|s| - 1], id);
    }
  }

  lemma RegisterIsTaken(x: Index, c: Case, a: Referral, entry: AuditEntry)
    requires c.id !in x.items && !RefTaken(x, c.externalRef) && entry.id !in x.audit
    requires forall b :: b in x.referrals ==> b.id != a.id
    ensures ExecAll(x, [Save(ItemRec(c)), Save(AssignmentRec(a)), Save(AuditRec(entry))]).Some?
  {
    var w1, w2, w3 := Save(ItemRec(c)), Save(AssignmentRec(a)), Save(AuditRec(entry));
    NoSuchReferral(x.referrals, a.id);
    assert [w1, w2, w3] == [w1] + ([w2] + ([w3] + []));
    ExecAllSplit(x, w1, [w2] + ([w3] + []));
    var y := Exec(x, w1).value;
    ExecAllSplit(y, w2, [w3] + []);
    ExecAllSplit(Exec(y, w2).value, w3, []);
  }

  // ---------------------------------------------------------------- escalations

  /** Overdue, and of a status and level from which it can be raised. */
  predicate IsListed(g: Config, x: Index, id: string, now: Time) {
    && id in x.items && x.items[id].status !in {Completed, Cancelled}
    && x.items[id].deadline < now && x.items[id].level < g.maxLevel
  }

  /** The case after one more escalation. */
  function RaisedOnce(g: Config, c: Case, env: Env): Case
    requires c.level >= 0
  {
    c.(lead := c.lead + "-supervisor-l" + Decimal(c.level + 1), level := c.level + 1, deadline := env.now + g.extension,
       status := Escalated, updatedAt := env.now)
  }

  function EscalationFor(g: Config, c: Case, env: Env): Escalation
    requires c.level >= 0
  {
    Escalation(id := env.uuid1, itemId := c.id, fromLevel := c.level, toLevel := c.level + 1, oldLead := c.lead,
               newLead := c.lead + "-supervisor-l" + Decimal(c.level + 1), escalatedAt := env.now,
               reason := "deadline_exceeded", newDeadline := env.now + g.extension)
  }

  /** The referrals of the case are no longer current, and one is added. */
  ghost predicate OneMoreReferral(before: seq<Referral>, after: seq<Referral>, id: string, a: Referral) {
    && |after| == |before| + 1 && after[|before|] == a
    && forall i :: 0 <= i < |before| ==>
         after[i] == if before[i].itemId == id then before[i].(isCurrent := false) else before[i]
  }

  /** Apart from the case `id` and its referrals, escalations and audit entries, nothing has changed. */
  predicate SameRest(x: Index, y: Index) {
    y.rules == x.rules && y.failures == x.failures && y.batches == x.batches && y.manifest == x.manifest
  }

  ghost predicate RaisedTo(g: Config, x: Index, y: Index, c: Case, env: Env)
    requires c.level >= 0
  {
    var d := RaisedOnce(g, c, env);
    && SameRest(x, y)
    && y.items == x.items[c.id := d]
    && y.escalations == x.escalations + [EscalationFor(g, c, env)]
    && OneMoreReferral(x.referrals, y.referrals, c.id,
         Referral(id := env.uuid2, itemId := c.id, lead := d.lead, co := c.co, ruleVersion := c.ruleVersion,
                  adjudicatedAt := env.now, adjudicatedBy := "system_escalation", isCurrent := true))
    && y.audit == x.audit[env.uuid3 := AuditEntry(
         id := env.uuid3, entityId := c.id, entityType := "item", action := "escalate", actor := "system",
         timestamp := env.now,
         details := "level " + IntText(c.level) + "->" + IntText(c.level + 1) + " lead " + c.lead + "->" + d.lead)]
  }

  /**
    An escalation. Only overdue cases below the top level are listed; of these, one that was returned
    for correction (or is in Registered) cannot be raised. Any other is, unless the store fails: one
    level up, to the supervisor of its lead, with a new deadline, and in status Escalated.
   */
  lemma EscalateAnswers(g: Config, d: Disk, id: string, env: Env)
    requires Inv(g, d.index)
    ensures var x, reply := d.index, Step(g, d, Escalate(id), env);
      if !IsListed(g, x, id, env.now) then reply == Reply(d, Err(NotFound))
      else if x.items[id].status in {Registered, Returned} then reply == Reply(d, Err(InvalidTransition))
      else
        && x.items[id].level >= 0
        && (reply.result == Ok(AnEscalation(EscalationFor(g, x.items[id], env))) || reply.result == Err(StoreFailure))
        && (reply.result.Ok? ==> RaisedTo(g, x, reply.disk.index, x.items[id], env))
        && (reply.result.Err? ==> reply.disk.index == x)
        && (env.fault == NoFault && EscalateIdsUnused(x, env) ==> reply.result.Ok?)
  {
    var x := d.index;
    ListedIsOverdue(g, x, id, env);
    if IsListed(g, x, id, env.now) && x.items[id].status !in {Registered, Returned} {
      RowFacts(g, x, id);
      CommitAnswers(g, d, Escalate(id), env);
      EscalateStores(g, x, x.items[id], env);
    }
  }

  lemma ListedIsOverdue(g: Config, x: Index, id: string, env: Env)
    ensures EscalatePlan(g, x, id, env) ==
      if !IsListed(g, x, id, env.now) then Reject(NotFound)
      else if x.items[id].status in {Registered, Returned} then Reject(InvalidTransition)
      else Commit(EscalateWrites(g, x.items[id], env), AnEscalation(EscalationOf(g, x.items[id], env)))
  {
  }

  predicate EscalateIdsUnused(x: Index, env: Env) {
    && (forall e :: e in x.escalations ==> e.id != env.uuid1) && (forall a :: a in x.referrals ==> a.id != env.uuid2)
    && env.uuid3 !in x.audit
  }

  predicate RerouteIdsUnused(x: Index, env: Env) {
    (forall a :: a in x.referrals ==> a.id != env.uuid1) && env.uuid2 !in x.audit
  }

  lemma {:induction false} NoSuchEscalation(s: seq<Escalation>, id: string)
    requires forall e :: e in s ==> e.id != id
    ensures FindEscalation(s, id) == None
  {
    if s != [] {
      assert s[|s| - 1] in s;
      NoSuchEscalation(s[..|s| - 1], id);
    }
  }

  lemma RerouteIsTaken(x: Index, a: Referral, c: Case, entry: AuditEntry)
    requires c.id in x.items && MergeItem(x.items[c.id], c) == c && entry.id !in x.audit
    requires forall b :: b in x.referrals ==> b.id != a.id
    ensures ExecAll(x, [MarkAssignmentSuperseded(c.id), Save(AssignmentRec(a)), UpdateItem(c), Save(AuditRec(entry))]).Some?
  {
    var mark, save, update := MarkAssignmentSuperseded(c.id), Save(AssignmentRec(a)), [UpdateItem(c), Save(AuditRec(entry))];
    var y := x.(referrals := MarkSuperseded(x.referrals, c.id));
    assert [mark, save, UpdateItem(c), Save(AuditRec(entry))] == [mark] + ([save] + update);
    NoSuchReferral(x.referrals, a.id);
    MarkedReferral(x.referrals, c.id, a.id);
    ExecAllSplit(x, mark, [save] + update);
    ExecAllSplit(y, save, update);
    UpdateEffect(Exec(y, save).value, c, entry);
  }

  lemma EscalateIsTaken(x: Index, e: Escalation, a: Referral, c: Case, entry: AuditEntry)
    requires c.id in x.items && MergeItem(x.items[c.id], c) == c && entry.id !in x.audit
    requires (forall b :: b in x.referrals ==> b.id != a.id) && (forall f :: f in x.escalations ==> f.id != e.id)
    ensures ExecAll(x, [Save(EscalationRec(e)), MarkAssignmentSuperseded(c.id), Save(AssignmentRec(a)), UpdateItem(c),
                        Save(AuditRec(entry))]).Some?
  {
    var rest := [MarkAssignmentSuperseded(c.id), Save(AssignmentRec(a)), UpdateItem(c), Save(AuditRec(entry))];
    assert [Save(EscalationRec(e)), MarkAssignmentSuperseded(c.id), Save(AssignmentRec(a)), UpdateItem(c), Save(AuditRec(entry))]
        == [Save(EscalationRec(e))] + rest;
    NoSuchEscalation(x.escalations, e.id);
    ExecAllSplit(x, Save(EscalationRec(e)), rest);
    RerouteIsTaken(Exec(x, Save(EscalationRec(e))).value, a, c, entry);
  }

  lemma RowFacts(g: Config, x: Index, id: string)
    requires Inv(g, x) && id in x.items
    ensures x.items[id].id == id && x.items[id].level >= 0 && x.items[id].ruleVersion in x.rules
  {
    assert CaseOk(g, x, x.items[id]);
  }

  lemma EscalateStores(g: Config, x: Index, c: Case, env: Env)
    requires c.id in x.items && x.items[c.id] == c && c.level >= 0
    ensures var o := ExecAll(x, EscalateWrites(g, c, env));
      (o.Some? ==> RaisedTo(g, x, o.value, c, env)) && (EscalateIdsUnused(x, env) ==> o.Some?)
    ensures EscalationOf(g, c, env) == EscalationFor(g, c, env)
  {
    var e, entry := EscalationOf(g, c, env), EscalateWrites(g, c, env)[4].r.entry;
    EscalateEffect(x, e, EscalationReferral(c, e, env), Raised(c, e, env), entry);
    if EscalateIdsUnused(x, env) {
      EscalateIsTaken(x, e, EscalationReferral(c, e, env), Raised(c, e, env), entry);
    }
  }

  // ---------------------------------------------------------------- re-evaluations

  /** The case is waiting for its department, and there is a rule younger than its own. */
  ghost predicate IsOutdated(x: Index, id: string) {
    && id in x.items && x.items[id].status in {Registered, Adjudicated}
    && exists v :: v in x.rules && v > x.items[id].ruleVersion
  }

  function RoutedTo(x: Index, c: Case, v: int, now: Time): Case
    requires v in x.rules
  {
    c.(lead := x.rules[v].lead, co := x.rules[v].co, ruleVersion := v, status := Adjudicated, updatedAt := now)
  }

  ghost predicate ReroutedTo(x: Index, y: Index, c: Case, v: int, env: Env)
    requires v in x.rules
  {
    && SameRest(x, y)
    && y.items == x.items[c.id := RoutedTo(x, c, v, env.now)]
    && y.escalations == x.escalations
    && OneMoreReferral(x.referrals, y.referrals, c.id, ReferralTo(x, env.uuid1, c.id, v, env.now))
    && y.audit == x.audit[env.uuid2 := AuditEntry(
         id := env.uuid2, entityId := c.id, entityType := "item", action := "rule_reevaluated", actor := "system",
         timestamp := env.now,
         details := "rule v" + IntText(c.ruleVersion) + "->v" + IntText(v) + " lead " + x.rules[v].lead)]
  }

  /**
    A re-evaluation. A case that is not outdated is left alone, and so is one that no rule can route;
    any other goes, unless the store fails, to the rule that a registration would have chosen from
    those that are still in force.
   */
  lemma ReevaluateAnswers(g: Config, d: Disk, id: string, at: Time, env: Env)
    requires Inv(g, d.index)
    ensures var x, reply := d.index, Step(g, d, Reevaluate(id, at), env);
      if id !in x.items then reply == Reply(d, Err(NotFound))
      else
        var c := x.items[id];
        if !IsOutdated(x, id) || NoRoute(x, at, c.registeredAt, c.category, c.keywords) then reply == Reply(d, Ok(Nothing))
        else exists v ::
          (&& Routes(x, v, at, c.registeredAt, c.category, c.keywords)
           && (reply.result == Ok(ACase(RoutedTo(x, c, v, env.now))) || reply.result == Err(StoreFailure))
           && (reply.result.Ok? ==> ReroutedTo(x, reply.disk.index, c, v, env))
           && (reply.result.Err? ==> reply.disk.index == x)
           && (env.fault == NoFault && RerouteIdsUnused(x, env) ==> reply.result.Ok?))
  {
    var x := d.index;
    if id in x.items {
      var c := x.items[id];
      RowFacts(g, x, id);
      OutdatedIsStale(x, id);
      ChoiceRoutes(x, at, c);
      var o := Choice(ActiveRules(x, at), c);
      if IsOutdated(x, id) && o.Some? {
        CommitAnswers(g, d, Reevaluate(id, at), env);
        RerouteStores(x, c, o.value, env);
      }
    }
  }

  lemma OutdatedIsStale(x: Index, id: string)
    requires id in x.items && x.items[id].ruleVersion in x.rules
    ensures IsOutdated(x, id) <==> IsStale(x.items[id], CurrentVersion(x))
  {
    assert IsMaxVersion(x, CurrentVersion(x));
  }

  lemma RerouteStores(x: Index, c: Case, r: Rule, env: Env)
    requires c.id in x.items && x.items[c.id] == c && r.version in x.rules && x.rules[r.version] == r
    ensures var o := ExecAll(x, ReevaluateWrites(c, r, env));
      (o.Some? ==> ReroutedTo(x, o.value, c, r.version, env)) && (RerouteIdsUnused(x, env) ==> o.Some?)
    ensures Rerouted(c, r, env.now) == RoutedTo(x, c, r.version, env.now)
  {
    var a, entry := ReferralFor(r, c, env.uuid1, env.now), ReevaluateWrites(c, r, env)[3].r.entry;
    RerouteEffect(x, a, Rerouted(c, r, env.now), entry);
    if RerouteIdsUnused(x, env) {
      RerouteIsTaken(x, a, Rerouted(c, r, env.now), entry);
    }
  }

  // ---------------------------------------------------------------- rules, batches and failures

  /** The rule that a request creates. */
  function RuleFrom(q: RuleRequest, v: int, env: Env): Rule {
    Rule(version := v, name := q.name, description := q.description, matchKeywords := q.matchKeywords,
         matchCategory := q.matchCategory, lead := q.lead, co := q.co, priority := q.priority, isDefault := q.isDefault,
         effectiveFrom := env.now, effectiveTo := None, status := Active, createdAt := env.now, createdBy := q.createdBy)
  }

  /** The next version: one more than the highest, from 1 on. */
  ghost predicate IsNext(x: Index, v: int) {
    (forall w :: w in x.rules ==> w < v) && (if x.rules == map[] then v == 1 else v - 1 in x.rules)
  }

  /** The rules after a request: the new one, the superseded one ended, the others as they were. */
  ghost predicate RulesAfter(x: Index, y: Index, q: RuleRequest, v: int, env: Env) {
    && y.rules.Keys == x.rules.Keys + {v} && y.rules[v] == RuleFrom(q, v, env)
    && forall w :: w in x.rules && w != v ==>
         y.rules[w] == if w == q.supersedeVersion && w > 0 then x.rules[w].(status := Superseded, effectiveTo := Some(env.wall))
                       else x.rules[w]
  }

  /** The audit trail after a request: the creation and, if one is asked for, the supersede. */
  function RuleAudit(x: Index, q: RuleRequest, v: int, env: Env): map<string, AuditEntry> {
    var superseding := if q.supersedeVersion <= 0 then x.audit else
      x.audit[env.uuid1 := AuditEntry(id := env.uuid1, entityId := IntText(q.supersedeVersion), entityType := "rule",
                                      action := "supersede_rule", actor := q.createdBy, timestamp := env.now,
                                      details := "superseded by v" + IntText(v))];
    superseding[env.uuid2 := AuditEntry(id := env.uuid2, entityId := IntText(v), entityType := "rule", action := "rule_create",
                                        actor := q.createdBy, timestamp := env.now, details := q.name)]
  }

  /** A rule request: refused for a missing name, lead or author only; otherwise the next version is exactly what was asked for. */
  lemma CreateRuleAnswers(g: Config, d: Disk, q: RuleRequest, env: Env)
    requires Inv(g, d.index)
    ensures var x, reply := d.index, Step(g, d, CreateRule(q), env);
      if q.name == "" || q.lead == "" || q.createdBy == "" then reply == Reply(d, Err(Validation))
      else exists v ::
        (&& IsNext(x, v)
         && (reply.result == Ok(ARule(RuleFrom(q, v, env))) || reply.result == Err(StoreFailure))
         && (reply.result.Err? ==> reply.disk.index == x)
         && (reply.result.Ok? ==>
               && RulesAfter(x, reply.disk.index, q, v, env)
               && reply.disk.index == x.(rules := reply.disk.index.rules, audit := RuleAudit(x, q, v, env)))
         && (env.fault == NoFault && env.uuid1 !in x.audit && env.uuid2 !in x.audit && env.uuid1 != env.uuid2 ==> reply.result.Ok?))
  {
    var x, v := d.index, CurrentVersion(d.index) + 1;
    assert IsMaxVersion(x, CurrentVersion(x));
    assert IsNext(x, v);
    if q.name != "" && q.lead != "" && q.createdBy != "" {
      CommitAnswers(g, d, CreateRule(q), env);
      RuleStores(x, q, v, env);
    }
  }

  /** The rules after a supersede alone. */
  function Ended(rules: map<int, Rule>, version: int, wall: Time): map<int, Rule> {
    if version in rules then rules[version := rules[version].(status := Superseded, effectiveTo := Some(wall))] else rules
  }

  lemma SupersedeFirst(x: Index, version: int, wall: Time, entry: AuditEntry, tail: seq<Write>)
    requires forall w :: w in [SupersedeRule(version, wall)] + ([Save(AuditRec(entry))] + tail) ==> WellFormed(w)
    requires forall w :: w in tail ==> WellFormed(w)
    ensures ExecAll(x, [SupersedeRule(version, wall)] + ([Save(AuditRec(entry))] + tail))
      == if entry.id in x.audit then None
         else ExecAll(x.(rules := Ended(x.rules, version, wall), audit := x.audit[entry.id := entry]), tail)
  {
    var w, s := SupersedeRule(version, wall), Save(AuditRec(entry));
    ExecAllSplit(x, w, [s] + tail);
    var y := Exec(x, w).value;
    assert y == x.(rules := Ended(x.rules, version, wall));
    ExecAllSplit(y, s, tail);
  }

  lemma RuleStores(x: Index, q: RuleRequest, v: int, env: Env)
    requires IsNext(x, v)
    ensures NewRule(q, v, env) == RuleFrom(q, v, env)
    ensures var o := ExecAll(x, RuleWrites(q, NewRule(q, v, env), env));
      && (o.Some? ==> RulesAfter(x, o.value, q, v, env) && o.value == x.(rules := o.value.rules, audit := RuleAudit(x, q, v, env)))
      && (env.uuid1 !in x.audit && env.uuid2 !in x.audit && env.uuid1 != env.uuid2 ==> o.Some?)
  {
    var r := NewRule(q, v, env);
    var created := AuditEntry(env.uuid2, IntText(v), "rule", "rule_create", q.createdBy, env.now, q.name);
    var tail := [Save(RuleRec(r)), Save(AuditRec(created))];
    if q.supersedeVersion > 0 {
      var s := AuditEntry(env.uuid1, IntText(q.supersedeVersion), "rule", SUPERSEDE_ACTION, q.createdBy, env.now,
                          "superseded by v" + IntText(v));
      assert RuleWrites(q, r, env) == [SupersedeRule(q.supersedeVersion, env.wall)] + ([Save(AuditRec(s))] + tail);
      SupersedeFirst(x, q.supersedeVersion, env.wall, s, tail);
      RuleSaved(x.(rules := Ended(x.rules, q.supersedeVersion, env.wall), audit := x.audit[s.id := s]), r, created);
    } else {
      assert RuleWrites(q, r, env) == tail;
      RuleSaved(x, r, created);
    }
  }

  lemma RuleSaved(x: Index, r: Rule, entry: AuditEntry)
    ensures var o := ExecAll(x, [Save(RuleRec(r)), Save(AuditRec(entry))]);
      && (o.Some? <==> r.version !in x.rules && entry.id !in x.audit)
      && (o.Some? ==> o.value == x.(rules := x.rules[r.version := r], audit := x.audit[entry.id := entry]))
  {
    var w1, w2 := Save(RuleRec(r)), Save(AuditRec(entry));
    assert [w1, w2] == [w1] + ([w2] + []);
    ExecAllSplit(x, w1, [w2] + []);
    if Exec(x, w1).Some? {
      ExecAllSplit(Exec(x, w1).value, w2, []);
    }
  }

  /** A batch record: the store it came from, its date, and the counts as given. */
  lemma RecordBatchAnswers(g: Config, d: Disk, storeId: string, rows: nat, successes: nat, failures: nat, env: Env)
    ensures var x, reply := d.index, Step(g, d, RecordBatch(storeId, rows, successes, failures), env);
      && (reply.result == Ok(Nothing) || reply.result == Err(StoreFailure))
      && (reply.result.Err? ==> reply.disk.index == x)
      && (env.fault == NoFault && env.uuid1 !in x.batches && env.uuid2 !in x.audit ==> reply.result.Ok?)
      && (reply.result.Ok? ==> reply.disk.index == x.(
            batches := x.batches[env.uuid1 := ImportBatch(
              id := env.uuid1, storeId := storeId, batchDate := env.now, totalRows := rows, successCount := successes,
              failureCount := failures, importedAt := env.now)],
            audit := x.audit[env.uuid2 := AuditEntry(
              id := env.uuid2, entityId := env.uuid1, entityType := "batch", action := "batch_import", actor := storeId,
              timestamp := env.now, details := IntText(successes) + " success, " + IntText(failures) + " fail")]))
  {
    var x, p := d.index, BatchPlan(storeId, rows, successes, failures, env);
    var w1, w2 := p.writes[0], p.writes[1];
    CommitAnswers(g, d, RecordBatch(storeId, rows, successes, failures), env);
    assert p.writes == [w1] + ([w2] + []);
    ExecAllSplit(x, w1, [w2] + []);
    if Exec(x, w1).Some? {
      ExecAllSplit(Exec(x, w1).value, w2, []);
    }
  }

  /** Retrying a failure: refused exactly for an unknown one; a known one is marked as retried now. */
  lemma RetryFailureAnswers(g: Config, d: Disk, id: string, actor: string, env: Env)
    requires Constraints(d.index)
    ensures var x, reply := d.index, Step(g, d, RetryFailure(id, actor), env);
      if id !in x.failures then reply == Reply(d, Err(NotFound))
      else
        && (reply.result == Ok(Nothing) || reply.result == Err(StoreFailure))
        && (reply.result.Err? ==> reply.disk.index == x)
        && (env.fault == NoFault && env.uuid1 !in x.audit ==> reply.result.Ok?)
        && (reply.result.Ok? ==> reply.disk.index == x.(
              failures := x.failures[id := x.failures[id].(status := Retried, resolvedAt := Some(env.now))],
              audit := x.audit[env.uuid1 := AuditEntry(
                id := env.uuid1, entityId := id, entityType := "failure", action := "failure_retry", actor := actor,
                timestamp := env.now, details := "")]))
  {
    var x := d.index;
    if id in x.failures {
      var p := RetryPlan(x, id, actor, env);
      var w1, w2 := p.writes[0], p.writes[1];
      CommitAnswers(g, d, RetryFailure(id, actor), env);
      assert p.writes == [w1] + ([w2] + []);
      ExecAllSplit(x, w1, [w2] + []);
      ExecAllSplit(Exec(x, w1).value, w2, []);
    }
  }
}
