/**
  The services as the source runs them, against one store object. Each method is proved to do
  to the store what the corresponding `Step` does to the disk, and to answer what it answers;
  the two background sweeps are proved to be runs of such steps.
 */
module Services {
  import opened Domain
  import opened Dispatch
  import opened Tables
  import opened Repo
  import opened Workflow
  import opened Lifecycle
  import opened CaseTheorems

  // ---------------------------------------------------------------- queries

  method GetItemByExternalRef(x: Index, ref: string) returns (o: Option<Case>)
    requires Constraints(x)
    ensures o == ByRef(x, ref)
  {
    var todo := x.items.Keys;
    while todo != {}
      invariant todo <= x.items.Keys
      invariant forall id :: id in x.items && id !in todo ==> x.items[id].externalRef != ref
      decreases todo
    {
      var id :| id in todo;
      if x.items[id].externalRef == ref {
        ByRefIs(x, id);
        return Some(x.items[id]);
      }
      todo := todo - {id};
    }
    return None;
  }

  /** The active rules, ORDER BY priority DESC, version DESC. */
  method GetActiveRules(x: Index, at: Time) returns (rules: seq<Rule>)
    ensures Elements(rules) == ActiveRules(x, at)
    ensures Ranked(rules)
  {
    rules := [];
    var todo := x.rules.Keys;
    while todo != {}
      invariant todo <= x.rules.Keys && Ranked(rules)
      invariant forall r :: r in rules <==> exists v :: v in x.rules && v !in todo && x.rules[v] == r && IsActiveAt(r, at)
      decreases todo
    {
      var v := AnyVersion(todo);
      if IsActiveAt(x.rules[v], at) {
        InsertKeepsRanked(x.rules[v], rules);
        rules := InsertRanked(x.rules[v], rules);
      }
      todo := todo - {v};
    }
  }

  method AnyVersion(s: set<int>) returns (v: int)
    requires s != {}
    ensures v in s
  {
    ghost var w := Any(s);
    v :| v in s;
  }

  method GetCurrentRuleVersion(x: Index) returns (m: int)
    ensures m == CurrentVersion(x)
  {
    if x.rules == map[] {
      return 0;
    }
    ghost var w := Any(x.rules.Keys);
    m := AnyVersion(x.rules.Keys);
    var todo := x.rules.Keys - {m};
    while todo != {}
      invariant todo <= x.rules.Keys && m in x.rules
      invariant forall v :: v in x.rules && v !in todo ==> v <= m
      decreases todo
    {
      var v := AnyVersion(todo);
      if v > m {
        m := v;
      }
      todo := todo - {v};
    }
  }

  // ---------------------------------------------------------------- cases and rules

  class ItemService {
    const store: Store
    const config: Config

    constructor (store: Store, config: Config)
      ensures this.store == store && this.config == config
    {
      this.store, this.config := store, config;
    }

    /** ItemService.Register: a known reference is answered with its case, and nothing is stored. */
    method Register(req: RegisterRequest, env: Env) returns (r: Result<Value>)
      requires store.Valid()
      modifies store
      ensures store.Valid()
      ensures Reply(store.State(), r) == Step(config, old(store.State()), Call.Register(req), env)
    {
      if req.externalRef == "" {
        return Err(Validation);
      }
      if req.title == "" {
        return Err(Validation);
      }
      if req.registeredBy == "" {
        return Err(Validation);
      }
      var existing := GetItemByExternalRef(store.index, req.externalRef);
      if existing.Some? {
        return Ok(ACase(existing.value));
      }
      var rules := GetActiveRules(store.index, env.now);
      var item := NewCase(config, req, env);
      ActiveRulesDistinct(store.index, env.now);
      var referral := Adjudicate(item, rules, env.uuid2, env.now);
      if referral.None? {
        return Err(NoMatchingRule);
      }
      ghost var chosen := Choice(ActiveRules(store.index, env.now), item).value;
      item := item.(lead := referral.value.lead, co := referral.value.co,
                    ruleVersion := referral.value.ruleVersion, status := Adjudicated);
      var ws := [ Save(ItemRec(item)), Save(AssignmentRec(referral.value)),
                  Entry(env.uuid3, item.id, "item", "register", req.registeredBy, env.now, "") ];
      assert ws == RegisterWrites(Routed(NewCase(config, req, env), chosen), chosen, env);
      var ok := store.WithTx(ws, env.late, env.fault);
      return if ok then Ok(ACase(item)) else Err(StoreFailure);
    }

    /** updateItemWithAudit. */
    method UpdateItemWithAudit(item: Case, action: string, actor: string, details: string, env: Env)
      returns (r: Result<Value>)
      requires store.Valid()
      modifies store
      ensures store.Valid()
      ensures Reply(store.State(), r) == Execute(old(store.State()), UpdatePlan(item, action, actor, details, env), env)
    {
      var ok := store.WithTx([ UpdateItem(item), Entry(env.uuid1, item.id, "item", action, actor, env.late, details) ],
                             env.late, env.fault);
      return if ok then Ok(ACase(item)) else Err(StoreFailure);
    }

    method StartProcessing(id: string, actor: string, env: Env) returns (r: Result<Value>)
      requires store.Valid()
      modifies store
      ensures store.Valid()
      ensures Reply(store.State(), r) == Step(config, old(store.State()), Call.StartProcessing(id, actor), env)
    {
      if id !in store.index.items {
        return Err(NotFound);
      }
      var moved := TransitionTo(store.index.items[id], InProgress);
      if moved.None? {
        return Err(InvalidTransition);
      }
      r := UpdateItemWithAudit(moved.value.(updatedAt := env.now), "start_processing", actor, "", env);
    }

    method Modify(id: string, change: ModifyRequest, env: Env) returns (r: Result<Value>)
      requires store.Valid()
      modifies store
      ensures store.Valid()
      ensures Reply(store.State(), r) == Step(config, old(store.State()), Call.Modify(id, change), env)
    {
      if id !in store.index.items {
        return Err(NotFound);
      }
      var item := store.index.items[id];
      if IsTerminal(item.status) {
        return Err(AlreadyCompleted);
      }
      if change.title != "" { item := item.(title := change.title); }
      if change.description != "" { item := item.(description := change.description); }
      if change.operatorName != "" { item := item.(operatorName := change.operatorName); }
      if change.operatorContact != "" { item := item.(operatorContact := change.operatorContact); }
      if change.materials.Some? { item := item.(materials := change.materials.value); }
      if change.category != "" { item := item.(category := change.category); }
      if change.keywords.Some? { item := item.(keywords := change.keywords.value); }
      item := item.(updatedAt := env.now);
      assert item == Edited(store.index.items[id], change, env.now);
      r := UpdateItemWithAudit(item, "modify", change.actor, "", env);
    }

    method ReturnForCorrection(id: string, reason: string, actor: string, env: Env) returns (r: Result<Value>)
      requires store.Valid()
      modifies store
      ensures store.Valid()
      ensures Reply(store.State(), r) == Step(config, old(store.State()), Call.ReturnForCorrection(id, reason, actor), env)
    {
      if id !in store.index.items {
        return Err(NotFound);
      }
      var moved := TransitionTo(store.index.items[id], Returned);
      if moved.None? {
        return Err(InvalidTransition);
      }
      r := UpdateItemWithAudit(moved.value.(updatedAt := env.now), "return_for_correction", actor, reason, env);
    }

    method Resubmit(id: string, actor: string, env: Env) returns (r: Result<Value>)
      requires store.Valid()
      modifies store
      ensures store.Valid()
      ensures Reply(store.State(), r) == Step(config, old(store.State()), Call.Resubmit(id, actor), env)
    {
      if id !in store.index.items {
        return Err(NotFound);
      }
      var moved := TransitionTo(store.index.items[id], Registered);
      if moved.None? {
        return Err(InvalidTransition);
      }
      moved := TransitionTo(moved.value, Adjudicated);
      if moved.None? {
        return Err(InvalidTransition);
      }
      r := UpdateItemWithAudit(moved.value.(updatedAt := env.now), "resubmit", actor, "", env);
    }

    method Cancel(id: string, reason: string, actor: string, env: Env) returns (r: Result<Value>)
      requires store.Valid()
      modifies store
      ensures store.Valid()
      ensures Reply(store.State(), r) == Step(config, old(store.State()), Call.Cancel(id, reason, actor), env)
    {
      if id !in store.index.items {
        return Err(NotFound);
      }
      var moved := TransitionTo(store.index.items[id], Cancelled);
      if moved.None? {
        return Err(InvalidTransition);
      }
      var item := moved.value.(cancelledAt := Some(env.now), cancelReason := reason, updatedAt := env.now);
      r := UpdateItemWithAudit(item, "cancel", actor, reason, env);
    }

    method Complete(id: string, actor: string, env: Env) returns (r: Result<Value>)
      requires store.Valid()
      modifies store
      ensures store.Valid()
      ensures Reply(store.State(), r) == Step(config, old(store.State()), Call.Complete(id, actor), env)
    {
      if id !in store.index.items {
        return Err(NotFound);
      }
      var moved := TransitionTo(store.index.items[id], Completed);
      if moved.None? {
        return Err(InvalidTransition);
      }
      var item := moved.value.(completedAt := Some(env.now), updatedAt := env.now);
      r := UpdateItemWithAudit(item, "complete", actor, "", env);
    }
  }

  class RuleService {
    const store: Store

    constructor (store: Store)
      ensures this.store == store
    {
      this.store := store;
    }

    method CreateRule(q: RuleRequest, env: Env, ghost config: Config) returns (r: Result<Value>)
      requires store.Valid()
      modifies store
      ensures store.Valid()
      ensures Reply(store.State(), r) == Step(config, old(store.State()), Call.CreateRule(q), env)
    {
      if q.name == "" || q.lead == "" || q.createdBy == "" {
        return Err(Validation);
      }
      var current := GetCurrentRuleVersion(store.index);
      var rule := NewRule(q, current + 1, env);
      var ws := [];
      if q.supersedeVersion > 0 {
        ws := [ SupersedeRule(q.supersedeVersion, env.wall),
                Entry(env.uuid1, IntText(q.supersedeVersion), "rule", SUPERSEDE_ACTION, q.createdBy, env.now,
                      "superseded by v" + IntText(rule.version)) ];
      }
      ws := ws + [ Save(RuleRec(rule)),
                   Entry(env.uuid2, IntText(rule.version), "rule", "rule_create", q.createdBy, env.now, rule.name) ];
      assert ws == RuleWrites(q, rule, env);
      var ok := store.WithTx(ws, env.late, env.fault);
      return if ok then Ok(ARule(rule)) else Err(StoreFailure);
    }
  }

  class QueryService {
    const store: Store

    constructor (store: Store)
      ensures this.store == store
    {
      this.store := store;
    }

    method RetryFailure(id: string, actor: string, env: Env, ghost config: Config) returns (r: Result<Value>)
      requires store.Valid()
      modifies store
      ensures store.Valid()
      ensures Reply(store.State(), r) == Step(config, old(store.State()), Call.RetryFailure(id, actor), env)
    {
      if id !in store.index.failures {
        return Err(NotFound);
      }
      var failure := store.index.failures[id];
      failure := failure.(status := Retried);
      failure := failure.(resolvedAt := Some(env.now));
      var ok := store.WithTx(
        [UpdateFailure(failure), Entry(env.uuid1, id, "failure", "failure_retry", actor, env.now, "")], env.late, env.fault);
      return if ok then Ok(Nothing) else Err(StoreFailure);
    }
  }

  // ---------------------------------------------------------------- escalation sweep

  /** FindOverdueItems: the overdue rows below the top level, by deadline; ties in any order. */
  ghost predicate IsOverdueListing(x: Index, now: Time, maxLevel: int, rows: seq<Case>) {
    && (forall c :: c in rows <==> c.id in x.items && x.items[c.id] == c && IsOverdue(c, now, maxLevel))
    && (forall i, j :: 0 <= i < j < |rows| ==> rows[i].id != rows[j].id && rows[i].deadline <= rows[j].deadline)
  }

  function InsertByDeadline(c: Case, rows: seq<Case>): seq<Case> {
    if |rows| == 0 || c.deadline <= rows[0].deadline then [c] + rows
    else [rows[0]] + InsertByDeadline(c, rows[1..])
  }

  /** `a` may be listed before `b`. */
  predicate Precedes(a: Case, b: Case) {
    a.id != b.id && a.deadline <= b.deadline
  }

  predicate ByDeadline(rows: seq<Case>) {
    forall i, j :: 0 <= i < j < |rows| ==> Precedes(rows[i], rows[j])
  }

  lemma ConsByDeadline(c: Case, rows: seq<Case>)
    requires ByDeadline(rows) && forall r :: r in rows ==> Precedes(c, r)
    ensures ByDeadline([c] + rows)
  {
    var t := [c] + rows;
    forall i, j | 0 <= i < j < |t| ensures Precedes(t[i], t[j]) {
      assert t[j] == rows[j - 1] && rows[j - 1] in rows;
      if i > 0 {
        assert t[i] == rows[i - 1];
      }
    }
  }

  lemma TailByDeadline(rows: seq<Case>)
    requires ByDeadline(rows) && |rows| > 0
    ensures ByDeadline(rows[1..])
    ensures forall r :: r in rows[1..] ==> Precedes(rows[0], r)
  {
    forall r | r in rows[1..] ensures Precedes(rows[0], r) {
      var j :| 0 <= j < |rows[1..]| && rows[1..][j] == r;
      assert rows[j + 1] == r;
    }
  }

  lemma {:induction false} InsertByDeadlineSorts(c: Case, rows: seq<Case>)
    requires ByDeadline(rows) && forall r :: r in rows ==> r.id != c.id
    ensures ByDeadline(InsertByDeadline(c, rows))
    ensures forall x :: x in InsertByDeadline(c, rows) <==> x == c || x in rows
  {
    if |rows| == 0 {
      ConsByDeadline(c, rows);
    } else {
      var first, others := rows[0], rows[1..];
      assert rows == [first] + others && first in rows;
      TailByDeadline(rows);
      if c.deadline <= first.deadline {
        ConsByDeadline(c, rows);
      } else {
        InsertByDeadlineSorts(c, others);
        ConsByDeadline(first, InsertByDeadline(c, others));
      }
    }
  }

  method FindOverdueItems(x: Index, now: Time, maxLevel: int) returns (rows: seq<Case>)
    requires Constraints(x)
    ensures IsOverdueListing(x, now, maxLevel, rows)
    ensures forall c :: c in rows <==>
      && c.id in x.items && x.items[c.id] == c && c.status !in {Completed, Cancelled}
      && c.deadline < now && c.level < maxLevel
    ensures forall i, j :: 0 <= i < j < |rows| ==> rows[i].id != rows[j].id && rows[i].deadline <= rows[j].deadline
  {
    rows := [];
    var todo := x.items.Keys;
    while todo != {}
      invariant todo <= x.items.Keys
      invariant forall c :: c in rows <==> c.id in x.items && c.id !in todo && x.items[c.id] == c && IsOverdue(c, now, maxLevel)
      invariant ByDeadline(rows)
      decreases todo
    {
      var id :| id in todo;
      var c := x.items[id];
      if IsOverdue(c, now, maxLevel) {
        InsertByDeadlineSorts(c, rows);
        rows := InsertByDeadline(c, rows);
      }
      todo := todo - {id};
    }
  }

  /** The events of a sweep that escalates `rows` one by one. */
  ghost function EscalationEvents(rows: seq<Case>, envs: nat -> Env): (es: seq<Event>)
    ensures |es| == |rows|
    ensures forall i :: 0 <= i < |rows| ==> es[i] == Event(Escalate(rows[i].id), envs(i))
  {
    seq(|rows|, i requires 0 <= i < |rows| => Event(Escalate(rows[i].id), envs(i)))
  }

  lemma RunAppend(g: Config, d: Disk, events: seq<Event>, i: nat)
    requires i < |events|
    ensures Run(g, d, events[..i + 1]) == Step(g, Run(g, d, events[..i]), events[i].call, events[i].env).disk
  {
    assert events[..i + 1][..i] == events[..i];
  }

  lemma StepKeepsConstraints(g: Config, d: Disk, call: Call, env: Env)
    requires Constraints(d.index)
    ensures Constraints(Step(g, d, call, env).disk.index)
  {
    StepOutcome(g, d, call, env);
    var p := PlanOf(g, d.index, call, env);
    if p.Commit? && ExecAll(d.index, p.writes).Some? {
      ExecAllKeepsConstraints(d.index, p.writes);
    }
  }

  lemma {:induction false} ExecAllKeepsConstraints(x: Index, ws: seq<Write>)
    requires Constraints(x) && forall w :: w in ws ==> WellFormed(w)
    requires ExecAll(x, ws).Some?
    ensures Constraints(ExecAll(x, ws).value)
    decreases |ws|
  {
    if |ws| > 0 {
      assert WellFormed(ws[0]);
      ExecKeepsConstraints(x, ws[0]);
      ExecAllKeepsConstraints(Exec(x, ws[0]).value, ws[1..]);
    }
  }

  lemma {:induction false} RunKeepsConstraints(g: Config, d: Disk, events: seq<Event>)
    requires Constraints(d.index)
    ensures Constraints(Run(g, d, events).index)
  {
    if |events| > 0 {
      var before, last := events[..|events| - 1], events[|events| - 1];
      RunKeepsConstraints(g, d, before);
      StepKeepsConstraints(g, Run(g, d, before), last.call, last.env);
    }
  }

  /** An escalation changes no other case's row. */
  lemma EscalationSparesOthers(g: Config, d: Disk, id: string, env: Env)
    requires Constraints(d.index)
    ensures var y := Step(g, d, Escalate(id), env).disk.index;
      && y.items.Keys == d.index.items.Keys
      && forall j :: j in y.items && j != id ==> y.items[j] == d.index.items[j]
  {
    StepOutcome(g, d, Escalate(id), env);
    EscalateRow(g, d.index, id, env);
  }

  /** The reply to escalation number i of a sweep from `d0`. */
  ghost function EscalationReply(g: Config, d0: Disk, rows: seq<Case>, envs: nat -> Env, i: nat): Result<Value>
    requires i < |rows|
  {
    Step(g, Run(g, d0, EscalationEvents(rows, envs)[..i]), Escalate(rows[i].id), envs(i)).result
  }

  /** What the sweep has done after `i` escalations. */
  ghost predicate SweptTo(g: Config, d0: Disk, rows: seq<Case>, envs: nat -> Env, i: nat, done: seq<Escalation>, d: Disk)
  {
    && i <= |rows| && |done| == i
    && d == Run(g, d0, EscalationEvents(rows, envs)[..i])
    && Constraints(d.index)
    && (forall j :: i <= j < |rows| ==> rows[j].id in d.index.items && d.index.items[rows[j].id] == rows[j])
    && (forall j :: 0 <= j < i ==> EscalationReply(g, d0, rows, envs, j) == Ok(AnEscalation(done[j])))
  }

  /** A listed row that is still there is escalated as the step on its id. */
  lemma EscalationIsStep(g: Config, d: Disk, c: Case, env: Env)
    requires c.id in d.index.items && d.index.items[c.id] == c && IsOverdue(c, env.now, g.maxLevel)
    ensures Step(g, d, Escalate(c.id), env) == Execute(d, EscalateItemPlan(g, c, env), env)
    ensures Step(g, d, Escalate(c.id), env).result != Err(MaxEscalationReached)
  {
  }

  lemma SweepStep(g: Config, d0: Disk, rows: seq<Case>, envs: nat -> Env, i: nat, done: seq<Escalation>, d: Disk, e: Escalation, after: Disk)
    requires SweptTo(g, d0, rows, envs, i, done, d) && i < |rows|
    requires forall j, k :: 0 <= j < k < |rows| ==> rows[j].id != rows[k].id
    requires Reply(after, Ok(AnEscalation(e))) == Step(g, d, Escalate(rows[i].id), envs(i))
    ensures SweptTo(g, d0, rows, envs, i + 1, done + [e], after)
  {
    assert after == Run(g, d0, EscalationEvents(rows, envs)[..i + 1]) by {
      RunAppend(g, d0, EscalationEvents(rows, envs), i);
    }
    StepKeepsConstraints(g, d, Escalate(rows[i].id), envs(i));
    EscalationSparesOthers(g, d, rows[i].id, envs(i));
    assert EscalationReply(g, d0, rows, envs, i) == Ok(AnEscalation(e));
  }

  class EscalationService {
    const store: Store
    const config: Config

    constructor (store: Store, config: Config)
      ensures this.store == store && this.config == config
    {
      this.store, this.config := store, config;
    }

    /** escalateItem on a row the sweep has read. */
    method EscalateItem(item: Case, env: Env) returns (r: Result<Escalation>)
      requires store.Valid()
      modifies store
      ensures store.Valid()
      ensures var reply := Execute(old(store.State()), EscalateItemPlan(config, item, env), env);
        && store.State() == reply.disk
        && (r.Ok? ==> reply.result == Ok(AnEscalation(r.value)))
        && (r.Err? ==> reply.result == Err(r.error))
    {
      var newLevel := item.level + 1;
      if newLevel > config.maxLevel {
        return Err(MaxEscalationReached);
      }
      var newLead := EscalationDepartmentName(item.lead, newLevel);
      var newDeadline := env.now + config.extension;
      var esc := Escalation(env.uuid1, item.id, item.level, newLevel, item.lead, newLead, env.now, "deadline_exceeded", newDeadline);
      var referral := Referral(env.uuid2, item.id, newLead, item.co, item.ruleVersion, env.now, "system_escalation", true);
      var raised := TransitionTo(item.(lead := newLead, level := newLevel, deadline := newDeadline), Escalated);
      if raised.None? {
        return Err(InvalidTransition);
      }
      var ws := [ Save(EscalationRec(esc)), MarkAssignmentSuperseded(item.id), Save(AssignmentRec(referral)),
                  UpdateItem(raised.value.(updatedAt := env.now)),
                  Entry(env.uuid3, item.id, "item", "escalate", "system", env.now,
                        "level " + IntText(esc.fromLevel) + "->" + IntText(esc.toLevel) + " lead " + esc.oldLead + "->" + esc.newLead) ];
      assert ws == EscalateWrites(config, item, env);
      var ok := store.WithTx(ws, env.late, env.fault);
      return if ok then Ok(esc) else Err(StoreFailure);
    }

    /**
      CheckAndEscalate. Up to the case it stops at, the sweep is the run that escalates the listed
      rows in order. The branch that records a permanent failure for a case at the top level is
      never taken: the query has left such cases out.
     */
    method CheckAndEscalate(now: Time, envs: nat -> Env)
      returns (escalations: seq<Escalation>, error: Option<Error>, ghost rows: seq<Case>)
      requires store.Valid() && forall i: nat :: envs(i).now == now
      modifies store
      ensures store.Valid() && IsOverdueListing(old(store.index), now, config.maxLevel, rows)
      ensures var events, n := EscalationEvents(rows, envs), |escalations|;
        && n <= |rows|
        && (error.None? <==> n == |rows|)
        && store.State() == Run(config, old(store.State()), events[..if n < |rows| then n + 1 else n])
        && (forall i :: 0 <= i < n ==> EscalationReply(config, old(store.State()), rows, envs, i) == Ok(AnEscalation(escalations[i])))
        && (n < |rows| ==> EscalationReply(config, old(store.State()), rows, envs, n) == Err(error.value))
    {
      var overdue := FindOverdueItems(store.index, now, config.maxLevel);
      rows := overdue;
      ghost var d0 := store.State();
      assert EscalationEvents(overdue, envs)[..0] == [];
      forall j | 0 <= j < |overdue| ensures IsOverdue(overdue[j], now, config.maxLevel)
          && overdue[j].id in d0.index.items && d0.index.items[overdue[j].id] == overdue[j]
      {
        assert overdue[j] in overdue;
      }
      escalations := [];
      for i := 0 to |overdue|
        invariant store.Valid() && SweptTo(config, d0, overdue, envs, i, escalations, store.State())
      {
        ghost var d := store.State();
        assert IsOverdue(overdue[i], envs(i).now, config.maxLevel);
        EscalationIsStep(config, d, overdue[i], envs(i));
        var esc := EscalateItem(overdue[i], envs(i));
        if esc.Err? {
          RunAppend(config, d0, EscalationEvents(overdue, envs), i);
          assert esc.error != MaxEscalationReached;
          return escalations, Some(esc.error), rows;
        }
        SweepStep(config, d0, overdue, envs, i, escalations, d, esc.value, store.State());
        escalations := escalations + [esc.value];
      }
      return escalations, None, rows;
    }
  }
}
