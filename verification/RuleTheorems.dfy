/**
  Which rules re-evaluation can reach: a case stays with the rule it was registered under for as long
  as that rule is active, whatever rules are created later.
 */
module RuleTheorems {
  import opened Domain
  import opened Dispatch
  import opened Tables
  import opened Repo
  import opened Workflow
  import opened Lifecycle
  import opened CaseTheorems
  import opened LogTheorems
  import opened SweepTheorems

  /** Since `x0` rules have only been superseded, or created with an effective date after `t`. */
  ghost predicate RulesAged(x0: Index, x: Index, t: Time) {
    && (forall v :: v in x0.rules ==> v in x.rules && (x.rules[v].status == Active ==> x.rules[v] == x0.rules[v]))
    && (forall v :: v in x.rules && v !in x0.rules ==> x.rules[v].effectiveFrom > t)
  }

  predicate CreatedAfter(events: seq<Event>, t: Time) {
    forall e :: e in events && e.call.CreateRule? ==> e.env.now > t
  }

  lemma CreateAges(x0: Index, x: Index, t: Time, q: RuleRequest, r: Rule, env: Env, y: Index)
    requires RulesAged(x0, x, t) && r.version !in x.rules && r.effectiveFrom > t
    requires y.rules == AfterSupersede(x, q, env)[r.version := r]
    ensures RulesAged(x0, y, t)
  {
  }

  lemma StepAges(g: Config, d: Disk, e: Event, x0: Index, t: Time)
    requires RulesAged(x0, d.index, t) && (e.call.CreateRule? ==> e.env.now > t)
    ensures RulesAged(x0, Step(g, d, e.call, e.env).disk.index, t)
  {
    var p := PlanOf(g, d.index, e.call, e.env);
    StepOutcome(g, d, e.call, e.env);
    if p.Commit? && ExecAll(d.index, p.writes).Some? {
      if e.call.CreateRule? {
        CreateRuleEffect(d.index, e.call.rule, p.value.rule, e.env);
        CreateAges(x0, d.index, t, e.call.rule, p.value.rule, e.env, ExecAll(d.index, p.writes).value);
      } else {
        OtherPlansLeaveRules(g, d.index, e.call, e.env);
        OtherWritesLeaveRules(d.index, p.writes);
      }
    }
  }

  lemma {:induction false} RunAges(g: Config, d: Disk, events: seq<Event>, x0: Index, t: Time)
    requires RulesAged(x0, d.index, t) && CreatedAfter(events, t)
    ensures RulesAged(x0, Run(g, d, events).index, t)
  {
    if |events| > 0 {
      var before, last := events[..|events| - 1], events[|events| - 1];
      assert last in events;
      RunAges(g, d, before, x0, t);
      StepAges(g, Run(g, d, before), last, x0, t);
    }
  }

  /** Rules that took effect after a case was registered do not change its choice. */
  lemma ChoiceStays(x0: Index, x: Index, c0: Case, c: Case, r: Rule, at: Time)
    requires Constraints(x0) && Constraints(x) && RulesAged(x0, x, c0.registeredAt)
    requires c.registeredAt == c0.registeredAt && c.category == c0.category && c.keywords == c0.keywords
    requires Choice(ActiveRules(x0, c0.registeredAt), c0) == Some(r)
    requires r.version in x.rules && IsActiveAt(x.rules[r.version], at)
    ensures Choice(ActiveRules(x, at), c) == Some(r)
  {
    var was, now := ActiveRules(x0, c0.registeredAt), ActiveRules(x, at);
    ActiveRulesDistinct(x0, c0.registeredAt);
    ActiveRulesDistinct(x, at);
    assert x.rules[r.version] == r && r in now;
    forall q | q in now && Eligible(q, c0) && q != r ensures Beats(r, q) {
      assert x.rules[q.version] == q && q == x0.rules[q.version] && q in was;
    }
    assert IsChoice(now, c0, r);
    ChoiceIs(now, c0, r);
    SameFactsSameChoice(now, c0, c);
  }

  lemma RegistrationChooses(g: Config, d: Disk, req: RegisterRequest, env: Env)
    requires RegisterPlan(g, d.index, req, env).Commit? && Step(g, d, Register(req), env).result.Ok?
    ensures var c, y := RegisterPlan(g, d.index, req, env).value.item, Step(g, d, Register(req), env).disk.index;
      && c.id == env.uuid1 && c.registeredAt == env.now && env.uuid1 in y.items && y.items[env.uuid1] == c
      && y.rules == d.index.rules
      && exists r :: Choice(ActiveRules(d.index, env.now), c) == Some(r) && r.version == c.ruleVersion && r.lead == c.lead && r.co == c.co
  {
    var p := RegisterPlan(g, d.index, req, env);
    var c := NewCase(g, req, env);
    var r := Choice(ActiveRules(d.index, env.now), c).value;
    SameFactsSameChoice(ActiveRules(d.index, env.now), c, Routed(c, r));
    TransactIndex(d, p.writes, env.late, env.fault);
    RegisterEffect(d.index, p.value.item, p.writes[1].r.referral, p.writes[2].r.entry);
  }

  /** The case of a registration after later events: still itself, and its rule still active. */
  ghost predicate StillUnderItsRule(c: Case, x: Index, at: Time) {
    && c.id in x.items && x.items[c.id].category == c.category && x.items[c.id].keywords == c.keywords
    && c.ruleVersion in x.rules && IsActiveAt(x.rules[c.ruleVersion], at)
  }

  lemma ChoiceIsTheOldOne(g: Config, d: Disk, req: RegisterRequest, env: Env, later: seq<Event>, at: Time)
    requires ConfigOk(g) && Inv(g, d.index) && CreatedAfter(later, env.now)
    requires RegisterPlan(g, d.index, req, env).Commit? && Step(g, d, Register(req), env).result.Ok?
    requires StillUnderItsRule(RegisterPlan(g, d.index, req, env).value.item, Run(g, Step(g, d, Register(req), env).disk, later).index, at)
    ensures var c, x := RegisterPlan(g, d.index, req, env).value.item, Run(g, Step(g, d, Register(req), env).disk, later).index;
      && Inv(g, x)
      && exists r :: Choice(ActiveRules(x, at), x.items[c.id]) == Some(r) && r.version == c.ruleVersion && r.lead == c.lead && r.co == c.co
  {
    var c, first := RegisterPlan(g, d.index, req, env).value.item, Step(g, d, Register(req), env).disk;
    RegistrationChooses(g, d, req, env);
    StepKeepsInv(g, d, Register(req), env);
    RunKeepsInv(g, first, later);
    RunKeepsIdentity(g, first, later, c.id);
    RunAges(g, first, later, d.index, env.now);
    var r :| Choice(ActiveRules(d.index, env.now), c) == Some(r) && r.version == c.ruleVersion && r.lead == c.lead && r.co == c.co;
    var x := Run(g, first, later).index;
    ChoiceStays(d.index, x, c, x.items[c.id], r, at);
  }

  /**
    A case registered under a rule is never moved away from it by re-evaluation while the rule is
    active and the case's category and keywords are those it was registered with, whatever happened
    in between, if every rule created since has a later effective date. So the sweep, which new rules
    set off, then finds for such a case the rule it has.
   */
  lemma ReevaluationKeepsTheRule(g: Config, d: Disk, req: RegisterRequest, env: Env, later: seq<Event>, at: Time, again: Env)
    requires ConfigOk(g) && Inv(g, d.index) && CreatedAfter(later, env.now)
    requires RegisterPlan(g, d.index, req, env).Commit? && Step(g, d, Register(req), env).result.Ok?
    requires StillUnderItsRule(RegisterPlan(g, d.index, req, env).value.item, Run(g, Step(g, d, Register(req), env).disk, later).index, at)
    ensures var c, e := RegisterPlan(g, d.index, req, env).value.item, Run(g, Step(g, d, Register(req), env).disk, later);
      var y := Step(g, e, Reevaluate(c.id, at), again).disk.index;
      && c.id in y.items
      && (y.items[c.id] == e.index.items[c.id]
          || (y.items[c.id].ruleVersion == c.ruleVersion && y.items[c.id].lead == c.lead && y.items[c.id].co == c.co))
  {
    var c, e := RegisterPlan(g, d.index, req, env).value.item, Run(g, Step(g, d, Register(req), env).disk, later);
    ChoiceIsTheOldOne(g, d, req, env, later, at);
    var r :| Choice(ActiveRules(e.index, at), e.index.items[c.id]) == Some(r) && r.version == c.ruleVersion && r.lead == c.lead && r.co == c.co;
    RoutedAgain(g, e, c.id, at, again, r);
  }

  /**
    Nor does the case stop being stale, once there is any younger rule: every sweep re-routes it to
    the rule it has, filing one more referral and superseding the last.
   */
  lemma StaleCaseStaysStale(g: Config, d: Disk, req: RegisterRequest, env: Env, later: seq<Event>, at: Time, again: Env)
    requires ConfigOk(g) && Inv(g, d.index) && CreatedAfter(later, env.now)
    requires RegisterPlan(g, d.index, req, env).Commit? && Step(g, d, Register(req), env).result.Ok?
    requires StillUnderItsRule(RegisterPlan(g, d.index, req, env).value.item, Run(g, Step(g, d, Register(req), env).disk, later).index, at)
    requires var c, x := RegisterPlan(g, d.index, req, env).value.item, Run(g, Step(g, d, Register(req), env).disk, later).index;
      IsStale(x.items[c.id], CurrentVersion(x)) && c.ruleVersion < CurrentVersion(x)
    ensures var c, e := RegisterPlan(g, d.index, req, env).value.item, Run(g, Step(g, d, Register(req), env).disk, later);
      var y := Step(g, e, Reevaluate(c.id, at), again).disk.index;
      && PlanOf(g, e.index, Reevaluate(c.id, at), again).Commit?
      && c.id in y.items && IsStale(y.items[c.id], CurrentVersion(y))
  {
    var c, e := RegisterPlan(g, d.index, req, env).value.item, Run(g, Step(g, d, Register(req), env).disk, later);
    ChoiceIsTheOldOne(g, d, req, env, later, at);
    var r :| Choice(ActiveRules(e.index, at), e.index.items[c.id]) == Some(r) && r.version == c.ruleVersion && r.lead == c.lead && r.co == c.co;
    RoutedAgain(g, e, c.id, at, again, r);
    ReevaluationKeeps(g, e, c.id, at, again);
  }

  lemma RoutedAgain(g: Config, e: Disk, id: string, at: Time, env: Env, r: Rule)
    requires Constraints(e.index) && id in e.index.items && Choice(ActiveRules(e.index, at), e.index.items[id]) == Some(r)
    ensures var reply := Step(g, e, Reevaluate(id, at), env);
      && id in reply.disk.index.items
      && (reply.disk.index.items[id] == e.index.items[id]
          || (reply.disk.index.items[id] == Rerouted(e.index.items[id], r, env.now)))
    ensures IsStale(e.index.items[id], CurrentVersion(e.index)) ==> PlanOf(g, e.index, Reevaluate(id, at), env).Commit?
  {
    var reply := Step(g, e, Reevaluate(id, at), env);
    ReevaluationHasEffect(g, e, id, at, env);
    RoutedAsChosen(e.index, reply.disk.index, id, ActiveRules(e.index, at), CurrentVersion(e.index), env.now, reply.result, r);
  }

  lemma RoutedAsChosen(x: Index, y: Index, id: string, rules: set<Rule>, current: int, now: Time, result: Result<Value>, r: Rule)
    requires ReevaluationEffect(x, y, id, rules, current, now, result) && id in x.items && Choice(rules, x.items[id]) == Some(r)
    ensures id in y.items
    ensures y.items[id] == x.items[id] || y.items[id] == Rerouted(x.items[id], r, now)
  {
  }
}
