/**
  What the two background sweeps achieve: when an escalation sweep clears the backlog and where
  else it can stop, and that repeating a re-evaluation sweep changes no routing.
 */
module SweepTheorems {
  import opened Domain
  import opened Dispatch
  import opened Tables
  import opened Repo
  import opened Workflow
  import opened Lifecycle
  import opened CaseTheorems
  import opened Services
  import opened Worker

  // ---------------------------------------------------------------- escalation

  /** An escalation that is answered Ok has raised its row; any other has changed no table. */
  lemma EscalationOnRow(g: Config, d: Disk, c: Case, env: Env)
    requires Constraints(d.index) && c.id in d.index.items && d.index.items[c.id] == c
    requires IsOverdue(c, env.now, g.maxLevel)
    ensures var reply := Step(g, d, Escalate(c.id), env);
      && (reply.result.Ok? ==> reply.disk.index.items == d.index.items[c.id := Raised(c, EscalationOf(g, c, env), env)])
      && (reply.result.Err? ==> reply.disk.index == d.index)
      && (reply.result != Err(StoreFailure) ==>
            (reply.result.Ok? <==> c.status != Returned && c.status != Registered))
  {
    var p := EscalatePlan(g, d.index, c.id, env);
    EscalateRow(g, d.index, c.id, env);
    if p.Commit? {
      TransactIndex(d, p.writes, env.late, env.fault);
    }
  }

  /** The items table after the first `i` escalations of a sweep. */
  ghost predicate RaisedUpTo(g: Config, x: Index, y: Index, rows: seq<Case>, envs: nat -> Env, i: nat)
    requires i <= |rows|
  {
    && y.items.Keys == x.items.Keys
    && (forall j :: 0 <= j < i ==>
          rows[j].id in y.items && y.items[rows[j].id] == Raised(rows[j], EscalationOf(g, rows[j], envs(j)), envs(j)))
    && (forall id :: id in x.items && (forall j :: 0 <= j < i ==> rows[j].id != id) ==> y.items[id] == x.items[id])
  }

  lemma RaisedNext(g: Config, x: Index, y: Index, z: Index, rows: seq<Case>, envs: nat -> Env, i: nat)
    requires i < |rows| && RaisedUpTo(g, x, y, rows, envs, i)
    requires forall j, k :: 0 <= j < k < |rows| ==> rows[j].id != rows[k].id
    requires rows[i].id in y.items
    requires z.items == y.items[rows[i].id := Raised(rows[i], EscalationOf(g, rows[i], envs(i)), envs(i))]
    ensures RaisedUpTo(g, x, z, rows, envs, i + 1)
  {
    forall j | 0 <= j < i ensures z.items[rows[j].id] == y.items[rows[j].id] {
      assert rows[j].id != rows[i].id;
    }
    forall id | id in x.items && (forall j :: 0 <= j < i + 1 ==> rows[j].id != id) ensures z.items[id] == x.items[id] {
      assert rows[i].id != id;
    }
  }

  /** After `i` escalations answered Ok, exactly the first `i` listed cases have risen, by one level each. */
  lemma {:induction false} SweepPrefix(g: Config, d0: Disk, rows: seq<Case>, now: Time, envs: nat -> Env, i: nat)
    requires Constraints(d0.index) && IsOverdueListing(d0.index, now, g.maxLevel, rows)
    requires forall j: nat :: envs(j).now == now
    requires i <= |rows| && forall j :: 0 <= j < i ==> EscalationReply(g, d0, rows, envs, j).Ok?
    ensures var d := Run(g, d0, EscalationEvents(rows, envs)[..i]);
      Constraints(d.index) && RaisedUpTo(g, d0.index, d.index, rows, envs, i)
  {
    var events := EscalationEvents(rows, envs);
    if i == 0 {
      assert events[..0] == [];
    } else {
      SweepPrefix(g, d0, rows, now, envs, i - 1);
      var d, c := Run(g, d0, events[..i - 1]), rows[i - 1];
      assert IsOverdue(c, now, g.maxLevel) && d0.index.items[c.id] == c && d.index.items[c.id] == c by {
        assert c in rows;
      }
      assert EscalationReply(g, d0, rows, envs, i - 1).Ok?;
      EscalationOnRow(g, d, c, envs(i - 1));
      StepKeepsConstraints(g, d, Escalate(c.id), envs(i - 1));
      RunAppend(g, d0, events, i - 1);
      RaisedNext(g, d0.index, d.index, Run(g, d0, events[..i]).index, rows, envs, i - 1);
    }
  }

  lemma FirstIsMember<T>(s: seq<T>)
    ensures s == [] || s[0] in s
  {
  }

  lemma AllRaised(g: Config, x: Index, y: Index, rows: seq<Case>, now: Time, envs: nat -> Env)
    requires ConfigOk(g) && Constraints(x) && IsOverdueListing(x, now, g.maxLevel, rows)
    requires forall j: nat :: envs(j).now == now
    requires RaisedUpTo(g, x, y, rows, envs, |rows|)
    ensures forall id :: id in y.items ==> !IsOverdue(y.items[id], now, g.maxLevel)
  {
    forall id | id in y.items ensures !IsOverdue(y.items[id], now, g.maxLevel) {
      if j :| 0 <= j < |rows| && rows[j].id == id {
        assert y.items[rows[j].id].deadline == now + g.extension;
      } else {
        forall j | 0 <= j < |rows| ensures rows[j] != x.items[id] {
          assert rows[j].id != id;
        }
      }
    }
  }

  /**
    A sweep that ends without an error leaves no overdue case below the top level, so another
    sweep at the same moment finds nothing to do.
   */
  lemma SweepClearsBacklog(g: Config, d0: Disk, rows: seq<Case>, now: Time, envs: nat -> Env)
    requires ConfigOk(g) && Constraints(d0.index) && IsOverdueListing(d0.index, now, g.maxLevel, rows)
    requires forall j: nat :: envs(j).now == now
    requires forall j :: 0 <= j < |rows| ==> EscalationReply(g, d0, rows, envs, j).Ok?
    ensures var y := Run(g, d0, EscalationEvents(rows, envs)).index;
      && RaisedUpTo(g, d0.index, y, rows, envs, |rows|)
      && (forall id :: id in y.items ==> !IsOverdue(y.items[id], now, g.maxLevel))
      && (forall again :: IsOverdueListing(y, now, g.maxLevel, again) ==> again == [])
  {
    var events := EscalationEvents(rows, envs);
    SweepPrefix(g, d0, rows, now, envs, |rows|);
    assert events[..|rows|] == events;
    var y := Run(g, d0, events).index;
    AllRaised(g, d0.index, y, rows, now, envs);
    forall again | IsOverdueListing(y, now, g.maxLevel, again) ensures again == [] {
      FirstIsMember(again);
    }
  }

  /**
    Where a sweep stops, if the store itself does not fail: at the first listed case that has been
    returned for correction, with all listed before it raised and all after it untouched. (Nor may
    a case in Registered escalate, but no run stores one: CaseTheorems.StampsMatchStatus.)
   */
  lemma {:induction false} SweepStopsAtReturned(g: Config, d0: Disk, rows: seq<Case>, now: Time, envs: nat -> Env, n: nat)
    requires Constraints(d0.index) && IsOverdueListing(d0.index, now, g.maxLevel, rows)
    requires forall j: nat :: envs(j).now == now
    requires n < |rows| && forall j :: 0 <= j < n ==> EscalationReply(g, d0, rows, envs, j).Ok?
    requires EscalationReply(g, d0, rows, envs, n) != Err(StoreFailure)
    ensures EscalationReply(g, d0, rows, envs, n).Ok? <==> rows[n].status != Returned && rows[n].status != Registered
    ensures EscalationReply(g, d0, rows, envs, n).Err? ==>
      RaisedUpTo(g, d0.index, Run(g, d0, EscalationEvents(rows, envs)[..n + 1]).index, rows, envs, n)
  {
    SweepPrefix(g, d0, rows, now, envs, n);
    var events := EscalationEvents(rows, envs);
    var d, c := Run(g, d0, events[..n]), rows[n];
    assert c in rows && d.index.items[c.id] == c;
    EscalationOnRow(g, d, c, envs(n));
    RunAppend(g, d0, events, n);
  }

  predicate MayEscalate(c: Case) {
    c.status != Returned && c.status != Registered
  }

  /** The sweep got as far as row `n`. */
  ghost predicate Reaches(g: Config, d0: Disk, rows: seq<Case>, envs: nat -> Env, n: nat)
    requires n <= |rows|
  {
    forall j :: 0 <= j < n ==> EscalationReply(g, d0, rows, envs, j).Ok?
  }

  /**
    A sweep gets as far as row `n`, if the store does not fail on its way, exactly when no case
    listed before has been returned for correction (or is in Registered, which none is).
   */
  lemma SweepReachesExactly(g: Config, d0: Disk, rows: seq<Case>, now: Time, envs: nat -> Env, n: nat)
    requires Constraints(d0.index) && IsOverdueListing(d0.index, now, g.maxLevel, rows)
    requires forall j: nat :: envs(j).now == now
    requires n <= |rows|
    requires forall j: nat :: j < n && Reaches(g, d0, rows, envs, j) ==> EscalationReply(g, d0, rows, envs, j) != Err(StoreFailure)
    ensures Reaches(g, d0, rows, envs, n) <==> forall j :: 0 <= j < n ==> MayEscalate(rows[j])
  {
    var replies := EscalationReplies(g, d0, rows, envs);
    forall j | 0 <= j < n && AllOk(replies, j) ensures replies[j].Ok? <==> MayEscalate(rows[j]) {
      assert Reaches(g, d0, rows, envs, j);
      SweepStopsAtReturned(g, d0, rows, now, envs, j);
    }
    FirstFailure(replies, rows, n);
    assert Reaches(g, d0, rows, envs, n) <==> AllOk(replies, n);
  }

  lemma EscalationReplies(g: Config, d0: Disk, rows: seq<Case>, envs: nat -> Env) returns (replies: seq<Result<Value>>)
    ensures |replies| == |rows| && forall j :: 0 <= j < |rows| ==> replies[j] == EscalationReply(g, d0, rows, envs, j)
  {
    replies := seq(|rows|, j requires 0 <= j < |rows| => EscalationReply(g, d0, rows, envs, j));
  }

  predicate AllOk(replies: seq<Result<Value>>, n: nat)
    requires n <= |replies|
  {
    forall j :: 0 <= j < n ==> replies[j].Ok?
  }

  /** Replies that are Ok where a case may escalate, up to the first that is not. */
  lemma {:induction false} FirstFailure(replies: seq<Result<Value>>, rows: seq<Case>, n: nat)
    requires n <= |replies| == |rows|
    requires forall j :: 0 <= j < n && AllOk(replies, j) ==> (replies[j].Ok? <==> MayEscalate(rows[j]))
    ensures AllOk(replies, n) <==> forall j :: 0 <= j < n ==> MayEscalate(rows[j])
  {
    if n > 0 {
      FirstFailure(replies, rows, n - 1);
      assert AllOk(replies, n) <==> AllOk(replies, n - 1) && replies[n - 1].Ok?;
    }
  }

  /** So one case returned for correction, anywhere in the listing, keeps a sweep from clearing the backlog. */
  lemma SweepSucceedsExactly(g: Config, d0: Disk, rows: seq<Case>, now: Time, envs: nat -> Env)
    requires ConfigOk(g) && Constraints(d0.index) && IsOverdueListing(d0.index, now, g.maxLevel, rows)
    requires forall j: nat :: envs(j).now == now
    requires forall j: nat :: j < |rows| && Reaches(g, d0, rows, envs, j) ==> EscalationReply(g, d0, rows, envs, j) != Err(StoreFailure)
    ensures Reaches(g, d0, rows, envs, |rows|) <==> forall c :: c in rows ==> MayEscalate(c)
    ensures Reaches(g, d0, rows, envs, |rows|) ==>
      forall again :: IsOverdueListing(Run(g, d0, EscalationEvents(rows, envs)).index, now, g.maxLevel, again) ==> again == []
  {
    SweepReachesExactly(g, d0, rows, now, envs, |rows|);
    if Reaches(g, d0, rows, envs, |rows|) {
      SweepClearsBacklog(g, d0, rows, now, envs);
    }
    assert forall j :: 0 <= j < |rows| ==> rows[j] in rows;
  }

  // ---------------------------------------------------------------- re-evaluation

  /** The rules offered would leave this case's routing as it is. */
  ghost predicate Settled(rules: set<Rule>, c: Case) {
    match Choice(rules, c)
    case None => true
    case Some(r) => c.status == Adjudicated && c.lead == r.lead && c.co == r.co && c.ruleVersion == r.version
  }

  lemma SameFactsSameChoice(rules: set<Rule>, c: Case, d: Case)
    requires d.registeredAt == c.registeredAt && d.category == c.category && d.keywords == c.keywords
    ensures Choice(rules, d) == Choice(rules, c)
  {
    forall r ensures IsChoice(rules, c, r) <==> IsChoice(rules, d, r) {
      assert forall q :: SharesKeyword(q, c) <==> SharesKeyword(q, d);
    }
    if Choice(rules, c).Some? {
      ChoiceIs(rules, d, Choice(rules, c).value);
    }
  }

  lemma ReroutedIsSettled(rules: set<Rule>, c: Case, now: Time)
    requires Choice(rules, c).Some?
    ensures Settled(rules, Rerouted(c, Choice(rules, c).value, now))
  {
    SameFactsSameChoice(rules, c, Rerouted(c, Choice(rules, c).value, now));
  }

  ghost predicate OnlyTimeMoved(c: Case, d: Case) {
    d == c.(updatedAt := d.updatedAt)
  }

  /** Every stale case outside `pending` is settled. */
  ghost predicate SettledBut(x: Index, rules: set<Rule>, current: int, pending: set<string>) {
    forall id :: id in x.items && id !in pending && IsStale(x.items[id], current) ==> Settled(rules, x.items[id])
  }

  /** What one re-evaluation does to the items table, by its answer. */
  ghost predicate ReevaluationEffect(x: Index, y: Index, id: string, rules: set<Rule>, current: int, now: Time, result: Result<Value>) {
    match result
    case Err(_) => y.items == x.items
    case Ok(Nothing) => y.items == x.items && id in x.items && (IsStale(x.items[id], current) ==> Choice(rules, x.items[id]).None?)
    case Ok(_) =>
      && id in x.items && IsStale(x.items[id], current) && Choice(rules, x.items[id]).Some?
      && y.items == x.items[id := Rerouted(x.items[id], Choice(rules, x.items[id]).value, now)]
  }

  lemma ReevaluationHasEffect(g: Config, d: Disk, id: string, at: Time, env: Env)
    requires Constraints(d.index)
    ensures var reply := Step(g, d, Reevaluate(id, at), env);
      ReevaluationEffect(d.index, reply.disk.index, id, ActiveRules(d.index, at), CurrentVersion(d.index), env.now, reply.result)
  {
    var x, rules, current := d.index, ActiveRules(d.index, at), CurrentVersion(d.index);
    var p := ReevaluateItemPlan(x, id, rules, current, env);
    ReevaluateRow(g, x, id, rules, current, env);
    if p.Commit? {
      TransactIndex(d, p.writes, env.late, env.fault);
    }
  }

  /** Its case is settled afterwards if the answer is Ok; a case that was settled only has its time moved. */
  lemma EffectSettles(x: Index, y: Index, id: string, rules: set<Rule>, current: int, now: Time, result: Result<Value>, pending: set<string>)
    requires ReevaluationEffect(x, y, id, rules, current, now, result)
    requires SettledBut(x, rules, current, pending)
    ensures y.items.Keys == x.items.Keys
    ensures SettledBut(y, rules, current, if result.Ok? then pending - {id} else pending)
    ensures pending == {} ==> forall j :: j in y.items ==> OnlyTimeMoved(x.items[j], y.items[j])
  {
    if result.Ok? && result != Ok(Nothing) {
      ReroutedIsSettled(rules, x.items[id], now);
    }
  }

  lemma ReevaluationKeeps(g: Config, d: Disk, id: string, at: Time, env: Env)
    requires Constraints(d.index)
    ensures var y := Step(g, d, Reevaluate(id, at), env).disk.index;
      Constraints(y) && y.rules == d.index.rules
      && ActiveRules(y, at) == ActiveRules(d.index, at) && CurrentVersion(y) == CurrentVersion(d.index)
  {
    StepKeepsConstraints(g, d, Reevaluate(id, at), env);
    ReevaluateLeavesRules(g, d, id, at, env);
    SameRulesSameChoice(d.index, Step(g, d, Reevaluate(id, at), env).disk.index, at);
  }

  function Ids(rows: seq<Case>): set<string> {
    set c | c in rows :: c.id
  }

  lemma {:induction false} SweepSettles(g: Config, d0: Disk, rows: seq<Case>, at: Time, envs: nat -> Env, i: nat)
    requires Constraints(d0.index) && i <= |rows|
    requires SettledBut(d0.index, ActiveRules(d0.index, at), CurrentVersion(d0.index), Ids(rows))
    requires forall j :: 0 <= j < i ==>
      Step(g, Run(g, d0, ReevaluationEvents(rows, at, envs)[..j]), Reevaluate(rows[j].id, at), envs(j)).result.Ok?
    ensures var x := Run(g, d0, ReevaluationEvents(rows, at, envs)[..i]).index;
      && Constraints(x) && ActiveRules(x, at) == ActiveRules(d0.index, at) && CurrentVersion(x) == CurrentVersion(d0.index)
      && SettledBut(x, ActiveRules(d0.index, at), CurrentVersion(d0.index), Ids(rows[i..]))
  {
    var events := ReevaluationEvents(rows, at, envs);
    var rules, current := ActiveRules(d0.index, at), CurrentVersion(d0.index);
    if i == 0 {
      assert events[..0] == [] && rows[0..] == rows;
    } else {
      SweepSettles(g, d0, rows, at, envs, i - 1);
      var d, id, env := Run(g, d0, events[..i - 1]), rows[i - 1].id, envs(i - 1);
      RunAppend(g, d0, events, i - 1);
      OneSettles(g, d, rules, current, id, at, env, Ids(rows[i - 1..]));
      NextIds(rows, i);
    }
  }

  lemma NextIds(rows: seq<Case>, i: nat)
    requires 0 < i <= |rows|
    ensures Ids(rows[i - 1..]) - {rows[i - 1].id} <= Ids(rows[i..])
  {
    assert rows[i - 1..] == [rows[i - 1]] + rows[i..];
  }

  /** One re-evaluation settles its case and unsettles none. */
  lemma OneSettles(g: Config, d: Disk, rules: set<Rule>, current: int, id: string, at: Time, env: Env, pending: set<string>)
    requires Constraints(d.index) && rules == ActiveRules(d.index, at) && current == CurrentVersion(d.index)
    requires SettledBut(d.index, rules, current, pending)
    ensures var reply := Step(g, d, Reevaluate(id, at), env);
      var y := reply.disk.index;
      && Constraints(y) && ActiveRules(y, at) == rules && CurrentVersion(y) == current
      && SettledBut(y, rules, current, if reply.result.Ok? then pending - {id} else pending)
      && y.items.Keys == d.index.items.Keys
      && (pending == {} ==> forall j :: j in y.items ==> OnlyTimeMoved(d.index.items[j], y.items[j]))
  {
    var reply := Step(g, d, Reevaluate(id, at), env);
    ReevaluationKeeps(g, d, id, at, env);
    ReevaluationHasEffect(g, d, id, at, env);
    EffectSettles(d.index, reply.disk.index, id, rules, current, env.now, reply.result, pending);
  }

  /** All there is of a case: its row, if it has one, its referrals and its escalations. */
  ghost predicate SameCase(x: Index, y: Index, id: string) {
    && (id in y.items <==> id in x.items) && (id in x.items ==> y.items[id] == x.items[id])
    && ReferralsOf(y.referrals, id) == ReferralsOf(x.referrals, id)
    && EscalationsOf(y.escalations, id) == EscalationsOf(x.escalations, id)
  }

  lemma OtherCaseIsSame(g: Config, d: Disk, call: Call, env: Env, id: string)
    requires Inv(g, d.index) && id != Subject(call, env)
    ensures SameCase(d.index, Step(g, d, call, env).disk.index, id)
  {
    StepTouches(g, d, call, env);
  }

  lemma SameCaseOn(x: Index, y: Index, z: Index, id: string)
    requires SameCase(x, y, id) && SameCase(y, z, id)
    ensures SameCase(x, z, id)
  {
  }

  lemma LastSparesOthers(g: Config, d: Disk, e: Event, x: Index, id: string)
    requires Inv(g, d.index) && Subject(e.call, e.env) != id && SameCase(x, d.index, id)
    ensures SameCase(x, Step(g, d, e.call, e.env).disk.index, id)
  {
    OtherCaseIsSame(g, d, e.call, e.env, id);
    SameCaseOn(x, d.index, Step(g, d, e.call, e.env).disk.index, id);
  }

  /** Calls that are not about a case leave it as it is, whatever faults they meet. */
  lemma {:induction false} RunSparesOthers(g: Config, d: Disk, events: seq<Event>, id: string)
    requires ConfigOk(g) && Inv(g, d.index) && forall e :: e in events ==> Subject(e.call, e.env) != id
    ensures SameCase(d.index, Run(g, d, events).index, id)
  {
    if |events| > 0 {
      var before, last := events[..|events| - 1], events[|events| - 1];
      assert last in events && forall e :: e in before ==> e in events;
      RunSparesOthers(g, d, before, id);
      RunKeepsInv(g, d, before);
      LastSparesOthers(g, Run(g, d, before), last, d.index, id);
    }
  }

  /** A sweep, wherever it is stopped and whatever faults it meets, touches no case but those it has collected. */
  lemma SweepSparesOthers(g: Config, d0: Disk, rows: seq<Case>, at: Time, envs: nat -> Env, i: nat, id: string)
    requires ConfigOk(g) && Inv(g, d0.index) && i <= |rows| && forall c :: c in rows ==> c.id != id
    ensures SameCase(d0.index, Run(g, d0, ReevaluationEvents(rows, at, envs)[..i]).index, id)
  {
    NotTheSubject(rows, at, envs, i, id);
    RunSparesOthers(g, d0, ReevaluationEvents(rows, at, envs)[..i], id);
  }

  lemma NotTheSubject(rows: seq<Case>, at: Time, envs: nat -> Env, i: nat, id: string)
    requires i <= |rows| && forall c :: c in rows ==> c.id != id
    ensures forall e :: e in ReevaluationEvents(rows, at, envs)[..i] ==> Subject(e.call, e.env) != id
  {
    var events := ReevaluationEvents(rows, at, envs);
    forall e | e in events[..i] ensures Subject(e.call, e.env) != id {
      var j :| 0 <= j < i && events[j] == e;
      assert rows[j] in rows;
    }
  }

  lemma NoEvents(g: Config, d: Disk, events: seq<Event>)
    ensures Run(g, d, events[..0]) == d
  {
  }

  /** Since `x` only update times have moved, and every stale case is settled under its rules. */
  ghost predicate IdleSince(x: Index, y: Index, at: Time) {
    && Constraints(y) && ActiveRules(y, at) == ActiveRules(x, at) && CurrentVersion(y) == CurrentVersion(x)
    && SettledBut(y, ActiveRules(x, at), CurrentVersion(x), {})
    && y.items.Keys == x.items.Keys
    && forall id :: id in y.items ==> OnlyTimeMoved(x.items[id], y.items[id])
  }

  lemma StaysIdle(g: Config, x: Index, d: Disk, id: string, at: Time, env: Env)
    requires IdleSince(x, d.index, at)
    ensures IdleSince(x, Step(g, d, Reevaluate(id, at), env).disk.index, at)
  {
    OneSettles(g, d, ActiveRules(x, at), CurrentVersion(x), id, at, env, {});
  }

  /**
    A second sweep under the same rules changes nothing but update times, whatever faults it
    meets, once every stale case is settled. It may still append referrals.
   */
  lemma {:induction false} SecondSweepIsIdle(g: Config, d1: Disk, again: seq<Case>, at: Time, envs: nat -> Env, i: nat)
    requires Constraints(d1.index) && i <= |again|
    requires SettledBut(d1.index, ActiveRules(d1.index, at), CurrentVersion(d1.index), {})
    ensures IdleSince(d1.index, Run(g, d1, ReevaluationEvents(again, at, envs)[..i]).index, at)
  {
    var events := ReevaluationEvents(again, at, envs);
    if i == 0 {
      NoEvents(g, d1, events);
    } else {
      SecondSweepIsIdle(g, d1, again, at, envs, i - 1);
      RunAppend(g, d1, events, i - 1);
      StaysIdle(g, d1.index, Run(g, d1, events[..i - 1]), again[i - 1].id, at, envs(i - 1));
    }
  }

  /**
    Repeating a sweep under unchanged rules changes no case's lead, co-departments, rule version
    or status, provided the first one met no failure; only update times may move.
   */
  lemma ReevaluationIsIdempotent(g: Config, d0: Disk, rows: seq<Case>, again: seq<Case>, at: Time, envs: nat -> Env, envs': nat -> Env)
    requires Constraints(d0.index)
    requires forall c :: c in rows <==> c.id in d0.index.items && d0.index.items[c.id] == c && IsStale(c, CurrentVersion(d0.index))
    requires forall j :: 0 <= j < |rows| ==>
      Step(g, Run(g, d0, ReevaluationEvents(rows, at, envs)[..j]), Reevaluate(rows[j].id, at), envs(j)).result.Ok?
    ensures var d1 := Run(g, d0, ReevaluationEvents(rows, at, envs));
      var y := Run(g, d1, ReevaluationEvents(again, at, envs')).index;
      && y.items.Keys == d1.index.items.Keys
      && forall id :: id in y.items ==> OnlyTimeMoved(d1.index.items[id], y.items[id])
  {
    var first, second := ReevaluationEvents(rows, at, envs), ReevaluationEvents(again, at, envs');
    forall id | id in d0.index.items && IsStale(d0.index.items[id], CurrentVersion(d0.index)) ensures id in Ids(rows) {
      assert d0.index.items[id].id == id && d0.index.items[id] in rows;
    }
    SweepSettles(g, d0, rows, at, envs, |rows|);
    assert first[..|rows|] == first && second[..|again|] == second;
    assert Ids(rows[|rows|..]) == {};
    SecondSweepIsIdle(g, Run(g, d0, first), again, at, envs', |again|);
  }

  /**
    A case is never moved to a rule with a later effective date than its registration: re-evaluation
    asks which rules were in force then. A rule created afterwards, which is what makes the case
    stale, is within its reach only if the clock has not moved on. See also RuleTheorems.
   */
  lemma ReevaluationNeverReachesYoungerRules(g: Config, d: Disk, id: string, at: Time, env: Env)
    requires Constraints(d.index) && id in d.index.items
    ensures var y := Step(g, d, Reevaluate(id, at), env).disk.index;
      && id in y.items
      && (y.items[id].ruleVersion != d.index.items[id].ruleVersion ==>
            && y.items[id].ruleVersion in d.index.rules
            && d.index.rules[y.items[id].ruleVersion].effectiveFrom <= y.items[id].registeredAt)
  {
    var x, rules, reply := d.index, ActiveRules(d.index, at), Step(g, d, Reevaluate(id, at), env);
    ReevaluationHasEffect(g, d, id, at, env);
    EffectChooses(x, reply.disk.index, id, rules, CurrentVersion(x), env.now, reply.result);
    ChosenIsOldEnough(x, x.items[id], at);
  }

  lemma EffectChooses(x: Index, y: Index, id: string, rules: set<Rule>, current: int, now: Time, result: Result<Value>)
    requires ReevaluationEffect(x, y, id, rules, current, now, result) && id in x.items
    ensures id in y.items && y.items[id].registeredAt == x.items[id].registeredAt
    ensures y.items[id].ruleVersion != x.items[id].ruleVersion ==>
      Choice(rules, x.items[id]).Some? && y.items[id].ruleVersion == Choice(rules, x.items[id]).value.version
  {
  }

  lemma ChosenIsOldEnough(x: Index, c: Case, at: Time)
    requires Constraints(x)
    ensures var o := Choice(ActiveRules(x, at), c);
      o.Some? ==> o.value.version in x.rules && x.rules[o.value.version].effectiveFrom <= c.registeredAt
  {
    ActiveRulesDistinct(x, at);
    ChoiceIsNotNewer(ActiveRules(x, at), c);
  }
}
