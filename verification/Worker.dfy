/**
  The re-evaluation worker: paging through the cases that may be re-routed, and re-routing each
  under the rules the sweep has read.
 */
module Worker {
  import opened Domain
  import opened Dispatch
  import opened Tables
  import opened Repo
  import opened Workflow
  import opened Lifecycle
  import opened LogTheorems
  import opened Services

  // ---------------------------------------------------------------- paging

  datatype ItemFilter = ItemFilter(
    status: Option<Status>, lead: string, storeId: string, registeredBy: string,
    from: Option<Time>, to: Option<Time>, overdueOnly: bool, pageSize: int, pageOffset: int)

  predicate Passes(c: Case, f: ItemFilter, wall: Time) {
    && (f.status.Some? ==> c.status == f.status.value)
    && (f.lead != "" ==> c.lead == f.lead)
    && (f.storeId != "" ==> c.storeId == f.storeId)
    && (f.registeredBy != "" ==> c.registeredBy == f.registeredBy)
    && (f.from.Some? ==> c.registeredAt >= f.from.value)
    && (f.to.Some? ==> c.registeredAt <= f.to.value)
    && (f.overdueOnly ==> !IsTerminal(c.status) && c.deadline < wall)
  }

  function Where(rows: seq<Case>, f: ItemFilter, wall: Time): seq<Case> {
    if |rows| == 0 then []
    else Where(rows[..|rows| - 1], f, wall) + (if Passes(rows[|rows| - 1], f, wall) then [rows[|rows| - 1]] else [])
  }

  /** Index.ListItems over the table in its order: one page, and the number of matching rows. */
  function ListItems(rows: seq<Case>, f: ItemFilter, wall: Time): (seq<Case>, nat) {
    var matching := Where(rows, f, wall);
    var size := if f.pageSize <= 0 then 20 else if f.pageSize > 200 then 200 else f.pageSize;
    var offset := if f.pageOffset < 0 then 0 else f.pageOffset;
    var start := if offset < |matching| then offset else |matching|;
    var end := if start + size < |matching| then start + size else |matching|;
    (matching[start..end], |matching|)
  }

  /** The rows of a listing are those that meet every criterion given. */
  lemma ListedRowsMeet(rows: seq<Case>, f: ItemFilter, wall: Time)
    requires NoRepeats(rows)
    ensures forall c :: c in Where(rows, f, wall) <==> c in rows && Meets(c, f, wall)
  {
    WhereMembers(rows, f, wall);
  }

  /**
    A page of a listing: its rows from the offset on, as many as were asked for if there are so many,
    20 if nothing was asked for, and never more than 200; and how many rows there are in all.
   */
  lemma ListItemsAnswers(rows: seq<Case>, f: ItemFilter, wall: Time)
    ensures var (page, total) := ListItems(rows, f, wall);
      var matching, offset := Where(rows, f, wall), Max0(f.pageOffset);
      && total == |matching|
      && |page| <= (if f.pageSize <= 0 then 20 else f.pageSize) && |page| <= 200
      && (page != [] ==> offset + |page| <= total && page == matching[offset..offset + |page|])
      && (offset + |page| < total ==> |page| == 200 || |page| == (if f.pageSize <= 0 then 20 else f.pageSize))
  {
  }

  function Max0(n: int): nat {
    if n < 0 then 0 else n
  }

  /** The criteria of a listing, each of which may be left out. */
  predicate Meets(c: Case, f: ItemFilter, wall: Time) {
    && f.status in {None, Some(c.status)} && f.lead in {"", c.lead} && f.storeId in {"", c.storeId}
    && f.registeredBy in {"", c.registeredBy}
    && (f.from == None || f.from.value <= c.registeredAt) && (f.to == None || c.registeredAt <= f.to.value)
    && (!f.overdueOnly || (c.status !in {Completed, Cancelled} && c.deadline < wall))
  }

  const SWEEP_PAGE_SIZE := 200

  function SweepFilter(status: Status, offset: nat): ItemFilter {
    ItemFilter(Some(status), "", "", "", None, None, false, SWEEP_PAGE_SIZE, offset)
  }

  function OlderThan(rows: seq<Case>, current: int): seq<Case> {
    if |rows| == 0 then []
    else
      OlderThan(rows[..|rows| - 1], current)
      + (if rows[|rows| - 1].ruleVersion < current then [rows[|rows| - 1]] else [])
  }

  /** What the sweep is to collect: the stale rows of each re-evaluable status, in table order. */
  function StaleRows(rows: seq<Case>, current: int, wall: Time): seq<Case> {
    OlderThan(Where(rows, SweepFilter(Registered, 0), wall), current)
    + OlderThan(Where(rows, SweepFilter(Adjudicated, 0), wall), current)
  }

  lemma {:induction false} WhereIgnoresPaging(rows: seq<Case>, status: Status, offset: nat, wall: Time)
    ensures Where(rows, SweepFilter(status, offset), wall) == Where(rows, SweepFilter(status, 0), wall)
  {
    if |rows| > 0 {
      WhereIgnoresPaging(rows[..|rows| - 1], status, offset, wall);
    }
  }

  /** The loop over one page. */
  method CollectPage(items: seq<Case>, current: int) returns (stale: seq<Case>)
    ensures stale == OlderThan(items, current)
  {
    stale := [];
    for i := 0 to |items|
      invariant stale == OlderThan(items[..i], current)
    {
      assert items[..i + 1][..i] == items[..i];
      if items[i].ruleVersion < current {
        stale := stale + [items[i]];
      }
    }
    assert items[..|items|] == items;
  }

  lemma {:induction false} OlderThanConcat(a: seq<Case>, b: seq<Case>, current: int)
    ensures OlderThan(a + b, current) == OlderThan(a, current) + OlderThan(b, current)
  {
    if |b| == 0 {
      assert a + b == a;
    } else {
      assert (a + b)[..|a + b| - 1] == a + b[..|b| - 1];
      OlderThanConcat(a, b[..|b| - 1], current);
    }
  }

  lemma OlderThanPage(rows: seq<Case>, offset: nat, page: seq<Case>, current: int)
    requires offset + |page| <= |rows| && page == rows[offset..offset + |page|]
    ensures OlderThan(rows[..offset + |page|], current) == OlderThan(rows[..offset], current) + OlderThan(page, current)
  {
    var before, upTo := rows[..offset], rows[..offset + |page|];
    assert before + page == upTo by {
      Adjacent(rows, offset, offset + |page|);
    }
    OlderThanJoin(before, page, upTo, current);
  }

  lemma OlderThanJoin(a: seq<Case>, b: seq<Case>, c: seq<Case>, current: int)
    requires a + b == c
    ensures OlderThan(c, current) == OlderThan(a, current) + OlderThan(b, current)
  {
    OlderThanConcat(a, b, current);
  }

  lemma Adjacent<T>(s: seq<T>, i: nat, j: nat)
    requires i <= j <= |s|
    ensures s[..i] + s[i..j] == s[..j]
  {
  }

  /** The paging loop for one status. */
  method CollectStatus(rows: seq<Case>, status: Status, current: int, wall: Time) returns (stale: seq<Case>)
    ensures stale == OlderThan(Where(rows, SweepFilter(status, 0), wall), current)
  {
    ghost var matching := Where(rows, SweepFilter(status, 0), wall);
    stale := [];
    var offset := 0;
    while true
      invariant 0 <= offset <= |matching|
      invariant stale == OlderThan(matching[..offset], current)
      decreases |matching| - offset
    {
      var (items, total) := ListItems(rows, SweepFilter(status, offset), wall);
      WhereIgnoresPaging(rows, status, offset, wall);
      var page := CollectPage(items, current);
      OlderThanPage(matching, offset, items, current);
      stale := stale + page;
      if |items| < SWEEP_PAGE_SIZE {
        assert matching[..offset + |items|] == matching;
        break;
      }
      offset := offset + SWEEP_PAGE_SIZE;
    }
  }

  /** collectStaleItems: however many pages it takes, it collects `StaleRows`. */
  method CollectStaleItems(rows: seq<Case>, current: int, wall: Time) returns (stale: seq<Case>)
    ensures stale == StaleRows(rows, current, wall)
  {
    stale := [];
    var statuses := [Registered, Adjudicated];
    for s := 0 to |statuses|
      invariant s == 0 ==> stale == []
      invariant s == 1 ==> stale == OlderThan(Where(rows, SweepFilter(Registered, 0), wall), current)
      invariant s == 2 ==> stale == StaleRows(rows, current, wall)
    {
      var found := CollectStatus(rows, statuses[s], current, wall);
      stale := stale + found;
    }
  }

  /** The rows of the items table in the order the query returns them. */
  ghost predicate IsTable(x: Index, rows: seq<Case>) {
    && (forall c :: c in rows <==> c.id in x.items && x.items[c.id] == c)
    && (forall i, j :: 0 <= i < j < |rows| ==> rows[i].id != rows[j].id && rows[i].registeredAt >= rows[j].registeredAt)
  }

  ghost predicate NoRepeats(rows: seq<Case>) {
    forall i, j :: 0 <= i < j < |rows| ==> rows[i].id != rows[j].id
  }

  lemma {:induction false} WhereMembers(rows: seq<Case>, f: ItemFilter, wall: Time)
    requires NoRepeats(rows)
    ensures NoRepeats(Where(rows, f, wall))
    ensures forall c :: c in Where(rows, f, wall) <==> c in rows && Passes(c, f, wall)
  {
    if |rows| > 0 {
      var init, last := rows[..|rows| - 1], rows[|rows| - 1];
      assert rows == init + [last];
      WhereMembers(init, f, wall);
      LastIsNew(init, Where(init, f, wall), last);
    }
  }

  lemma {:induction false} OlderMembers(rows: seq<Case>, current: int)
    requires NoRepeats(rows)
    ensures NoRepeats(OlderThan(rows, current))
    ensures forall c :: c in OlderThan(rows, current) <==> c in rows && c.ruleVersion < current
  {
    if |rows| > 0 {
      var init, last := rows[..|rows| - 1], rows[|rows| - 1];
      assert rows == init + [last];
      OlderMembers(init, current);
      LastIsNew(init, OlderThan(init, current), last);
    }
  }

  lemma LastIsNew(init: seq<Case>, kept: seq<Case>, last: Case)
    requires NoRepeats(init + [last]) && NoRepeats(kept) && forall c :: c in kept ==> c in init
    ensures NoRepeats(kept + [last])
  {
    forall i | 0 <= i < |kept| ensures kept[i].id != last.id {
      assert kept[i] in kept;
      var k :| 0 <= k < |init| && init[k] == kept[i];
      assert (init + [last])[k] == init[k] && (init + [last])[|init|] == last;
    }
  }

  /** Each stale case is collected, once, and nothing else is. */
  lemma StaleRowsExactlyOnce(x: Index, rows: seq<Case>, current: int, wall: Time)
    requires IsTable(x, rows)
    ensures NoRepeats(StaleRows(rows, current, wall))
    ensures forall c :: c in StaleRows(rows, current, wall) <==>
      c.id in x.items && x.items[c.id] == c && IsStale(c, current)
  {
    var f, g := SweepFilter(Registered, 0), SweepFilter(Adjudicated, 0);
    var a, b := Where(rows, f, wall), Where(rows, g, wall);
    WhereMembers(rows, f, wall);
    WhereMembers(rows, g, wall);
    OlderMembers(a, current);
    OlderMembers(b, current);
    var p, q := OlderThan(a, current), OlderThan(b, current);
    forall i, j | 0 <= i < |p| && 0 <= j < |q| ensures p[i].id != q[j].id {
      assert p[i] in p && q[j] in q;
      assert p[i] in rows && q[j] in rows && p[i].status != q[j].status;
    }
  }

  // ---------------------------------------------------------------- the sweep

  ghost function ReevaluationEvents(rows: seq<Case>, at: Time, envs: nat -> Env): (es: seq<Event>)
    ensures |es| == |rows|
    ensures forall i :: 0 <= i < |rows| ==> es[i] == Event(Reevaluate(rows[i].id, at), envs(i))
  {
    seq(|rows|, i requires 0 <= i < |rows| => Event(Reevaluate(rows[i].id, at), envs(i)))
  }

  /** The reply to re-evaluation number i of a sweep from `d0`. */
  ghost function ReevaluationReply(g: Config, d0: Disk, rows: seq<Case>, at: Time, envs: nat -> Env, i: nat): Result<Value>
    requires i < |rows|
  {
    Step(g, Run(g, d0, ReevaluationEvents(rows, at, envs)[..i]), Reevaluate(rows[i].id, at), envs(i)).result
  }

  function RoutedOnes(replies: seq<Result<Value>>): set<int> {
    set i | 0 <= i < |replies| && replies[i].Ok? && replies[i].value.ACase?
  }

  function SkippedOnes(replies: seq<Result<Value>>): set<int> {
    set i | 0 <= i < |replies| && replies[i].Ok? && !replies[i].value.ACase?
  }

  function FailedOnes(replies: seq<Result<Value>>): set<int> {
    set i | 0 <= i < |replies| && replies[i].Err?
  }

  /** The counts that go with these replies. */
  predicate Tallied(replies: seq<Result<Value>>, routed: int, skipped: int, failed: int) {
    routed == |RoutedOnes(replies)| && skipped == |SkippedOnes(replies)| && failed == |FailedOnes(replies)|
  }

  /** One more place `n` beyond those in `s`. */
  lemma OneMore<T>(s: set<T>, t: set<T>, n: T, found: bool)
    requires n !in s && forall i :: i in t <==> i in s || (found && i == n)
    ensures |t| == |s| + (if found then 1 else 0)
  {
    if found {
      assert t == s + {n};
    } else {
      assert t == s;
    }
  }

  lemma LastReply(replies: seq<Result<Value>>, r: Result<Value>, i: int)
    ensures var all, n := replies + [r], |replies|;
      && (i in RoutedOnes(all) <==> i in RoutedOnes(replies) || (r.Ok? && r.value.ACase? && i == n))
      && (i in SkippedOnes(all) <==> i in SkippedOnes(replies) || (r.Ok? && !r.value.ACase? && i == n))
      && (i in FailedOnes(all) <==> i in FailedOnes(replies) || (r.Err? && i == n))
      && (i in RoutedOnes(replies) || i in SkippedOnes(replies) || i in FailedOnes(replies) ==> i < n)
  {
    assert 0 <= i < |replies| ==> (replies + [r])[i] == replies[i];
  }

  lemma OneMoreReply(replies: seq<Result<Value>>, r: Result<Value>, routed: int, skipped: int, failed: int)
    requires Tallied(replies, routed, skipped, failed)
    ensures Tallied(replies + [r], routed + (if r.Ok? && r.value.ACase? then 1 else 0),
                    skipped + (if r.Ok? && !r.value.ACase? then 1 else 0), failed + (if r.Err? then 1 else 0))
  {
    forall i {
      LastReply(replies, r, i);
    }
    OneMore(RoutedOnes(replies), RoutedOnes(replies + [r]), |replies|, r.Ok? && r.value.ACase?);
    OneMore(SkippedOnes(replies), SkippedOnes(replies + [r]), |replies|, r.Ok? && !r.value.ACase?);
    OneMore(FailedOnes(replies), FailedOnes(replies + [r]), |replies|, r.Err?);
  }

  lemma NoReplies()
    ensures Tallied([], 0, 0, 0)
  {
    assert RoutedOnes([]) == {} && SkippedOnes([]) == {} && FailedOnes([]) == {};
  }

  /** `replies` are the replies to the first re-evaluations of a sweep. */
  ghost predicate RepliesAre(g: Config, d0: Disk, rows: seq<Case>, at: Time, envs: nat -> Env, replies: seq<Result<Value>>) {
    |replies| <= |rows| && forall i :: 0 <= i < |replies| ==> replies[i] == ReevaluationReply(g, d0, rows, at, envs, i)
  }

  lemma RepliesGrow(g: Config, d0: Disk, rows: seq<Case>, at: Time, envs: nat -> Env, replies: seq<Result<Value>>, r: Result<Value>)
    requires RepliesAre(g, d0, rows, at, envs, replies) && |replies| < |rows|
    requires r == ReevaluationReply(g, d0, rows, at, envs, |replies|)
    ensures RepliesAre(g, d0, rows, at, envs, replies + [r])
  {
  }

  /** Re-evaluating leaves the rules alone, so every step of a sweep sees the ones it has read. */
  lemma ReevaluateLeavesRules(g: Config, d: Disk, id: string, at: Time, env: Env)
    ensures Step(g, d, Reevaluate(id, at), env).disk.index.rules == d.index.rules
  {
    var call := Reevaluate(id, at);
    StepOutcome(g, d, call, env);
    var p := PlanOf(g, d.index, call, env);
    OtherPlansLeaveRules(g, d.index, call, env);
    if p.Commit? && ExecAll(d.index, p.writes).Some? {
      OtherWritesLeaveRules(d.index, p.writes);
    }
  }

  lemma SameRulesSameChoice(x: Index, y: Index, at: Time)
    requires x.rules == y.rules
    ensures ActiveRules(x, at) == ActiveRules(y, at) && CurrentVersion(x) == CurrentVersion(y)
  {
    var m, n := CurrentVersion(x), CurrentVersion(y);
    assert IsMaxVersion(x, m) && IsMaxVersion(y, n);
    if x.rules != map[] {
      assert m in x.rules && n in x.rules;
    }
  }

  /** The rules and the current version that a sweep reads when it starts. */
  ghost predicate IsOffer(x: Index, at: Time, rules: seq<Rule>, current: int) {
    DistinctVersions(Elements(rules)) && Elements(rules) == ActiveRules(x, at) && current == CurrentVersion(x)
  }

  lemma SkipIsPlanned(x: Index, id: string, rules: set<Rule>, current: int, env: Env)
    requires id in x.items && (!IsStale(x.items[id], current) || Choice(rules, x.items[id]).None?)
    ensures ReevaluateItemPlan(x, id, rules, current, env) == Reuse(Nothing)
  {
  }

  lemma RerouteIsPlanned(x: Index, id: string, rules: set<Rule>, current: int, env: Env, r: Rule)
    requires id in x.items && IsStale(x.items[id], current) && Choice(rules, x.items[id]) == Some(r)
    ensures ReevaluateItemPlan(x, id, rules, current, env)
      == Commit(ReevaluateWrites(x.items[id], r, env), ACase(Rerouted(x.items[id], r, env.now)))
  {
  }

  class ReevalWorker {
    const store: Store
    const config: Config
    var reevaluated: nat
    var skipped: nat
    var failed: nat

    constructor (store: Store, config: Config)
      ensures this.store == store && this.config == config
      ensures reevaluated == skipped == failed == 0
    {
      this.store, this.config := store, config;
      reevaluated, skipped, failed := 0, 0, 0;
    }

    /** The transaction of a re-evaluation, from the case as it was read and as it is to be. */
    method StoreReroute(reread: Case, item: Case, referral: Referral, env: Env) returns (ok: bool)
      requires store.Valid()
      modifies store
      ensures store.Valid()
      ensures Outcome(store.State(), ok) == Transact(old(store.State()), RerouteWrites(reread, item, referral, env), env.late, env.fault)
    {
      var ws := [ MarkAssignmentSuperseded(item.id), Save(AssignmentRec(referral)), UpdateItem(item),
                  Entry(env.uuid2, item.id, "item", "rule_reevaluated", "system", env.now,
                        "rule v" + IntText(reread.ruleVersion) + "->v" + IntText(referral.ruleVersion) + " lead " + referral.lead) ];
      ok := store.WithTx(ws, env.late, env.fault);
    }

    method ReevaluateItem(id: string, rules: seq<Rule>, current: int, env: Env) returns (ok: bool)
      requires store.Valid() && DistinctVersions(Elements(rules))
      modifies store, this`reevaluated, this`skipped
      ensures store.Valid()
      ensures var reply := Execute(old(store.State()), ReevaluateItemPlan(old(store.index), id, Elements(rules), current, env), env);
        && store.State() == reply.disk
        && (ok <==> reply.result.Ok?)
        && reevaluated == old(reevaluated) + (if reply.result.Ok? && reply.result.value.ACase? then 1 else 0)
        && skipped == old(skipped) + (if reply.result.Ok? && !reply.result.value.ACase? then 1 else 0)
    {
      if id !in store.index.items {
        return false;
      }
      var reread := store.index.items[id];
      if reread.ruleVersion >= current || IsTerminal(reread.status) || !IsReevaluable(reread.status) {
        SkipIsPlanned(store.index, id, Elements(rules), current, env);
        skipped := skipped + 1;
        return true;
      }
      var referral := Adjudicate(reread, rules, env.uuid1, env.now);
      if referral.None? {
        SkipIsPlanned(store.index, id, Elements(rules), current, env);
        skipped := skipped + 1;
        return true;
      }
      ghost var chosen := Choice(Elements(rules), reread).value;
      var item := reread;
      if item.status == Registered {
        item := item.(status := Adjudicated);
      }
      item := item.(lead := referral.value.lead, co := referral.value.co,
                    ruleVersion := referral.value.ruleVersion, updatedAt := env.now);
      assert item == Rerouted(reread, chosen, env.now);
      RerouteIsPlanned(store.index, id, Elements(rules), current, env, chosen);
      ok := StoreReroute(reread, item, referral.value, env);
      if ok {
        reevaluated := reevaluated + 1;
      }
    }

    /**
      sweep: a run that re-evaluates the stale rows of the table, in order, going on after a
      failure; each of them is counted as re-evaluated, skipped or failed, by its reply. It ends
      without an error exactly if its queries succeed and its context is not cancelled before the last
      row is done; `cancelAt` is the row it finds the context cancelled at.
     */
    method Sweep(rows: seq<Case>, at: Time, wall: Time, envs: nat -> Env,
                 versionRead: bool, tablesRead: bool, cancelAt: nat) returns (ok: bool, ghost replies: seq<Result<Value>>)
      requires store.Valid() && IsTable(store.index, rows)
      modifies store, this
      ensures store.Valid()
      ensures var current := CurrentVersion(old(store.index));
        var stale := if current == 0 then [] else StaleRows(rows, current, wall);
        var queried := versionRead && (current == 0 || tablesRead);
        && |replies| == (if !queried then 0 else if cancelAt < |stale| then cancelAt else |stale|)
        && RepliesAre(config, old(store.State()), stale, at, envs, replies)
        && store.State() == Run(config, old(store.State()), ReevaluationEvents(stale, at, envs)[..|replies|])
        && (ok <==> queried && |stale| <= cancelAt)
      ensures reevaluated == old(reevaluated) + |set i | 0 <= i < |replies| && replies[i].Ok? && replies[i].value.ACase?|
      ensures skipped == old(skipped) + |set i | 0 <= i < |replies| && replies[i].Ok? && !replies[i].value.ACase?|
      ensures failed == old(failed) + |set i | 0 <= i < |replies| && replies[i].Err?|
    {
      ghost var none := ReevaluationEvents([], at, envs);
      assert none[..0] == [];
      replies := [];
      NoReplies();
      if !versionRead {
        return false, replies;
      }
      var current := GetCurrentRuleVersion(store.index);
      if current == 0 {
        return true, replies;
      }
      if !tablesRead {
        return false, replies;
      }
      var rules := GetActiveRules(store.index, at);
      ActiveRulesDistinct(store.index, at);
      var stale := CollectStaleItems(rows, current, wall);
      ok, replies := ReevaluateAll(stale, rules, current, at, envs, cancelAt);
      assert RoutedOnes(replies) == set i | 0 <= i < |replies| && replies[i].Ok? && replies[i].value.ACase?;
      assert SkippedOnes(replies) == set i | 0 <= i < |replies| && replies[i].Ok? && !replies[i].value.ACase?;
      assert FailedOnes(replies) == set i | 0 <= i < |replies| && replies[i].Err?;
    }

    /** One turn of the loop over the stale cases. */
    method ReevaluateNext(stale: seq<Case>, i: nat, rules: seq<Rule>, current: int, at: Time, envs: nat -> Env, ghost d0: Disk)
      returns (ghost reply: Result<Value>)
      requires Constraints(d0.index) && i < |stale| && IsOffer(d0.index, at, rules, current)
      requires ComeTo(config, d0, ReevaluationEvents(stale, at, envs), i, store.State())
      modifies store, this
      ensures ComeTo(config, d0, ReevaluationEvents(stale, at, envs), i + 1, store.State())
      ensures reply == ReevaluationReply(config, d0, stale, at, envs, i)
      ensures reevaluated == old(reevaluated) + (if reply.Ok? && reply.value.ACase? then 1 else 0)
      ensures skipped == old(skipped) + (if reply.Ok? && !reply.value.ACase? then 1 else 0)
      ensures failed == old(failed) + (if reply.Err? then 1 else 0)
    {
      ComeToValid(config, d0, ReevaluationEvents(stale, at, envs), i, store.State());
      SweepTurn(config, d0, store.State(), stale, at, envs, i, Elements(rules), current);
      reply := ReevaluationReply(config, d0, stale, at, envs, i);
      var ok := ReevaluateItem(stale[i].id, rules, current, envs(i));
      if !ok {
        failed := failed + 1;
      }
    }

    /** The loop over the stale cases. */
    method ReevaluateAll(stale: seq<Case>, rules: seq<Rule>, current: int, at: Time, envs: nat -> Env, cancelAt: nat)
      returns (ok: bool, ghost replies: seq<Result<Value>>)
      requires store.Valid() && IsOffer(store.index, at, rules, current)
      modifies store, this
      ensures store.Valid() && |replies| == if cancelAt < |stale| then cancelAt else |stale|
      ensures ComeTo(config, old(store.State()), ReevaluationEvents(stale, at, envs), |replies|, store.State())
      ensures RepliesAre(config, old(store.State()), stale, at, envs, replies)
      ensures Tallied(replies, reevaluated - old(reevaluated), skipped - old(skipped), failed - old(failed))
      ensures ok <==> |stale| <= cancelAt
    {
      ghost var d0, events := store.State(), ReevaluationEvents(stale, at, envs);
      Starts(config, d0, events);
      var i := 0;
      replies := [];
      NoReplies();
      while i < |stale| && i != cancelAt
        invariant |replies| == i <= |stale| && i <= cancelAt && ComeTo(config, d0, events, i, store.State())
        invariant RepliesAre(config, d0, stale, at, envs, replies)
        invariant Tallied(replies, reevaluated - old(reevaluated), skipped - old(skipped), failed - old(failed))
      {
        ghost var routed, left, lost := reevaluated - old(reevaluated), skipped - old(skipped), failed - old(failed);
        ghost var reply := ReevaluateNext(stale, i, rules, current, at, envs, d0);
        OneMoreReply(replies, reply, routed, left, lost);
        RepliesGrow(config, d0, stale, at, envs, replies, reply);
        replies := replies + [reply];
        i := i + 1;
      }
      ComeToValid(config, d0, events, i, store.State());
      return i == |stale|, replies;
    }
  }

  /** With the rules as they were when the sweep began, its step is the re-evaluation call. */
  lemma SweepCall(g: Config, x0: Index, d: Disk, id: string, at: Time, env: Env, rules: set<Rule>, current: int)
    requires Constraints(d.index) && d.index.rules == x0.rules && rules == ActiveRules(x0, at) && current == CurrentVersion(x0)
    ensures var reply := Execute(d, ReevaluateItemPlan(d.index, id, rules, current, env), env);
      && Step(g, d, Reevaluate(id, at), env) == reply
      && reply.disk.index.rules == d.index.rules
  {
    SameRulesSameChoice(x0, d.index, at);
    ReevaluateLeavesRules(g, d, id, at, env);
  }

  /** The sweep has come to its `i`-th case, with the rules as they were. */
  ghost predicate ComeTo(g: Config, d0: Disk, events: seq<Event>, i: nat, d: Disk) {
    i <= |events| && d == Run(g, d0, events[..i]) && d.index.rules == d0.index.rules
  }

  lemma ComeToValid(g: Config, d0: Disk, events: seq<Event>, i: nat, d: Disk)
    requires Constraints(d0.index) && ComeTo(g, d0, events, i, d)
    ensures Constraints(d.index)
  {
    RunKeepsConstraints(g, d0, events[..i]);
  }

  lemma Starts(g: Config, d: Disk, events: seq<Event>)
    ensures ComeTo(g, d, events, 0, d)
  {
    assert events[..0] == [];
  }

  lemma SweepTurn(g: Config, d0: Disk, d: Disk, stale: seq<Case>, at: Time, envs: nat -> Env, i: nat, rules: set<Rule>, current: int)
    requires i < |stale| && rules == ActiveRules(d0.index, at) && current == CurrentVersion(d0.index)
    requires Constraints(d.index) && ComeTo(g, d0, ReevaluationEvents(stale, at, envs), i, d)
    ensures ComeTo(g, d0, ReevaluationEvents(stale, at, envs), i + 1,
                    Execute(d, ReevaluateItemPlan(d.index, stale[i].id, rules, current, envs(i)), envs(i)).disk)
    ensures ReevaluationReply(g, d0, stale, at, envs, i)
      == Execute(d, ReevaluateItemPlan(d.index, stale[i].id, rules, current, envs(i)), envs(i)).result
  {
    RunAppend(g, d0, ReevaluationEvents(stale, at, envs), i);
    SweepCall(g, d0.index, d, stale[i].id, at, envs(i), rules, current);
  }
}
