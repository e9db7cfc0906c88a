/**
  What a rebuild into a fresh index gives back. The tables it loads from the files of a run without
  rollbacks are the live tables, but for the columns that change without being logged: a rule's
  status and end, and a referral's currency. For each of them it is said exactly when the rebuild
  gets it right; for the currency of referrals, after any run at all.
 */
module RebuildTheorems {
  import opened Domain
  import opened Tables
  import opened Repo
  import opened Agreement
  import opened Workflow
  import opened Lifecycle
  import opened LogTheorems
  import opened Rebuild
  import opened Maintenance

  // ---------------------------------------------------------------- ids stay distinct

  lemma {:induction false} ExecAllKeepsIds(x: Index, ws: seq<Write>)
    requires forall w :: w in ws ==> WellFormed(w)
    requires IdsDistinct(x) && ExecAll(x, ws).Some?
    ensures IdsDistinct(ExecAll(x, ws).value)
    decreases |ws|
  {
    if |ws| > 0 {
      assert WellFormed(ws[0]);
      ExecKeepsIds(x, ws[0]);
      ExecAllKeepsIds(Exec(x, ws[0]).value, ws[1..]);
    }
  }

  lemma {:induction false} RunKeepsIds(g: Config, d: Disk, events: seq<Event>)
    requires IdsDistinct(d.index)
    ensures IdsDistinct(Run(g, d, events).index)
  {
    if |events| > 0 {
      var before, last := events[..|events| - 1], events[|events| - 1];
      RunKeepsIds(g, d, before);
      var e := Run(g, d, before);
      StepOutcome(g, e, last.call, last.env);
      var p := PlanOf(g, e.index, last.call, last.env);
      if p.Commit? && ExecAll(e.index, p.writes).Some? {
        ExecAllKeepsIds(e.index, p.writes);
      }
    }
  }

  // ---------------------------------------------------------------- when a rebuild succeeds

  /** Files that agree with the tables can be loaded into an empty index. */
  lemma AgreeingFilesLoad(d: Disk)
    requires Constraints(d.index) && Agrees(d)
    ensures Loadable(d.files, map[])
  {
    forall i, j, a, b | Latest(d.files, Key(Items, i), Some(ItemRec(a))) && Latest(d.files, Key(Items, j), Some(ItemRec(b)))
        && a.externalRef == b.externalRef
      ensures i == j
    {
      LatestIsRow(d, Key(Items, i), ItemRec(a));
      LatestIsRow(d, Key(Items, j), ItemRec(b));
    }
  }

  lemma LatestIsRow(d: Disk, k: Key, r: Record)
    requires Agrees(d)
    ensures Latest(d.files, k, Some(r)) <==> LoggedRow(d.index, k) == Some(r)
  {
    assert Latest(d.files, k, LoggedRow(d.index, k));
    if Latest(d.files, k, Some(r)) {
      LatestUnique(d.files, k, Some(r), LoggedRow(d.index, k));
    }
  }

  // ---------------------------------------------------------------- what comes back

  lemma LoadedRow(d: Disk, x: Index, k: Key)
    requires Agrees(d) && LoadedFrom(d.files, map[], x)
    ensures Row(x, k) == LoggedRow(d.index, k)
  {
    assert Latest(d.files, k, Row(x, k));
    assert Latest(d.files, k, LoggedRow(d.index, k));
    LatestUnique(d.files, k, Row(x, k), LoggedRow(d.index, k));
  }

  /** The keyed tables: cases, failures, audit and batches come back row by row. */
  lemma TablesComeBack(d: Disk, x: Index)
    requires Agrees(d) && LoadedFrom(d.files, map[], x)
    ensures PostProcess(x).items == d.index.items
    ensures PostProcess(x).failures == d.index.failures
    ensures PostProcess(x).audit == d.index.audit
    ensures PostProcess(x).batches == d.index.batches
  {
    forall id ensures Get(x.items, id) == Get(d.index.items, id) {
      LoadedRow(d, x, Key(Items, id));
    }
    SameMap(x.items, d.index.items);
    forall id ensures Get(x.failures, id) == Get(d.index.failures, id) {
      LoadedRow(d, x, Key(Failures, id));
    }
    SameMap(x.failures, d.index.failures);
    forall id ensures Get(x.audit, id) == Get(d.index.audit, id) {
      LoadedRow(d, x, Key(Audit, id));
    }
    SameMap(x.audit, d.index.audit);
    forall id ensures Get(x.batches, id) == Get(d.index.batches, id) {
      LoadedRow(d, x, Key(Batches, id));
    }
    SameMap(x.batches, d.index.batches);
  }

  lemma SameMap<V>(m: map<string, V>, n: map<string, V>)
    requires forall k :: Get(m, k) == Get(n, k)
    ensures m == n
  {
    forall k ensures k in m <==> k in n {
      assert Get(m, k) == Get(n, k);
    }
    forall k | k in m ensures m[k] == n[k] {
      assert Get(m, k) == Get(n, k);
    }
  }

  lemma {:induction false} FindIsMember(x: Index)
    requires IdsDistinct(x)
    ensures forall a :: a in x.referrals ==> FindReferral(x.referrals, a.id) == Some(a)
    ensures forall e :: e in x.escalations ==> FindEscalation(x.escalations, e.id) == Some(e)
  {
    forall a | a in x.referrals ensures FindReferral(x.referrals, a.id) == Some(a) {
      FindReferralFinds(x.referrals, a.id);
    }
    forall e | e in x.escalations ensures FindEscalation(x.escalations, e.id) == Some(e) {
      FindEscalationFinds(x.escalations, e.id);
    }
  }

  /** The same escalations come back, in some order. */
  lemma EscalationsComeBack(d: Disk, x: Index)
    requires Agrees(d) && LoadedFrom(d.files, map[], x) && IdsDistinct(d.index)
    ensures forall e :: e in PostProcess(x).escalations <==> e in d.index.escalations
  {
    FindIsMember(x);
    FindIsMember(d.index);
    forall e ensures e in x.escalations <==> e in d.index.escalations {
      LoadedRow(d, x, Key(Escalations, e.id));
      FindEscalationFinds(x.escalations, e.id);
      FindEscalationFinds(d.index.escalations, e.id);
    }
  }

  /** A rule as a rebuild makes it: superseded if the audit trail names it, and without its end. */
  function AsRebuilt(live: Index, v: int): Rule
    requires v in live.rules
  {
    live.rules[v].(effectiveTo := None, status := if SupersedeLogged(live, v) then Superseded else Active)
  }

  /**
    The same rules come back, and the audit trail decides which of them are superseded. When they
    ended is in no file. So a rule comes back up to its end exactly if it is superseded, or no
    CreateRule ever named it; and with its end exactly in the latter case. The one that does not is
    the active rule whose version was superseded before it existed.
   */
  lemma RulesComeBack(d: Disk, x: Index)
    requires Agrees(d) && LoadedFrom(d.files, map[], x) && EndsStamped(d.index)
    ensures var live, y := d.index, PostProcess(x);
      && y.rules.Keys == live.rules.Keys
      && forall v :: v in y.rules ==>
           && y.rules[v] == AsRebuilt(live, v)
           && (y.rules[v] == live.rules[v].(effectiveTo := None) <==> live.rules[v].status == Superseded || !SupersedeLogged(live, v))
           && (y.rules[v] == live.rules[v] <==> !SupersedeLogged(live, v))
  {
    TablesComeBack(d, x);
    forall v ensures v in x.rules <==> v in d.index.rules {
      LoadedRow(d, x, RuleKey(v));
    }
    forall v | v in x.rules ensures PostProcess(x).rules[v] == AsRebuilt(d.index, v) {
      LoadedRow(d, x, RuleKey(v));
      assert SupersedeLogged(x, v) <==> SupersedeLogged(d.index, v);
    }
  }

  /** A referral comes back under its id, with every column but is_current. */
  lemma ReferralComesBack(d: Disk, x: Index, a: Referral)
    requires Agrees(d) && LoadedFrom(d.files, map[], x) && IdsDistinct(d.index) && a in d.index.referrals
    ensures exists b :: b in PostProcess(x).referrals && b == a.(isCurrent := !HasEscalation(d.index, a.itemId))
  {
    FindIsMember(d.index);
    LoadedRow(d, x, Key(Assignments, a.id));
    FindReferralFinds(x.referrals, a.id);
    var b := a.(isCurrent := true);
    assert b in x.referrals;
    var i :| 0 <= i < |x.referrals| && x.referrals[i] == b;
    EscalationsComeBack(d, x);
    assert HasEscalation(x, a.itemId) <==> HasEscalation(d.index, a.itemId);
    var y := PostProcess(x);
    assert y.referrals[i] in y.referrals && y.referrals[i] == a.(isCurrent := !HasEscalation(d.index, a.itemId));
  }

  /** Whether every referral of a case comes back exactly, is_current included. */
  ghost predicate CurrencyComesBack(live: seq<Referral>, rebuilt: seq<Referral>, id: string) {
    forall a :: a in live && a.itemId == id ==> a in rebuilt
  }

  /** No row that a rebuild makes up: the referrals it loads are the live ones. */
  lemma NoOtherReferrals(d: Disk, x: Index, b: Referral)
    requires Agrees(d) && LoadedFrom(d.files, map[], x) && IdsDistinct(d.index)
    requires b in PostProcess(x).referrals
    ensures exists a :: a in d.index.referrals && b == a.(isCurrent := !HasEscalation(d.index, a.itemId))
  {
    FindIsMember(x);
    var i :| 0 <= i < |x.referrals| && PostProcess(x).referrals[i] == b;
    var c := x.referrals[i];
    assert c in x.referrals;
    LoadedRow(d, x, Key(Assignments, c.id));
    FindReferralFinds(d.index.referrals, c.id);
    EscalationsComeBack(d, x);
    assert HasEscalation(x, c.itemId) <==> HasEscalation(d.index, c.itemId);
    var a := FindReferral(d.index.referrals, c.id).value;
    assert b == a.(isCurrent := !HasEscalation(d.index, a.itemId));
  }

  lemma ReferralsComeBack(d: Disk, x: Index)
    requires Agrees(d) && LoadedFrom(d.files, map[], x) && IdsDistinct(d.index)
    ensures SameUpToCurrency(d.index.referrals, PostProcess(x).referrals)
  {
    forall a | a in d.index.referrals ensures exists b :: b in PostProcess(x).referrals && b == a.(isCurrent := b.isCurrent) {
      ReferralComesBack(d, x, a);
    }
    forall b | b in PostProcess(x).referrals ensures exists a :: a in d.index.referrals && b == a.(isCurrent := b.isCurrent) {
      NoOtherReferrals(d, x, b);
    }
  }

  ghost predicate SameUpToCurrency(live: seq<Referral>, rebuilt: seq<Referral>) {
    && (forall a :: a in live ==> exists b :: b in rebuilt && b == a.(isCurrent := b.isCurrent))
    && (forall b :: b in rebuilt ==> exists a :: a in live && b == a.(isCurrent := b.isCurrent))
  }

  /** A referral is in the rebuilt table exactly if its flag is what the post-processing guesses. */
  lemma ComesBackExactly(d: Disk, x: Index, a: Referral)
    requires Agrees(d) && LoadedFrom(d.files, map[], x) && IdsDistinct(d.index) && a in d.index.referrals
    ensures a in PostProcess(x).referrals <==> (a.isCurrent <==> !HasEscalation(d.index, a.itemId))
  {
    ReferralComesBack(d, x, a);
    if a in PostProcess(x).referrals {
      NoOtherReferrals(d, x, a);
    }
  }

  lemma {:induction false} ReferralsOfMember(s: seq<Referral>, id: string)
    ensures forall a :: a in ReferralsOf(s, id) <==> a in s && a.itemId == id
  {
    if |s| > 0 {
      assert s == s[..|s| - 1] + [s[|s| - 1]];
      ReferralsOfMember(s[..|s| - 1], id);
    }
  }

  lemma {:induction false} EscalationsOfMember(s: seq<Escalation>, id: string)
    ensures forall e :: e in EscalationsOf(s, id) <==> e in s && e.itemId == id
  {
    if |s| > 0 {
      assert s == s[..|s| - 1] + [s[|s| - 1]];
      EscalationsOfMember(s[..|s| - 1], id);
    }
  }

  /**
    From files that agree with the tables the post-processing guesses is_current right for a case
    exactly when the case was never re-routed. One escalation leaves the rebuilt case with no current
    referral at all, one re-evaluation with two. (For files of any run: SoleCurrentExactly.)
   */
  lemma CurrencyIsGuessedRight(g: Config, d: Disk, x: Index, id: string)
    requires Inv(g, d.index) && id in d.index.items
    requires Agrees(d) && LoadedFrom(d.files, map[], x) && IdsDistinct(d.index)
    ensures CurrencyComesBack(d.index.referrals, PostProcess(x).referrals, id) <==> |ReferralsOf(d.index.referrals, id)| == 1
  {
    var c, rs, es := d.index.items[id], ReferralsOf(d.index.referrals, id), EscalationsOf(d.index.escalations, id);
    assert |rs| > c.level == |es| && ReferralsOk(c, rs) by {
      assert CaseOk(g, d.index, c);
    }
    ReferralsOfMember(d.index.referrals, id);
    EscalationsOfMember(d.index.escalations, id);
    assert HasEscalation(d.index, id) <==> |es| > 0 by {
      assert |es| > 0 ==> es[0] in es;
    }
    forall a | a in rs ensures a in PostProcess(x).referrals <==> (a.isCurrent <==> |es| == 0) {
      ComesBackExactly(d, x, a);
    }
    if |rs| > 1 {
      var first, last := rs[0], rs[|rs| - 1];
      assert first in rs && last in rs && !first.isCurrent && last.isCurrent;
      assert first !in PostProcess(x).referrals || last !in PostProcess(x).referrals;
    }
  }

  /** Exactly one referral of the case is current. */
  ghost predicate SoleCurrent(rs: seq<Referral>, id: string) {
    exists a :: IsSole(rs, id, a)
  }

  ghost predicate IsSole(rs: seq<Referral>, id: string, a: Referral) {
    a in rs && a.itemId == id && a.isCurrent && forall b :: b in rs && b.itemId == id && b.isCurrent ==> b == a
  }

  /** One of the case's referrals is current, and it states the routing in the case's own row. */
  ghost predicate OneCurrent(rs: seq<Referral>, c: Case) {
    exists a :: IsTheCurrent(rs, c, a)
  }

  ghost predicate IsTheCurrent(rs: seq<Referral>, c: Case, a: Referral) {
    IsSole(rs, c.id, a) && a.lead == c.lead && a.co == c.co && a.ruleVersion == c.ruleVersion
  }

  lemma ReferralsAreOk(g: Config, x: Index, id: string)
    requires Inv(g, x) && id in x.items
    ensures x.items[id].id == id && ReferralsOk(x.items[id], ReferralsOf(x.referrals, id))
  {
    assert CaseOk(g, x, x.items[id]);
  }

  /** After a rebuild from such files a case has its one current referral exactly if it has one referral in all. */
  lemma OneCurrentAfterRebuild(g: Config, d: Disk, x: Index, id: string)
    requires Inv(g, d.index) && id in d.index.items
    requires Agrees(d) && LoadedFrom(d.files, map[], x) && IdsDistinct(d.index)
    ensures OneCurrent(PostProcess(x).referrals, d.index.items[id]) <==> |ReferralsOf(d.index.referrals, id)| == 1
  {
    ReferralsAreOk(g, d.index, id);
    CurrencyIsGuessedRight(g, d, x, id);
    OneCurrentExactly(d, x, d.index.items[id]);
  }

  lemma OneCurrentExactly(d: Disk, x: Index, c: Case)
    requires Agrees(d) && LoadedFrom(d.files, map[], x) && IdsDistinct(d.index)
    requires ReferralsOk(c, ReferralsOf(d.index.referrals, c.id))
    requires CurrencyComesBack(d.index.referrals, PostProcess(x).referrals, c.id) <==> |ReferralsOf(d.index.referrals, c.id)| == 1
    ensures OneCurrent(PostProcess(x).referrals, c) <==> |ReferralsOf(d.index.referrals, c.id)| == 1
  {
    var rs := ReferralsOf(d.index.referrals, c.id);
    ReferralsOfMember(d.index.referrals, c.id);
    if |rs| == 1 {
      assert rs[0] in rs;
      SoleReferralIsCurrent(d, x, c, rs[0]);
    } else {
      assert rs[0] in rs && rs[|rs| - 1] in rs && rs[0] != rs[|rs| - 1];
      MoreReferralsAreAlike(d, x, c, rs[0], rs[|rs| - 1]);
    }
  }

  lemma SoleReferralIsCurrent(d: Disk, x: Index, c: Case, a: Referral)
    requires Agrees(d) && LoadedFrom(d.files, map[], x) && IdsDistinct(d.index)
    requires a in PostProcess(x).referrals && a.itemId == c.id && a.isCurrent
    requires a.lead == c.lead && a.co == c.co && a.ruleVersion == c.ruleVersion
    requires forall b :: b in d.index.referrals && b.itemId == c.id ==> b == a
    ensures IsTheCurrent(PostProcess(x).referrals, c, a)
  {
    forall b | b in PostProcess(x).referrals && b.itemId == c.id && b.isCurrent ensures b == a {
      NoOtherReferrals(d, x, b);
    }
  }

  /** Two referrals of a case come back both current, or neither. */
  lemma MoreReferralsAreAlike(d: Disk, x: Index, c: Case, a: Referral, b: Referral)
    requires Agrees(d) && LoadedFrom(d.files, map[], x) && IdsDistinct(d.index)
    requires a in d.index.referrals && b in d.index.referrals && a.itemId == b.itemId == c.id && a != b
    ensures !OneCurrent(PostProcess(x).referrals, c)
  {
    ReferralComesBack(d, x, a);
    ReferralComesBack(d, x, b);
    FindIsMember(d.index);
    assert a.id != b.id;
    forall r ensures !IsTheCurrent(PostProcess(x).referrals, c, r) {
      if r in PostProcess(x).referrals && r.itemId == c.id {
        NoOtherReferrals(d, x, r);
      }
    }
  }

  /** What the rebuilt tables `y` have of the live ones. */
  ghost predicate Restored(live: Index, y: Index) {
    && y.items == live.items && y.failures == live.failures
    && y.audit == live.audit && y.batches == live.batches
    && (forall e :: e in y.escalations <==> e in live.escalations)
    && y.rules.Keys == live.rules.Keys
    && (forall v :: v in y.rules ==> y.rules[v] == AsRebuilt(live, v))
    && SameUpToCurrency(live.referrals, y.referrals)
  }

  /** The columns that change without being logged, and exactly when the rebuilt ones are right. */
  ghost predicate GuessedRight(live: Index, y: Index)
    requires y.items == live.items && y.rules.Keys == live.rules.Keys
  {
    && (forall v :: v in y.rules ==>
          && (y.rules[v] == live.rules[v].(effectiveTo := None) <==> live.rules[v].status == Superseded || !SupersedeLogged(live, v))
          && (y.rules[v] == live.rules[v] <==> !SupersedeLogged(live, v)))
    && (forall id :: id in live.items ==>
          && (CurrencyComesBack(live.referrals, y.referrals, id) <==> |ReferralsOf(live.referrals, id)| == 1)
          && (OneCurrent(y.referrals, live.items[id]) <==> |ReferralsOf(live.referrals, id)| == 1))
  }

  /** The files of a run without rollbacks can be loaded into an empty index. (For all runs: Recovery.) */
  lemma RunFilesLoad(g: Config, events: seq<Event>)
    requires ConfigOk(g) && Clocked(events) && AllCommitted(g, EMPTY_DISK, events)
    ensures Loadable(Run(g, EMPTY_DISK, events).files, map[])
  {
    FilesAgreeWithTables(g, events);
    RunKeepsInv(g, EMPTY_DISK, events);
    AgreeingFilesLoad(Run(g, EMPTY_DISK, events));
  }

  /**
    The rebuild theorem. Take any run of calls on an empty store whose clock never goes back and in
    which no transaction was rolled back, and load all of its files into an empty index: the tables
    are the live tables, the rules up to `effective_to` and the status that the audit trail gives
    them, the referrals up to `is_current`. `Repo.Files` has one file for a day, as the writer does
    while no day file reaches the shard limit: see ShardFiles.RunReadsBack.
   */
  lemma RebuildRestoresRun(g: Config, events: seq<Event>, x: Index)
    requires ConfigOk(g) && Clocked(events) && AllCommitted(g, EMPTY_DISK, events)
    requires LoadedFrom(Run(g, EMPTY_DISK, events).files, map[], x)
    ensures var live, y := Run(g, EMPTY_DISK, events).index, PostProcess(x);
      Restored(live, y) && GuessedRight(live, y)
  {
    var d := Run(g, EMPTY_DISK, events);
    FilesAgreeWithTables(g, events);
    RunStampsEnds(g, events);
    RunKeepsInv(g, EMPTY_DISK, events);
    RunKeepsIds(g, EMPTY_DISK, events);
    TablesComeBack(d, x);
    EscalationsComeBack(d, x);
    RulesComeBack(d, x);
    ReferralsComeBack(d, x);
    forall id | id in d.index.items
      ensures CurrencyComesBack(d.index.referrals, PostProcess(x).referrals, id) <==> |ReferralsOf(d.index.referrals, id)| == 1
      ensures OneCurrent(PostProcess(x).referrals, d.index.items[id]) <==> |ReferralsOf(d.index.referrals, id)| == 1
    {
      CurrencyIsGuessedRight(g, d, x, id);
      OneCurrentAfterRebuild(g, d, x, id);
    }
  }

  /**
    The same for the rules in terms of the calls: a rule comes back up to its end exactly if a call
    superseded it when it existed, or none did at all; and with its end exactly if none did.
   */
  lemma RulesOfRunComeBack(g: Config, events: seq<Event>, x: Index, v: int)
    requires ConfigOk(g) && Clocked(events) && AllCommitted(g, EMPTY_DISK, events)
    requires LoadedFrom(Run(g, EMPTY_DISK, events).files, map[], x)
    ensures var live, y := Run(g, EMPTY_DISK, events).index, PostProcess(x);
      && (v in y.rules <==> v in live.rules)
      && (v in live.rules ==>
            && (y.rules[v] == live.rules[v].(effectiveTo := None) <==> v in SupersedingKnown(g, events) || v !in Superseding(g, events))
            && (y.rules[v] == live.rules[v] <==> v !in Superseding(g, events)))
  {
    var d := Run(g, EMPTY_DISK, events);
    FilesAgreeWithTables(g, events);
    RunStampsEnds(g, events);
    RulesComeBack(d, x);
    SupersedeHistory(g, events, v);
  }

  /** What a case keeps through a rebuild: its lead, level and stamps are those of its rule and history. */
  lemma RebuiltCasesAreRouted(g: Config, live: Index, y: Index, id: string)
    requires Inv(g, live) && Restored(live, y) && id in y.items
    ensures var c := y.items[id];
      && c.ruleVersion in y.rules && LevelOk(g, c) && StampsOk(c)
      && c.lead == EscalatedLead(y.rules[c.ruleVersion].lead, c.level) && c.co == y.rules[c.ruleVersion].co
  {
    assert CaseOk(g, live, live.items[id]);
  }

  /**
    The whole of it on a store: an index that was lost is rebuilt from the files of such a run, all
    of them readable. The rebuild is answered ok exactly if its own commit succeeds; then it leaves
    the live tables, and a reconciliation right after it has nothing to report.
   */
  method RebuildLostIndex(s: Store, hash: Hash, now: Time, commitOk: bool, ghost g: Config, ghost events: seq<Event>)
    returns (rebuilt: RebuildReport, ok: bool, reconciled: ReconcileReport)
    requires ConfigOk(g) && Clocked(events) && AllCommitted(g, EMPTY_DISK, events)
    requires s.index == EMPTY_INDEX && s.files == Run(g, EMPTY_DISK, events).files
    modifies s
    ensures (ok <==> commitOk) && s.files == old(s.files)
    ensures !ok ==> s.index == EMPTY_INDEX
    ensures ok ==>
      && Restored(Run(g, EMPTY_DISK, events).index, s.index) && GuessedRight(Run(g, EMPTY_DISK, events).index, s.index)
      && reconciled.details == 0
    ensures rebuilt.skippedShards == 0 && rebuilt.totalShards == |s.files|
  {
    var readable := s.files.Keys;
    assert Readable(s.files, readable) == s.files;
    RunFilesLoad(g, events);
    ghost var loaded, collected;
    rebuilt, ok, loaded, collected := RebuildIndex(s, readable, hash, now, commitOk);
    NoneCorrupted(rebuilt.corruptedShards);
    if ok {
      RebuildRestoresRun(g, events, loaded);
      SameTables(Run(g, EMPTY_DISK, events).index, PostProcess(loaded), s.index);
      FreshManifestReconciles(s.index.manifest, s.files, readable, hash, now);
    }
    ghost var ps;
    reconciled, ps := Reconcile(s, readable, hash);
  }

  lemma NoneCorrupted(bad: seq<Path>)
    ensures (forall p :: p !in bad) ==> |bad| == 0
  {
    if |bad| > 0 {
      assert bad[0] in bad;
    }
  }

  /** The manifest is no part of what comes back. */
  lemma SameTables(live: Index, y: Index, z: Index)
    requires Restored(live, y) && GuessedRight(live, y) && z == y.(manifest := z.manifest)
    ensures Restored(live, z) && GuessedRight(live, z)
  {
    assert z.referrals == y.referrals && z.rules == y.rules && z.items == y.items && z.escalations == y.escalations;
  }

  // ---------------------------------------------------------------- the current referral, after anything

  /** The latest record of `k` is a referral of the case. */
  ghost predicate IsReferralKey(files: Files, k: Key, id: string) {
    exists a: Referral :: Latest(files, k, Some(AssignmentRec(a))) && a.itemId == id
  }

  /** The latest record of some key is an escalation of the case. */
  ghost predicate EscalationFiled(files: Files, id: string) {
    exists k, e: Escalation :: Latest(files, k, Some(EscalationRec(e))) && e.itemId == id
  }

  ghost predicate OneReferralFiled(files: Files, id: string) {
    exists k :: IsReferralKey(files, k, id) && forall l :: IsReferralKey(files, l, id) ==> l == k
  }

  lemma LoadedReferral(files: Files, x: Index, k: Key, a: Referral)
    requires LoadedFrom(files, map[], x)
    ensures Latest(files, k, Some(AssignmentRec(a))) <==> a in x.referrals && k == Key(Assignments, a.id)
  {
    FindIsMember(x);
    assert Latest(files, k, Row(x, k));
    if Latest(files, k, Some(AssignmentRec(a))) {
      LatestUnique(files, k, Some(AssignmentRec(a)), Row(x, k));
      FindReferralFinds(x.referrals, k.id);
    }
  }

  lemma LoadedEscalation(files: Files, x: Index, k: Key, e: Escalation)
    requires LoadedFrom(files, map[], x)
    ensures Latest(files, k, Some(EscalationRec(e))) <==> e in x.escalations && k == Key(Escalations, e.id)
  {
    FindIsMember(x);
    assert Latest(files, k, Row(x, k));
    if Latest(files, k, Some(EscalationRec(e))) {
      LatestUnique(files, k, Some(EscalationRec(e)), Row(x, k));
      FindEscalationFinds(x.escalations, k.id);
    }
  }

  lemma LoadedEscalations(files: Files, x: Index, id: string)
    requires LoadedFrom(files, map[], x)
    ensures HasEscalation(x, id) <==> EscalationFiled(files, id)
  {
    if e :| e in x.escalations && e.itemId == id {
      LoadedEscalation(files, x, Key(Escalations, e.id), e);
    }
    if k, e: Escalation :| Latest(files, k, Some(EscalationRec(e))) && e.itemId == id {
      LoadedEscalation(files, x, k, e);
    }
  }

  lemma LoadedIsCurrent(files: Files, x: Index, a: Referral)
    requires LoadedFrom(files, map[], x) && AllLinesOk(files) && a in x.referrals
    ensures a.isCurrent
  {
    LoadedReferral(files, x, Key(Assignments, a.id), a);
    LatestIsLine(files, Key(Assignments, a.id), AssignmentRec(a));
    assert LineOk(AssignmentRec(a));
  }

  /** Which referrals are current after the post-processing. */
  lemma CurrentReferrals(files: Files, x: Index, id: string)
    requires LoadedFrom(files, map[], x) && AllLinesOk(files)
    ensures forall a ::
      (a in PostProcess(x).referrals && a.itemId == id && a.isCurrent
       <==> a in x.referrals && a.itemId == id && !EscalationFiled(files, id))
  {
    LoadedEscalations(files, x, id);
    var y := PostProcess(x);
    forall a | a in x.referrals ensures a.isCurrent {
      LoadedIsCurrent(files, x, a);
    }
    forall a | a in x.referrals && a.itemId == id && !EscalationFiled(files, id) ensures a in y.referrals {
      var i :| 0 <= i < |x.referrals| && x.referrals[i] == a;
      assert y.referrals[i] == a;
    }
    forall a | a in y.referrals && a.itemId == id && a.isCurrent ensures a in x.referrals && !EscalationFiled(files, id) {
      var i :| 0 <= i < |y.referrals| && y.referrals[i] == a;
      assert x.referrals[i] in x.referrals;
    }
  }

  lemma ReferralKeys(files: Files, x: Index, id: string)
    requires LoadedFrom(files, map[], x)
    ensures forall a :: a in x.referrals && a.itemId == id ==> IsReferralKey(files, Key(Assignments, a.id), id)
    ensures forall k :: IsReferralKey(files, k, id) ==> exists a :: a in x.referrals && a.itemId == id && k == Key(Assignments, a.id)
    ensures forall a, b :: a in x.referrals && b in x.referrals && a.id == b.id ==> a == b
  {
    FindIsMember(x);
    forall a | a in x.referrals && a.itemId == id ensures IsReferralKey(files, Key(Assignments, a.id), id) {
      LoadedReferral(files, x, Key(Assignments, a.id), a);
    }
    forall k | IsReferralKey(files, k, id) ensures exists a :: a in x.referrals && a.itemId == id && k == Key(Assignments, a.id) {
      var a: Referral :| Latest(files, k, Some(AssignmentRec(a))) && a.itemId == id;
      LoadedReferral(files, x, k, a);
    }
  }

  /**
    Whatever the files are of, rollbacks and retries included: a rebuild of them into an empty
    index gives a case exactly one current referral if and only if they hold a referral of it under
    exactly one key and no escalation of it.
   */
  lemma SoleCurrentExactly(files: Files, x: Index, id: string)
    requires LoadedFrom(files, map[], x) && AllLinesOk(files)
    ensures SoleCurrent(PostProcess(x).referrals, id) <==> !EscalationFiled(files, id) && OneReferralFiled(files, id)
  {
    var y := PostProcess(x);
    CurrentReferrals(files, x, id);
    ReferralKeys(files, x, id);
    if SoleCurrent(y.referrals, id) {
      var a :| IsSole(y.referrals, id, a);
      assert IsReferralKey(files, Key(Assignments, a.id), id);
    }
    if !EscalationFiled(files, id) && OneReferralFiled(files, id) {
      var k :| IsReferralKey(files, k, id) && forall l :: IsReferralKey(files, l, id) ==> l == k;
      var a :| a in x.referrals && a.itemId == id && k == Key(Assignments, a.id);
      assert IsSole(y.referrals, id, a);
    }
  }

  /** So it is at every point of every trace of calls, with any faults, and rebuilds in place. */
  lemma SoleCurrentInTrace(g: Config, acts: seq<Act>, disks: seq<Disk>, n: nat, x: Index, id: string)
    requires ConfigOk(g) && IsTrace(g, acts, disks) && n <= |acts| && LoadedFrom(disks[n].files, map[], x)
    ensures SoleCurrent(PostProcess(x).referrals, id)
      <==> !EscalationFiled(disks[n].files, id) && OneReferralFiled(disks[n].files, id)
  {
    TraceKeepsInv(g, acts, disks, n);
    SoleCurrentExactly(disks[n].files, x, id);
  }

  // ---------------------------------------------------------------- runs with rollbacks

  /** In any run at all, replaying the files finds every key that has a row. */
  lemma CommittedIdsAreReplayed(g: Config, events: seq<Event>, m: map<Key, Record>, k: Key)
    requires ConfigOk(g) && IsReplay(Run(g, EMPTY_DISK, events).files, m)
    requires Row(Run(g, EMPTY_DISK, events).index, k).Some?
    ensures k in m
  {
    var d := Run(g, EMPTY_DISK, events);
    EveryRowIsLogged(g, events);
    LoggedIsMentioned(d, k);
    assert Latest(d.files, k, Get(m, k));
  }
}
