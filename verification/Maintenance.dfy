/**
  Runs of service calls with `hubctl rebuild-index` among them, and what keeps such runs in order:
  an in-place rebuild of all the files only ever goes through before the first case.
 */
module Maintenance {
  import opened Domain
  import opened Dispatch
  import opened Tables
  import opened Repo
  import opened Agreement
  import opened Workflow
  import opened Lifecycle
  import opened LogTheorems
  import opened Rebuild

  // ---------------------------------------------------------------- runs with rebuilds

  /** A service call, or a rebuild of the index in place. */
  datatype Act = Serve(event: Event) | RebuildInPlace(commitOk: bool)

  /** What Rebuild.RebuildIndex does to a disk whose files can all be read; the manifest is as it may. */
  ghost predicate Rebuilt(before: Disk, after: Disk, commitOk: bool) {
    && after.files == before.files
    && if commitOk && Loadable(before.files, before.index.rules) then
         exists x :: LoadedFrom(before.files, before.index.rules, x) && after.index == PostProcess(x).(manifest := after.index.manifest)
       else after.index == before.index
  }

  ghost predicate ActStep(g: Config, before: Disk, act: Act, after: Disk) {
    match act
    case Serve(e) => after == Step(g, before, e.call, e.env).disk
    case RebuildInPlace(commitOk) => Rebuilt(before, after, commitOk)
  }

  /** The disks that `acts` lead through, from an empty data directory on. */
  ghost predicate IsTrace(g: Config, acts: seq<Act>, disks: seq<Disk>) {
    && |disks| == |acts| + 1 && disks[0] == EMPTY_DISK
    && forall i :: 0 <= i < |acts| ==> ActStep(g, disks[i], acts[i], disks[i + 1])
  }

  /** Runs of service calls alone are among them. */
  lemma {:induction false} RunsAreTraces(g: Config, events: seq<Event>) returns (acts: seq<Act>, disks: seq<Disk>)
    ensures IsTrace(g, acts, disks) && disks[|acts|] == Run(g, EMPTY_DISK, events)
  {
    if |events| == 0 {
      acts, disks := [], [EMPTY_DISK];
    } else {
      var before, last := events[..|events| - 1], events[|events| - 1];
      acts, disks := RunsAreTraces(g, before);
      var after := Step(g, disks[|acts|], last.call, last.env).disk;
      TraceGrows(g, acts, disks, Serve(last), after);
      acts, disks := acts + [Serve(last)], disks + [after];
    }
  }

  lemma TraceGrows(g: Config, acts: seq<Act>, disks: seq<Disk>, act: Act, after: Disk)
    requires IsTrace(g, acts, disks) && ActStep(g, disks[|acts|], act, after)
    ensures IsTrace(g, acts + [act], disks + [after])
  {
  }

  // ---------------------------------------------------------------- latest records exist

  /** Some sorted list names the files. */
  lemma {:induction false} PathsCanBeSorted(files: set<Path>) returns (ps: seq<Path>)
    ensures Sorted(ps) && forall p :: p in ps <==> p in files
    decreases files
  {
    if files == {} {
      ps := [];
    } else {
      var p := Any(files);
      var rest := PathsCanBeSorted(files - {p});
      InsertPathSorts(p, rest);
      ps := InsertPath(p, rest);
    }
  }

  /** A key that is mentioned has a latest record. */
  lemma MentionedHasLatest(files: Files, p: Path, k: Key) returns (r: Record)
    requires LastAt(files, p, k).Some?
    ensures Latest(files, k, Some(r))
  {
    var ps := PathsCanBeSorted(files.Keys);
    ReadingInOrderIsLatest(files, ps, k);
    var o := LastUpTo(files, ps, |ps|, k);
    assert Latest(files, k, o);
    r := o.value;
  }

  lemma LoggedIsMentioned(d: Disk, k: Key)
    requires WriteAhead(d) && Row(d.index, k).Some?
    ensures exists p :: LastAt(d.files, p, k).Some?
  {
    var r := LoggedRow(d.index, k).value;
    assert InLog(d.files, k, r);
    var p :| p in d.files && p.entity == EntityOf(k) && r in d.files[p];
    LastOfFinds(d.files[p], r);
    assert LastAt(d.files, p, k).Some?;
  }

  // ---------------------------------------------------------------- what all these runs keep

  predicate IsRouting(e: Entity) {
    e == Items || e == Assignments || e == Escalations
  }

  ghost predicate NoRouting(files: Files) {
    forall p, e, id :: IsRouting(e) ==> LastAt(files, p, Key(e, id)) == None
  }

  /** Every line is in its logged form, and rule versions start at 1. */
  predicate LineOk(r: Record) {
    AsLogged(r) == r && (r.RuleRec? ==> r.rule.version >= 1)
  }

  ghost predicate AllLinesOk(files: Files) {
    forall p, r :: p in files && r in files[p] ==> LineOk(r)
  }

  ghost predicate Sturdy(d: Disk) {
    && WriteAhead(d)
    && AllLinesOk(d.files)
    && (d.index.rules == map[] ==> NoRouting(d.files))
  }

  predicate LinesOk(ws: seq<Write>) {
    forall w :: w in ws && Logged(w).Some? ==> LineOk(Logged(w).value)
  }

  lemma PlanLinesOk(g: Config, x: Index, call: Call, env: Env)
    requires Constraints(x) && RowsKnown(x)
    ensures var p := PlanOf(g, x, call, env); p.Commit? ==> LinesOk(p.writes)
  {
    var p := PlanOf(g, x, call, env);
    PlanSound(g, x, call, env);
    OnlyCreateRuleSavesRules(g, x, call, env);
    if p.Commit? {
      forall w | w in p.writes && Logged(w).Some? ensures LineOk(Logged(w).value) {
        assert Sound(x, w);
      }
    }
  }

  lemma OnlyCreateRuleSavesRules(g: Config, x: Index, call: Call, env: Env)
    requires RowsKnown(x)
    ensures var p := PlanOf(g, x, call, env);
      p.Commit? ==> forall w :: w in p.writes && w.Save? && w.r.RuleRec? ==> w.r.rule.version >= 1
  {
    if call.CreateRule? {
      NewVersionsStartAtOne(x, call.rule, env);
    } else {
      OtherPlansLeaveRules(g, x, call, env);
    }
  }

  lemma NewVersionsStartAtOne(x: Index, q: RuleRequest, env: Env)
    requires RowsKnown(x)
    ensures var p := CreateRulePlan(x, q, env);
      p.Commit? ==> forall w :: w in p.writes && w.Save? && w.r.RuleRec? ==> w.r.rule.version >= 1
  {
    assert IsMaxVersion(x, CurrentVersion(x));
  }

  lemma {:induction false} FiledLinesOk(d: Disk, ws: seq<Write>, i: nat, at: Time, fault: Fault)
    requires i <= |ws| && LinesOk(ws) && forall w :: w in ws ==> WellFormed(w)
    requires AllLinesOk(d.files)
    ensures AllLinesOk(RunFrom(d, ws, i, at, fault).disk.files)
    decreases |ws| - i
  {
    if i < |ws| && fault != AppendFails(i) {
      assert ws[i] in ws;
      var files := Filed(d.files, ws[i], at);
      forall p, r | p in files && r in files[p] ensures LineOk(r) {
        assert Logged(ws[i]) == Some(r) || (p in d.files && r in d.files[p]);
      }
      if fault != StatementFails(i) && Exec(d.index, ws[i]).Some? {
        FiledLinesOk(Disk(files, Exec(d.index, ws[i]).value), ws, i + 1, at, fault);
      }
    }
  }

  // ---------------------------------------------------------------- without rules

  lemma NoRulesNoCases(g: Config, x: Index)
    requires Inv(g, x)
    ensures x.rules == map[] ==> x.items == map[]
  {
    if x.items != map[] {
      var id := Any(x.items.Keys);
      assert CaseOk(g, x, x.items[id]);
    }
  }

  lemma NoChoiceWithoutRules(x: Index, at: Time, c: Case)
    requires x.rules == map[]
    ensures Choice(ActiveRules(x, at), c).None?
  {
    assert ActiveRules(x, at) == {};
  }

  predicate RoutesNothing(ws: seq<Write>) {
    forall w :: w in ws && Logged(w).Some? ==>
      !Logged(w).value.ItemRec? && !Logged(w).value.AssignmentRec? && !Logged(w).value.EscalationRec?
  }

  /** Without rules no case can be registered, and without cases none can be moved. */
  lemma WithoutRulesNothingIsRouted(g: Config, x: Index, call: Call, env: Env)
    requires x.rules == map[] && x.items == map[]
    ensures var p := PlanOf(g, x, call, env); p.Commit? ==> RoutesNothing(p.writes)
  {
    if call.Register? {
      NoChoiceWithoutRules(x, env.now, NewCase(g, call.req, env));
    }
  }

  lemma {:induction false} NoRoutingFiled(d: Disk, ws: seq<Write>, i: nat, at: Time, fault: Fault)
    requires i <= |ws| && RoutesNothing(ws) && forall w :: w in ws ==> WellFormed(w)
    requires NoRouting(d.files)
    ensures NoRouting(RunFrom(d, ws, i, at, fault).disk.files)
    decreases |ws| - i
  {
    if i < |ws| && fault != AppendFails(i) {
      assert ws[i] in ws;
      var files := Filed(d.files, ws[i], at);
      if Logged(ws[i]).Some? {
        forall p, e, id | IsRouting(e) ensures LastAt(files, p, Key(e, id)) == None {
          AppendAt(d.files, Target(ws[i], at), Logged(ws[i]).value, p, Key(e, id));
        }
      }
      if fault != StatementFails(i) && Exec(d.index, ws[i]).Some? {
        NoRoutingFiled(Disk(files, Exec(d.index, ws[i]).value), ws, i + 1, at, fault);
      }
    }
  }

  lemma RulesStay(g: Config, d: Disk, call: Call, env: Env)
    ensures Step(g, d, call, env).disk.index.rules == map[] ==> d.index.rules == map[]
  {
    StepOutcome(g, d, call, env);
    var p := PlanOf(g, d.index, call, env);
    if p.Commit? && ExecAll(d.index, p.writes).Some? {
      if call.CreateRule? {
        CreateRuleEffect(d.index, call.rule, p.value.rule, env);
      } else {
        OtherPlansLeaveRules(g, d.index, call, env);
        OtherWritesLeaveRules(d.index, p.writes);
      }
    }
  }

  lemma StepKeepsNoRouting(g: Config, d: Disk, call: Call, env: Env)
    requires Inv(g, d.index) && d.index.rules == map[] && NoRouting(d.files)
    ensures NoRouting(Step(g, d, call, env).disk.files)
  {
    var p := PlanOf(g, d.index, call, env);
    NoRulesNoCases(g, d.index);
    WithoutRulesNothingIsRouted(g, d.index, call, env);
    if p.Commit? {
      NoRoutingFiled(d, p.writes, 0, env.late, env.fault);
    }
  }

  lemma StepKeepsLinesOk(g: Config, d: Disk, call: Call, env: Env)
    requires Inv(g, d.index) && AllLinesOk(d.files)
    ensures AllLinesOk(Step(g, d, call, env).disk.files)
  {
    var p := PlanOf(g, d.index, call, env);
    PlanLinesOk(g, d.index, call, env);
    if p.Commit? {
      FiledLinesOk(d, p.writes, 0, env.late, env.fault);
    }
  }

  lemma StepKeepsSturdy(g: Config, d: Disk, call: Call, env: Env)
    requires Inv(g, d.index) && Sturdy(d)
    ensures Sturdy(Step(g, d, call, env).disk)
  {
    StepStaysAhead(g, d, call, env);
    StepKeepsLinesOk(g, d, call, env);
    RulesStay(g, d, call, env);
    if d.index.rules == map[] {
      StepKeepsNoRouting(g, d, call, env);
    }
  }

  // ---------------------------------------------------------------- rebuilding in place

  /** The files can be loaded over the live rules exactly when there are none. */
  lemma LoadsWithoutRules(d: Disk)
    requires Sturdy(d)
    ensures Loadable(d.files, d.index.rules) <==> d.index.rules == map[]
  {
    if d.index.rules != map[] {
      var v := Any(d.index.rules.Keys);
      LoggedIsMentioned(d, RuleKey(v));
      var p :| LastAt(d.files, p, RuleKey(v)).Some?;
      var r := MentionedHasLatest(d.files, p, RuleKey(v));
    } else {
      forall i, a ensures !Latest(d.files, Key(Items, i), Some(ItemRec(a))) {
        assert IsRouting(Items);
      }
    }
  }

  lemma NothingRoutedIsLoaded(files: Files, x: Index)
    requires NoRouting(files) && LoadedFrom(files, map[], x)
    ensures x.items == map[] && x.referrals == [] && x.escalations == []
  {
    forall e, id | IsRouting(e) ensures Row(x, Key(e, id)) == None {
      assert Latest(files, Key(e, id), Row(x, Key(e, id)));
    }
    forall id ensures id !in x.items {
      assert IsRouting(Items) && Row(x, Key(Items, id)) == None;
    }
    forall id ensures FindReferral(x.referrals, id) == None && FindEscalation(x.escalations, id) == None {
      assert IsRouting(Assignments) && Row(x, Key(Assignments, id)) == None;
      assert IsRouting(Escalations) && Row(x, Key(Escalations, id)) == None;
    }
    LastIsFound(x);
  }

  lemma LastIsFound(x: Index)
    ensures x.referrals != [] ==> FindReferral(x.referrals, x.referrals[|x.referrals| - 1].id).Some?
    ensures x.escalations != [] ==> FindEscalation(x.escalations, x.escalations[|x.escalations| - 1].id).Some?
  {
  }

  lemma LatestIsLine(files: Files, k: Key, r: Record)
    requires Latest(files, k, Some(r))
    ensures InLog(files, k, r)
  {
    var p :| LastAt(files, p, k) == Some(r);
  }

  /** What an in-place rebuild loads when it goes through: no case, and every other row a line of the files. */
  lemma InPlaceRebuildKeeps(g: Config, d: Disk, x: Index, e: Disk)
    requires Sturdy(d) && d.index.rules == map[] && LoadedFrom(d.files, map[], x)
    requires e.files == d.files && e.index == PostProcess(x).(manifest := e.index.manifest)
    ensures e.index.items == map[] && Inv(g, e.index) && Sturdy(e)
  {
    var y := e.index;
    NothingRoutedIsLoaded(d.files, x);
    forall k | Row(x, k).Some? ensures InLog(d.files, k, Row(x, k).value) && LineOk(Row(x, k).value) {
      assert Latest(d.files, k, Row(x, k));
      LatestIsLine(d.files, k, Row(x, k).value);
    }
    forall v | v in x.rules ensures x.rules[v].version == v >= 1 {
      assert Row(x, RuleKey(v)) == Some(RuleRec(x.rules[v]));
    }
    forall id | id in x.failures ensures x.failures[id].id == id {
      assert Row(x, Key(Failures, id)) == Some(FailureRec(x.failures[id]));
    }
    forall k | Row(y, k).Some? ensures InLog(e.files, k, LoggedRow(y, k).value) {
      PostProcessedRow(x, e.index.manifest, k);
    }
  }

  lemma PostProcessedRow(x: Index, manifest: map<Path, ManifestEntry>, k: Key)
    requires x.referrals == []
    ensures LoggedRow(PostProcess(x).(manifest := manifest), k) == LoggedRow(x, k)
  {
  }

  /**
    The invariant of the cases, and the order of the files, hold in every state that calls and
    in-place rebuilds can lead to.
   */
  lemma {:induction false} TraceKeepsInv(g: Config, acts: seq<Act>, disks: seq<Disk>, n: nat)
    requires ConfigOk(g) && IsTrace(g, acts, disks) && n <= |acts|
    ensures Inv(g, disks[n].index) && Sturdy(disks[n])
  {
    if n > 0 {
      TraceKeepsInv(g, acts, disks, n - 1);
      assert ActStep(g, disks[n - 1], acts[n - 1], disks[n]);
      ActKeepsInv(g, disks[n - 1], acts[n - 1], disks[n]);
    }
  }

  lemma ActKeepsInv(g: Config, before: Disk, act: Act, after: Disk)
    requires ConfigOk(g) && Inv(g, before.index) && Sturdy(before) && ActStep(g, before, act, after)
    ensures Inv(g, after.index) && Sturdy(after)
  {
    match act
    case Serve(e) =>
      StepKeepsInv(g, before, e.call, e.env);
      StepKeepsSturdy(g, before, e.call, e.env);
    case RebuildInPlace(commitOk) =>
      LoadsWithoutRules(before);
      if commitOk && Loadable(before.files, before.index.rules) {
        var x :| LoadedFrom(before.files, before.index.rules, x) && after.index == PostProcess(x).(manifest := after.index.manifest);
        InPlaceRebuildKeeps(g, before, x, after);
      }
  }

  /** Once there is a case, an in-place rebuild changes nothing. */
  lemma RebuildsAreRefused(g: Config, before: Disk, commitOk: bool, after: Disk)
    requires Inv(g, before.index) && Sturdy(before) && before.index.items != map[] && Rebuilt(before, after, commitOk)
    ensures after.index == before.index
  {
    LoadsWithoutRules(before);
    NoRulesNoCases(g, before.index);
  }

  /**
    An in-place rebuild of all the files is possible exactly while there are no rules, in every
    state, whatever was rolled back or rebuilt before: DELETE leaves the rules table alone, so the
    first logged rule clashes. Then there is no case either, before or after.
   */
  lemma RebuildNeedsNoRules(g: Config, acts: seq<Act>, disks: seq<Disk>)
    requires ConfigOk(g) && IsTrace(g, acts, disks)
    ensures var d := disks[|acts|];
      && (Loadable(d.files, d.index.rules) <==> d.index.rules == map[])
      && (d.index.rules == map[] ==>
            d.index.items == map[] && forall x :: LoadedFrom(d.files, d.index.rules, x) ==> PostProcess(x).items == map[])
  {
    var d := disks[|acts|];
    TraceKeepsInv(g, acts, disks, |acts|);
    LoadsWithoutRules(d);
    NoRulesNoCases(g, d.index);
    if d.index.rules == map[] {
      forall x | LoadedFrom(d.files, d.index.rules, x) ensures PostProcess(x).items == map[] {
        NothingRoutedIsLoaded(d.files, x);
      }
    }
  }

  /** The same for a run of calls alone. */
  lemma RunNeedsNoRules(g: Config, events: seq<Event>)
    requires ConfigOk(g)
    ensures var d := Run(g, EMPTY_DISK, events);
      Loadable(d.files, d.index.rules) <==> d.index.rules == map[]
  {
    var acts, disks := RunsAreTraces(g, events);
    RebuildNeedsNoRules(g, acts, disks);
  }

  /** `hubctl rebuild-index` with all files readable is the act. */
  method RunRebuildIndex(s: Store, hash: Hash, now: Time, commitOk: bool) returns (report: RebuildReport, ok: bool)
    requires s.Valid()
    modifies s
    ensures Rebuilt(old(s.State()), s.State(), commitOk)
    ensures ok <==> commitOk && Loadable(s.files, old(s.index.rules))
  {
    ghost var before, loaded, collected := s.State(), s.index, map[];
    assert Readable(s.files, s.files.Keys) == s.files;
    report, ok, loaded, collected := RebuildIndex(s, s.files.Keys, hash, now, commitOk);
    if ok {
      assert LoadedFrom(before.files, before.index.rules, loaded) && s.index == PostProcess(loaded).(manifest := s.index.manifest);
    }
  }
}
