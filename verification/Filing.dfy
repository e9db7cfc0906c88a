/**
  The lines that a run appends, in the order in which it appends them, rollbacks included. The files
  of the run are these lines and nothing else; and where the days of a key's lines do not go back,
  the last line filed for it is its latest record.
 */
module Filing {
  import opened Domain
  import opened Tables
  import opened Repo
  import opened Agreement
  import opened Workflow
  import opened LogTheorems

  datatype Line = Line(path: Path, record: Record)

  function AppendAll(files: Files, lines: seq<Line>): Files {
    if |lines| == 0 then files
    else
      var last := lines[|lines| - 1];
      Append(AppendAll(files, lines[..|lines| - 1]), last.path, last.record)
  }

  function WriteLines(w: Write, at: Time): seq<Line>
    requires WellFormed(w)
  {
    if Logged(w).None? then [] else [Line(Target(w, at), Logged(w).value)]
  }

  /** The lines that writes i, i+1, .. of a transaction append before its first error. */
  function LinesFrom(x: Index, ws: seq<Write>, i: nat, at: Time, fault: Fault): seq<Line>
    requires i <= |ws| && forall w :: w in ws ==> WellFormed(w)
    decreases |ws| - i
  {
    if i == |ws| || fault == AppendFails(i) then []
    else if fault == StatementFails(i) || Exec(x, ws[i]).None? then WriteLines(ws[i], at)
    else WriteLines(ws[i], at) + LinesFrom(Exec(x, ws[i]).value, ws, i + 1, at, fault)
  }

  ghost function StepLines(g: Config, d: Disk, e: Event): seq<Line> {
    var p := PlanOf(g, d.index, e.call, e.env);
    if p.Commit? then LinesFrom(d.index, p.writes, 0, e.env.late, e.env.fault) else []
  }

  ghost function RunLines(g: Config, events: seq<Event>): seq<Line> {
    if |events| == 0 then []
    else
      var before := events[..|events| - 1];
      RunLines(g, before) + StepLines(g, Run(g, EMPTY_DISK, before), events[|events| - 1])
  }

  // ---------------------------------------------------------------- the files are these lines

  lemma {:induction false} AppendAllJoin(files: Files, a: seq<Line>, b: seq<Line>)
    ensures AppendAll(AppendAll(files, a), b) == AppendAll(files, a + b)
    decreases |b|
  {
    if |b| == 0 {
      assert a + b == a;
    } else {
      var n := |b| - 1;
      assert (a + b)[..|a| + n] == a + b[..n];
      AppendAllJoin(files, a, b[..n]);
    }
  }

  lemma WriteAppends(files: Files, w: Write, at: Time)
    requires WellFormed(w)
    ensures Filed(files, w, at) == AppendAll(files, WriteLines(w, at))
  {
    if Logged(w).Some? {
      var l := Line(Target(w, at), Logged(w).value);
      assert [l][..0] == [];
      assert AppendAll(files, [l]) == Append(AppendAll(files, []), l.path, l.record);
    }
  }

  lemma {:induction false} TransactionAppends(d: Disk, ws: seq<Write>, i: nat, at: Time, fault: Fault)
    requires i <= |ws| && forall w :: w in ws ==> WellFormed(w)
    ensures RunFrom(d, ws, i, at, fault).disk.files == AppendAll(d.files, LinesFrom(d.index, ws, i, at, fault))
    decreases |ws| - i
  {
    if i == |ws| || fault == AppendFails(i) {
    } else {
      var files, o := Filed(d.files, ws[i], at), Exec(d.index, ws[i]);
      RunFromNext(d, ws, i, at, fault);
      WriteAppends(d.files, ws[i], at);
      if fault != StatementFails(i) && o.Some? {
        TransactionAppends(Disk(files, o.value), ws, i + 1, at, fault);
        AppendAllJoin(d.files, WriteLines(ws[i], at), LinesFrom(o.value, ws, i + 1, at, fault));
      }
    }
  }

  lemma StepAppends(g: Config, d: Disk, e: Event)
    ensures Step(g, d, e.call, e.env).disk.files == AppendAll(d.files, StepLines(g, d, e))
  {
    var p := PlanOf(g, d.index, e.call, e.env);
    if p.Commit? {
      TransactionAppends(d, p.writes, 0, e.env.late, e.env.fault);
    }
  }

  /** The files of any run are the lines it appended, and no others. */
  lemma {:induction false} RunAppends(g: Config, events: seq<Event>)
    ensures Run(g, EMPTY_DISK, events).files == AppendAll(map[], RunLines(g, events))
  {
    if |events| > 0 {
      var before, last := events[..|events| - 1], events[|events| - 1];
      RunAppends(g, before);
      StepAppends(g, Run(g, EMPTY_DISK, before), last);
      AppendAllJoin(map[], RunLines(g, before), StepLines(g, Run(g, EMPTY_DISK, before), last));
    }
  }

  // ---------------------------------------------------------------- the last line of a key

  /** A line goes to a file of the entity it is a record of. */
  predicate Placed(l: Line) {
    !l.record.Malformed? && l.path.entity == EntityOf(KeyOf(l.record))
  }

  function LastFiled(lines: seq<Line>, k: Key): Option<Record> {
    if |lines| == 0 then None
    else
      var last := lines[|lines| - 1];
      if Names(last.record, k) then Some(last.record) else LastFiled(lines[..|lines| - 1], k)
  }

  /** No line of the key was filed on an earlier day than one before it. */
  ghost predicate Rises(lines: seq<Line>, k: Key) {
    forall i, j :: 0 <= i < j < |lines| && Names(lines[i].record, k) && Names(lines[j].record, k) ==>
      lines[i].path.day <= lines[j].path.day
  }

  lemma WriteLinePlaced(w: Write, at: Time)
    requires WellFormed(w)
    ensures forall l :: l in WriteLines(w, at) ==> Placed(l)
  {
  }

  lemma {:induction false} LinesArePlaced(x: Index, ws: seq<Write>, i: nat, at: Time, fault: Fault)
    requires i <= |ws| && forall w :: w in ws ==> WellFormed(w)
    ensures forall l :: l in LinesFrom(x, ws, i, at, fault) ==> Placed(l)
    decreases |ws| - i
  {
    if i < |ws| {
      WriteLinePlaced(ws[i], at);
      if fault != AppendFails(i) && fault != StatementFails(i) && Exec(x, ws[i]).Some? {
        LinesArePlaced(Exec(x, ws[i]).value, ws, i + 1, at, fault);
      }
    }
  }

  lemma {:induction false} RunLinesPlaced(g: Config, events: seq<Event>)
    ensures forall l :: l in RunLines(g, events) ==> Placed(l)
  {
    if |events| > 0 {
      var before, last := events[..|events| - 1], events[|events| - 1];
      RunLinesPlaced(g, before);
      StepLinesPlaced(g, Run(g, EMPTY_DISK, before), last);
    }
  }

  lemma StepLinesPlaced(g: Config, d: Disk, e: Event)
    ensures forall l :: l in StepLines(g, d, e) ==> Placed(l)
  {
    var p := PlanOf(g, d.index, e.call, e.env);
    if p.Commit? {
      LinesArePlaced(d.index, p.writes, 0, e.env.late, e.env.fault);
    }
  }

  /** A file mentions a key only on the day of one of its lines. */
  lemma {:induction false} MentionedByLine(lines: seq<Line>, p: Path, k: Key)
    requires forall l :: l in lines ==> Placed(l)
    ensures LastAt(AppendAll(map[], lines), p, k).Some? ==>
      exists i :: 0 <= i < |lines| && Names(lines[i].record, k) && lines[i].path == p
  {
    if |lines| > 0 {
      var n := |lines| - 1;
      assert lines[n] in lines && forall l :: l in lines[..n] ==> l in lines;
      MentionedByLine(lines[..n], p, k);
      AppendAt(AppendAll(map[], lines[..n]), lines[n].path, lines[n].record, p, k);
    }
  }

  lemma {:induction false} LastFiledIsLatest(lines: seq<Line>, k: Key)
    requires (forall l :: l in lines ==> Placed(l)) && Rises(lines, k)
    ensures Latest(AppendAll(map[], lines), k, LastFiled(lines, k))
  {
    if |lines| > 0 {
      var n := |lines| - 1;
      var before, last := lines[..n], lines[n];
      assert last in lines && forall l :: l in before ==> l in lines;
      LastFiledIsLatest(before, k);
      if Names(last.record, k) {
        forall q | PathBefore(last.path, q) ensures LastAt(AppendAll(map[], before), q, k) == None {
          MentionedByLine(before, q, k);
        }
      }
      AppendLatest(AppendAll(map[], before), last.path, last.record, k, LastFiled(before, k));
    }
  }

  /**
    After any run, whatever was rolled back and retried in it: a key whose lines were filed on days
    that do not go back agrees with its row if and only if the last line filed for it is that row
    as logged.
   */
  lemma KeyAgreesExactly(g: Config, events: seq<Event>, k: Key)
    requires Rises(RunLines(g, events), k)
    ensures var d := Run(g, EMPTY_DISK, events);
      Latest(d.files, k, LoggedRow(d.index, k)) <==> LastFiled(RunLines(g, events), k) == LoggedRow(d.index, k)
  {
    var d, lines := Run(g, EMPTY_DISK, events), RunLines(g, events);
    RunAppends(g, events);
    RunLinesPlaced(g, events);
    LastFiledIsLatest(lines, k);
    if Latest(d.files, k, LoggedRow(d.index, k)) {
      LatestUnique(d.files, k, LoggedRow(d.index, k), LastFiled(lines, k));
    }
  }

  // ---------------------------------------------------------------- days that do not go back

  /** No call is dated on an earlier day than the one on which the store was done with the call before it. */
  predicate InOrder(events: seq<Event>) {
    && (forall i :: 0 <= i < |events| ==> events[i].env.now <= events[i].env.late)
    && (forall i :: 0 < i < |events| ==> Day(events[i - 1].env.late) <= Day(events[i].env.now))
  }

  /** The date under which a call files a line of an entity. Failures are filed under their first one. */
  function DateOf(call: Call, env: Env, e: Entity): Time {
    if (e == Items && !call.Register?) || (e == Audit && IsCaseCall(call)) then env.late else env.now
  }

  predicate DatedByCall(w: Write, call: Call, env: Env) {
    WellFormed(w) && Logged(w).Some? && EntityOf(KeyOf(Logged(w).value)) != Failures ==>
      FilingTime(w, env.late) == DateOf(call, env, EntityOf(KeyOf(Logged(w).value)))
  }

  lemma CaseWritesAreDated(x: Index, call: Call, env: Env)
    requires IsCaseCall(call)
    ensures var p := CasePlan(x, call, env); p.Commit? ==> forall w :: w in p.writes ==> DatedByCall(w, call, env)
  {
  }

  lemma RegisterWritesAreDated(g: Config, x: Index, req: RegisterRequest, env: Env)
    ensures var p := RegisterPlan(g, x, req, env); p.Commit? ==> forall w :: w in p.writes ==> DatedByCall(w, Call.Register(req), env)
  {
  }

  lemma SweepWritesAreDated(g: Config, x: Index, call: Call, env: Env)
    requires call.Escalate? || call.Reevaluate?
    ensures var p := PlanOf(g, x, call, env); p.Commit? ==> forall w :: w in p.writes ==> DatedByCall(w, call, env)
  {
  }

  lemma WritesAreDated(g: Config, x: Index, call: Call, env: Env)
    ensures var p := PlanOf(g, x, call, env); p.Commit? ==> forall w :: w in p.writes ==> DatedByCall(w, call, env)
  {
    if IsCaseCall(call) {
      CaseWritesAreDated(x, call, env);
    } else if call.Register? {
      RegisterWritesAreDated(g, x, call.req, env);
    } else if call.Escalate? || call.Reevaluate? {
      SweepWritesAreDated(g, x, call, env);
    }
  }

  lemma {:induction false} LinesAreDated(x: Index, ws: seq<Write>, i: nat, fault: Fault, call: Call, env: Env)
    requires i <= |ws| && forall w :: w in ws ==> WellFormed(w)
    requires forall w :: w in ws ==> DatedByCall(w, call, env)
    ensures forall l :: l in LinesFrom(x, ws, i, env.late, fault) && l.path.entity != Failures ==>
      l.path.day == Day(DateOf(call, env, l.path.entity))
    decreases |ws| - i
  {
    if i < |ws| {
      assert DatedByCall(ws[i], call, env);
      assert forall l :: l in WriteLines(ws[i], env.late) && l.path.entity != Failures ==>
        l.path.day == Day(DateOf(call, env, l.path.entity));
      if fault != AppendFails(i) && fault != StatementFails(i) && Exec(x, ws[i]).Some? {
        LinesAreDated(Exec(x, ws[i]).value, ws, i + 1, fault, call, env);
      }
    }
  }

  lemma StepLinesDated(g: Config, d: Disk, e: Event)
    ensures forall l :: l in StepLines(g, d, e) && l.path.entity != Failures ==>
      l.path.day == Day(DateOf(e.call, e.env, l.path.entity))
  {
    var p := PlanOf(g, d.index, e.call, e.env);
    if p.Commit? {
      WritesAreDated(g, d.index, e.call, e.env);
      LinesAreDated(d.index, p.writes, 0, e.env.fault, e.call, e.env);
    }
  }

  lemma RisesOn(a: seq<Line>, b: seq<Line>, k: Key, until: int, day: int)
    requires Rises(a, k) && until <= day
    requires forall l :: l in a && Names(l.record, k) ==> l.path.day <= until
    requires forall l :: l in b && Names(l.record, k) ==> l.path.day == day
    ensures Rises(a + b, k)
    ensures forall l :: l in a + b && Names(l.record, k) ==> l.path.day <= day
  {
    forall i | 0 <= i < |a + b| ensures (a + b)[i] == if i < |a| then a[i] else b[i - |a|] {
    }
    assert forall i :: 0 <= i < |a| ==> a[i] in a;
    assert forall i :: 0 <= i < |b| ==> b[i] in b;
  }

  /**
    When the days of the calls do not go back, neither do those of the lines of any key, but for
    scheduler failures: they are dated back to their first attempt.
   */
  lemma {:induction false} RunLinesRise(g: Config, events: seq<Event>, k: Key)
    requires InOrder(events) && EntityOf(k) != Failures
    ensures Rises(RunLines(g, events), k)
    ensures |events| > 0 ==> forall l :: l in RunLines(g, events) && Names(l.record, k) ==>
      l.path.day <= Day(events[|events| - 1].env.late)
    ensures |events| == 0 ==> RunLines(g, events) == []
  {
    if |events| > 0 {
      var n := |events| - 1;
      var d, last := Run(g, EMPTY_DISK, events[..n]), events[n];
      RunLinesRise(g, events[..n], k);
      StepLinesDated(g, d, last);
      StepLinesPlaced(g, d, last);
      var day := Day(DateOf(last.call, last.env, EntityOf(k)));
      DayRises(last.env.now, last.env.late);
      if n > 0 {
        RisesOn(RunLines(g, events[..n]), StepLines(g, d, last), k, Day(events[n - 1].env.late), day);
      } else {
        RisesOn([], StepLines(g, d, last), k, day, day);
      }
    }
  }

  lemma DayRises(s: Time, t: Time)
    requires s <= t
    ensures Day(s) <= Day(t)
  {
  }

  /**
    So after any such run, with any faults, the files and the tables agree on a case, rule, referral,
    escalation, audit entry or batch if and only if the last line that was filed for it, by a call
    that committed or by one that did not, is its row as logged.
   */
  lemma RunAgreesExactly(g: Config, events: seq<Event>, k: Key)
    requires InOrder(events) && EntityOf(k) != Failures
    ensures var d := Run(g, EMPTY_DISK, events);
      Latest(d.files, k, LoggedRow(d.index, k)) <==> LastFiled(RunLines(g, events), k) == LoggedRow(d.index, k)
  {
    RunLinesRise(g, events, k);
    KeyAgreesExactly(g, events, k);
  }
}
