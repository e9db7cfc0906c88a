/**
  What a rolled-back transaction does to a later rebuild. Its lines stay in the files: it is said
  exactly when that is harmless, and what a registration that is rolled back and retried leads to.
 */
module Rollbacks {
  import opened Domain
  import opened Tables
  import opened Repo
  import opened Agreement
  import opened Workflow
  import opened Lifecycle
  import opened CaseTheorems
  import opened LogTheorems
  import opened Rebuild

  // ---------------------------------------------------------------- the lines a transaction files

  predicate LineOf(w: Write, k: Key)
    requires WellFormed(w)
  {
    Logged(w).Some? && Names(Logged(w).value, k)
  }

  /** The line with key `k` among those that writes i, i+1, .. file before the first error. */
  function FiledLine(x: Index, ws: seq<Write>, i: nat, fault: Fault, k: Key): Option<Record>
    requires i <= |ws| && forall w :: w in ws ==> WellFormed(w)
    decreases |ws| - i
  {
    if i == |ws| || fault == AppendFails(i) then None
    else if LineOf(ws[i], k) then Logged(ws[i])
    else if fault == StatementFails(i) || Exec(x, ws[i]).None? then None
    else FiledLine(Exec(x, ws[i]).value, ws, i + 1, fault, k)
  }

  predicate KeysDistinct(ws: seq<Write>, i: nat, k: Key)
    requires forall w :: w in ws ==> WellFormed(w)
  {
    forall j, l :: i <= j < l < |ws| && LineOf(ws[j], k) ==> !LineOf(ws[l], k)
  }

  /** No file after `p` mentions `k`. */
  ghost predicate Unshadowed(files: Files, p: Path, k: Key) {
    forall q :: PathBefore(p, q) ==> LastAt(files, q, k) == None
  }

  /** Writes of other keys leave a key's latest record alone. */
  lemma {:induction false} OtherKeysKeepLatest(d: Disk, ws: seq<Write>, i: nat, at: Time, fault: Fault, k: Key, o: Option<Record>)
    requires i <= |ws| && forall w :: w in ws ==> WellFormed(w)
    requires forall j :: i <= j < |ws| ==> !LineOf(ws[j], k)
    requires Latest(d.files, k, o)
    ensures Latest(RunFrom(d, ws, i, at, fault).disk.files, k, o)
    decreases |ws| - i
  {
    if i < |ws| && fault != AppendFails(i) {
      var files := Filed(d.files, ws[i], at);
      if Logged(ws[i]).Some? {
        AppendLatest(d.files, Target(ws[i], at), Logged(ws[i]).value, k, o);
      }
      if fault != StatementFails(i) && Exec(d.index, ws[i]).Some? {
        OtherKeysKeepLatest(Disk(files, Exec(d.index, ws[i]).value), ws, i + 1, at, fault, k, o);
      }
    }
  }

  /** The line a transaction files for a key becomes the key's latest record, whatever becomes of the transaction. */
  lemma {:induction false} FiledLineIsLatest(d: Disk, ws: seq<Write>, i: nat, at: Time, fault: Fault, k: Key, o: Option<Record>)
    requires i <= |ws| && forall w :: w in ws ==> WellFormed(w)
    requires KeysDistinct(ws, i, k) && Latest(d.files, k, o)
    requires forall j :: i <= j < |ws| && LineOf(ws[j], k) ==> Unshadowed(d.files, Target(ws[j], at), k)
    ensures var line := FiledLine(d.index, ws, i, fault, k);
      Latest(RunFrom(d, ws, i, at, fault).disk.files, k, if line.Some? then line else o)
    decreases |ws| - i
  {
    if i < |ws| && fault != AppendFails(i) {
      var w, files := ws[i], Filed(d.files, ws[i], at);
      if LineOf(w, k) {
        AppendLatest(d.files, Target(w, at), Logged(w).value, k, o);
        if fault != StatementFails(i) && Exec(d.index, w).Some? {
          OtherKeysKeepLatest(Disk(files, Exec(d.index, w).value), ws, i + 1, at, fault, k, Logged(w));
        }
      } else {
        if Logged(w).Some? {
          AppendLatest(d.files, Target(w, at), Logged(w).value, k, o);
        }
        if fault != StatementFails(i) && Exec(d.index, w).Some? {
          forall j | i + 1 <= j < |ws| && LineOf(ws[j], k) ensures Unshadowed(files, Target(ws[j], at), k) {
            FiledElsewhere(d.files, w, at, k);
            assert Unshadowed(d.files, Target(ws[j], at), k);
          }
          FiledLineIsLatest(Disk(files, Exec(d.index, w).value), ws, i + 1, at, fault, k, o);
        }
      }
    }
  }

  lemma FiledElsewhere(files: Files, w: Write, at: Time, k: Key)
    requires WellFormed(w) && !LineOf(w, k)
    ensures forall q :: LastAt(Filed(files, w, at), q, k) == LastAt(files, q, k)
  {
    if Logged(w).Some? {
      forall q ensures LastAt(Filed(files, w, at), q, k) == LastAt(files, q, k) {
        AppendAt(files, Target(w, at), Logged(w).value, q, k);
      }
    }
  }

  // ---------------------------------------------------------------- when a rollback is harmless

  /** New rows have new keys, and no key is written twice. */
  ghost predicate FreshKeys(x: Index, ws: seq<Write>)
    requires forall w :: w in ws ==> WellFormed(w)
  {
    && (forall w :: w in ws && WellFormed(w) && w.Save? ==> Row(x, KeyOf(w.r)) == None)
    && (forall k :: KeysDistinct(ws, 0, k))
  }

  lemma TargetsUnshadowed(d: Disk, w: Write, at: Time, k: Key)
    requires Agrees(d) && Horizon(d.files, at) && WellFormed(w) && LineOf(w, k)
    requires w.Save? ==> Row(d.index, KeyOf(w.r)) == None
    ensures Unshadowed(d.files, Target(w, at), k)
  {
    assert Latest(d.files, k, LoggedRow(d.index, k));
    forall q | PathBefore(Target(w, at), q) ensures LastAt(d.files, q, k) == None {
      if w.Save? {
        assert LoggedRow(d.index, k) == None;
      }
    }
  }

  /**
    A rolled-back transaction leaves files and tables in agreement exactly when every line it
    filed says what the row of its key says already.
   */
  lemma RollbackAgreesExactly(d: Disk, ws: seq<Write>, at: Time, fault: Fault)
    requires forall w :: w in ws ==> WellFormed(w)
    requires Agrees(d) && Horizon(d.files, at) && FreshKeys(d.index, ws)
    requires !Transact(d, ws, at, fault).ok
    ensures Agrees(Transact(d, ws, at, fault).disk) <==>
      forall k :: FiledLine(d.index, ws, 0, fault, k).Some? ==> FiledLine(d.index, ws, 0, fault, k) == LoggedRow(d.index, k)
  {
    var after := Transact(d, ws, at, fault).disk;
    forall k ensures Latest(after.files, k, LoggedRow(d.index, k)) <==>
        (FiledLine(d.index, ws, 0, fault, k).Some? ==> FiledLine(d.index, ws, 0, fault, k) == LoggedRow(d.index, k))
    {
      var o, line := LoggedRow(d.index, k), FiledLine(d.index, ws, 0, fault, k);
      assert Latest(d.files, k, o);
      forall j | 0 <= j < |ws| && LineOf(ws[j], k) ensures Unshadowed(d.files, Target(ws[j], at), k) {
        TargetsUnshadowed(d, ws[j], at, k);
      }
      FiledLineIsLatest(d, ws, 0, at, fault, k, o);
      if line.Some? && Latest(after.files, k, o) {
        LatestUnique(after.files, k, o, line);
      }
    }
  }

  /** The same for a call: it keeps agreement if it is refused, commits, or files only what is known. */
  lemma CallAgreesExactly(g: Config, d: Disk, e: Event)
    requires Constraints(d.index) && Agrees(d) && Horizon(d.files, e.env.late)
    requires e.env.now <= e.env.late && BackoffOk(e.call)
    requires var p := PlanOf(g, d.index, e.call, e.env); p.Commit? ==> FreshKeys(d.index, p.writes)
    ensures var p, reply := PlanOf(g, d.index, e.call, e.env), Step(g, d, e.call, e.env);
      Agrees(reply.disk) <==> !p.Commit? || reply.result.Ok? || forall k ::
        FiledLine(d.index, p.writes, 0, e.env.fault, k).Some? ==>
          FiledLine(d.index, p.writes, 0, e.env.fault, k) == LoggedRow(d.index, k)
  {
    var p := PlanOf(g, d.index, e.call, e.env);
    if p.Commit? {
      if Transact(d, p.writes, e.env.late, e.env.fault).ok {
        StepAgrees(g, d, e);
      } else {
        RollbackAgreesExactly(d, p.writes, e.env.late, e.env.fault);
      }
    }
  }

  // ---------------------------------------------------------------- registrations

  /** A registration that got past the append of its case. */
  lemma FiledCaseIsLatest(g: Config, d: Disk, req: RegisterRequest, env: Env)
    requires RegisterPlan(g, d.index, req, env).Commit? && env.fault != AppendFails(0)
    requires Latest(d.files, Key(Items, env.uuid1), None)
    ensures Latest(Step(g, d, Register(req), env).disk.files, Key(Items, env.uuid1),
                   Some(ItemRec(RegisterPlan(g, d.index, req, env).value.item)))
  {
    var p, k := RegisterPlan(g, d.index, req, env), Key(Items, env.uuid1);
    assert LineOf(p.writes[0], k) && !LineOf(p.writes[1], k) && !LineOf(p.writes[2], k);
    assert Unshadowed(d.files, Target(p.writes[0], env.late), k);
    FiledLineIsLatest(d, p.writes, 0, env.late, env.fault, k, None);
  }

  lemma LineWithoutRow(d: Disk, k: Key, r: Record)
    requires Latest(d.files, k, Some(r)) && Row(d.index, k) == None
    ensures !Agrees(d)
  {
    if Latest(d.files, k, LoggedRow(d.index, k)) {
      LatestUnique(d.files, k, Some(r), None);
    }
  }

  /**
    A registration under a fresh id keeps files and tables in agreement exactly when it is
    answered Ok, or nothing of it was filed. A failed commit, a failed or refused statement and a
    failed append of a later line all leave a case in the files that the tables do not have.
   */
  lemma RegistrationAgreesExactly(g: Config, d: Disk, req: RegisterRequest, env: Env)
    requires Constraints(d.index) && Agrees(d) && Horizon(d.files, env.late) && env.now <= env.late
    requires env.uuid1 !in d.index.items
    ensures var reply := Step(g, d, Register(req), env);
      Agrees(reply.disk) <==>
        !RegisterPlan(g, d.index, req, env).Commit? || reply.result.Ok? || env.fault == AppendFails(0)
  {
    var p, reply, k := RegisterPlan(g, d.index, req, env), Step(g, d, Register(req), env), Key(Items, env.uuid1);
    if p.Commit? {
      if reply.result.Ok? {
        StepAgrees(g, d, Event(Register(req), env));
      } else if env.fault != AppendFails(0) {
        assert Latest(d.files, k, LoggedRow(d.index, k)) && Row(d.index, k) == None;
        FiledCaseIsLatest(g, d, req, env);
        LineWithoutRow(reply.disk, k, ItemRec(p.value.item));
      }
    }
  }

  // ---------------------------------------------------------------- ghosts

  /** No line of any file carries the id of a new case. */
  ghost predicate UnusedId(files: Files, call: Call, env: Env) {
    call.Register? ==> Latest(files, Key(Items, env.uuid1), None)
  }

  ghost predicate UnusedIds(g: Config, d: Disk, events: seq<Event>) {
    forall i :: 0 <= i < |events| ==> UnusedId(Run(g, d, events[..i]).files, events[i].call, events[i].env)
  }

  lemma UnusedIdsBefore(g: Config, d: Disk, events: seq<Event>)
    requires |events| > 0 && UnusedIds(g, d, events)
    ensures UnusedIds(g, d, events[..|events| - 1])
    ensures var last := events[|events| - 1];
      UnusedId(Run(g, d, events[..|events| - 1]).files, last.call, last.env)
  {
    var before := events[..|events| - 1];
    forall i | 0 <= i < |before| ensures UnusedId(Run(g, d, before[..i]).files, before[i].call, before[i].env) {
      assert before[..i] == events[..i] && before[i] == events[i];
    }
  }

  predicate HasRef(r: Record, ref: string) {
    r.ItemRec? && r.item.externalRef == ref
  }

  /** A case is saved by its registration alone; everything else updates a row. */
  lemma OnlyRegistrationsSaveCases(g: Config, x: Index, call: Call, env: Env)
    ensures var p := PlanOf(g, x, call, env);
      p.Commit? ==> forall w :: w in p.writes && w.Save? && w.r.ItemRec? ==> call.Register? && w.r.item.id == env.uuid1
  {
    if IsCaseCall(call) {
      CaseCallsSaveNoCases(x, call, env);
    }
  }

  lemma CaseCallsSaveNoCases(x: Index, call: Call, env: Env)
    requires IsCaseCall(call)
    ensures var p := CasePlan(x, call, env); p.Commit? ==> forall w :: w in p.writes && w.Save? ==> !w.r.ItemRec?
  {
  }

  lemma SoundLineHasRef(x: Index, w: Write, id: string)
    requires Sound(x, w) && Constraints(x) && LineOf(w, Key(Items, id)) && !w.Save?
    ensures id in x.items && HasRef(Logged(w).value, x.items[id].externalRef)
  {
  }

  /** Only a registration of that id writes the line of a case that has no row. */
  lemma UnknownCaseIsNotWritten(g: Config, x: Index, call: Call, env: Env, id: string)
    requires Constraints(x) && id !in x.items && !(call.Register? && env.uuid1 == id)
    ensures var p := PlanOf(g, x, call, env);
      p.Commit? ==> forall w :: w in p.writes && WellFormed(w) ==> !LineOf(w, Key(Items, id))
  {
    var p := PlanOf(g, x, call, env);
    PlanSound(g, x, call, env);
    OnlyRegistrationsSaveCases(g, x, call, env);
    if p.Commit? {
      SoundWritesSpare(x, p.writes, id);
    }
  }

  lemma SoundWritesSpare(x: Index, ws: seq<Write>, id: string)
    requires Constraints(x) && id !in x.items && AllSound(x, ws)
    requires forall w :: w in ws && w.Save? && w.r.ItemRec? ==> w.r.item.id != id
    ensures forall w :: w in ws && WellFormed(w) ==> !LineOf(w, Key(Items, id))
  {
    forall w | w in ws && WellFormed(w) ensures !LineOf(w, Key(Items, id)) {
      assert Sound(x, w);
      if LineOf(w, Key(Items, id)) && !w.Save? {
        SoundLineHasRef(x, w, id);
      }
    }
  }

  /** A case in the files without a row: no call brings its row back, and its line stays the latest. */
  ghost predicate Ghost(d: Disk, c: Case) {
    c.id !in d.index.items && Latest(d.files, Key(Items, c.id), Some(ItemRec(c)))
  }

  lemma StepLeavesKey(g: Config, d: Disk, call: Call, env: Env, k: Key, o: Option<Record>)
    requires Latest(d.files, k, o)
    requires var p := PlanOf(g, d.index, call, env);
      p.Commit? ==> forall w :: w in p.writes && WellFormed(w) ==> !LineOf(w, k)
    ensures Latest(Step(g, d, call, env).disk.files, k, o)
  {
    var p := PlanOf(g, d.index, call, env);
    if p.Commit? {
      OtherKeysKeepLatest(d, p.writes, 0, env.late, env.fault, k, o);
    }
  }

  lemma StepKeepsGhost(g: Config, d: Disk, call: Call, env: Env, c: Case)
    requires Inv(g, d.index) && Ghost(d, c) && UnusedId(d.files, call, env)
    ensures Ghost(Step(g, d, call, env).disk, c)
  {
    NotTheGhost(d, call, env, c);
    UnknownCaseIsNotWritten(g, d.index, call, env, c.id);
    StepLeavesKey(g, d, call, env, Key(Items, c.id), Some(ItemRec(c)));
    NoRowAppears(g, d, call, env, c.id);
  }

  lemma NotTheGhost(d: Disk, call: Call, env: Env, c: Case)
    requires Ghost(d, c) && UnusedId(d.files, call, env)
    ensures call.Register? ==> env.uuid1 != c.id
  {
    if call.Register? && Latest(d.files, Key(Items, c.id), None) {
      LatestUnique(d.files, Key(Items, c.id), Some(ItemRec(c)), None);
    }
  }

  lemma NoRowAppears(g: Config, d: Disk, call: Call, env: Env, id: string)
    requires Inv(g, d.index) && id !in d.index.items && !(call.Register? && env.uuid1 == id)
    ensures id !in Step(g, d, call, env).disk.index.items
  {
    if Subject(call, env) == id {
      if IsCaseCall(call) || call.Escalate? || call.Reevaluate? {
        assert !PlanOf(g, d.index, call, env).Commit?;
      } else {
        OtherCallsLeaveCases(g, d.index, call, env);
        StepOutcome(g, d, call, env);
      }
    } else {
      StepTouches(g, d, call, env);
    }
  }

  lemma {:induction false} GhostsStay(g: Config, d: Disk, events: seq<Event>, c: Case)
    requires ConfigOk(g) && Inv(g, d.index) && Ghost(d, c) && UnusedIds(g, d, events)
    ensures Ghost(Run(g, d, events), c)
  {
    if |events| > 0 {
      var before, last := events[..|events| - 1], events[|events| - 1];
      UnusedIdsBefore(g, d, events);
      GhostsStay(g, d, before, c);
      RunKeepsInv(g, d, before);
      StepKeepsGhost(g, Run(g, d, before), last.call, last.env, c);
    }
  }

  /** The latest record of a case in the files has the external reference of its row. */
  ghost predicate RefLogged(files: Files, id: string, ref: string) {
    exists c: Case :: Latest(files, Key(Items, id), Some(ItemRec(c))) && c.externalRef == ref
  }

  ghost predicate RefsLogged(d: Disk) {
    forall id :: id in d.index.items ==> RefLogged(d.files, id, d.index.items[id].externalRef)
  }

  /** After an append the latest record of a key is the one it was, or the new one. */
  lemma AppendMoves(files: Files, p: Path, r: Record, k: Key, o: Option<Record>) returns (n: Option<Record>)
    requires !r.Malformed? && p.entity == EntityOf(KeyOf(r)) && Latest(files, k, o)
    ensures n == o || (k == KeyOf(r) && n == Some(r))
    ensures Latest(Append(files, p, r), k, n)
  {
    if k == KeyOf(r) && !Unshadowed(files, p, k) {
      n := o;
      forall q ensures q != p ==> LastAt(Append(files, p, r), q, k) == LastAt(files, q, k) {
        AppendAt(files, p, r, q, k);
      }
      var later :| PathBefore(p, later) && LastAt(files, later, k) != None;
      var q :| LastAt(files, q, k) == o && forall s :: PathBefore(q, s) ==> LastAt(files, s, k) == None;
      assert !PathBefore(q, later) && q != p;
      assert LastAt(Append(files, p, r), q, k) == o;
      assert !PathBefore(q, p);
    } else {
      AppendLatest(files, p, r, k, o);
      n := if k == KeyOf(r) then Some(r) else o;
    }
  }

  predicate WritesHaveRef(ws: seq<Write>, id: string, ref: string) {
    forall w :: w in ws && WellFormed(w) && LineOf(w, Key(Items, id)) ==> HasRef(Logged(w).value, ref)
  }

  lemma FiledKeepsRef(files: Files, w: Write, at: Time, id: string, ref: string)
    requires WellFormed(w) && RefLogged(files, id, ref)
    requires LineOf(w, Key(Items, id)) ==> HasRef(Logged(w).value, ref)
    ensures RefLogged(Filed(files, w, at), id, ref)
  {
    var k := Key(Items, id);
    var c: Case :| Latest(files, k, Some(ItemRec(c))) && c.externalRef == ref;
    if Logged(w).Some? {
      var n := AppendMoves(files, Target(w, at), Logged(w).value, k, Some(ItemRec(c)));
      assert n == Some(ItemRec(c)) || LineOf(w, k);
    }
  }

  lemma {:induction false} RefStays(d: Disk, ws: seq<Write>, i: nat, at: Time, fault: Fault, id: string, ref: string)
    requires i <= |ws| && forall w :: w in ws ==> WellFormed(w)
    requires RefLogged(d.files, id, ref) && WritesHaveRef(ws, id, ref)
    ensures RefLogged(RunFrom(d, ws, i, at, fault).disk.files, id, ref)
    decreases |ws| - i
  {
    if i < |ws| && fault != AppendFails(i) {
      FiledKeepsRef(d.files, ws[i], at, id, ref);
      if fault != StatementFails(i) && Exec(d.index, ws[i]).Some? {
        RefStays(Disk(Filed(d.files, ws[i], at), Exec(d.index, ws[i]).value), ws, i + 1, at, fault, id, ref);
      }
    }
  }

  lemma SoundWritesHaveRef(x: Index, ws: seq<Write>, id: string)
    requires Constraints(x) && id in x.items && AllSound(x, ws)
    requires forall w :: w in ws && w.Save? && w.r.ItemRec? ==> w.r.item.id != id
    ensures WritesHaveRef(ws, id, x.items[id].externalRef)
  {
    forall w | w in ws && WellFormed(w) && LineOf(w, Key(Items, id)) ensures HasRef(Logged(w).value, x.items[id].externalRef) {
      assert Sound(x, w);
      SoundLineHasRef(x, w, id);
    }
  }

  lemma KnownCaseIsWrittenWithItsRef(g: Config, x: Index, call: Call, env: Env, id: string)
    requires Constraints(x) && id in x.items && !(call.Register? && env.uuid1 == id)
    ensures var p := PlanOf(g, x, call, env);
      p.Commit? ==> WritesHaveRef(p.writes, id, x.items[id].externalRef)
  {
    var p := PlanOf(g, x, call, env);
    PlanSound(g, x, call, env);
    OnlyRegistrationsSaveCases(g, x, call, env);
    if p.Commit? {
      SoundWritesHaveRef(x, p.writes, id);
    }
  }

  lemma StepKeepsRef(g: Config, d: Disk, call: Call, env: Env, id: string, ref: string)
    requires Constraints(d.index) && id in d.index.items && d.index.items[id].externalRef == ref
    requires RefLogged(d.files, id, ref) && !(call.Register? && env.uuid1 == id)
    ensures RefLogged(Step(g, d, call, env).disk.files, id, ref)
  {
    KnownCaseIsWrittenWithItsRef(g, d.index, call, env, id);
    StepWithRef(g, d, call, env, id, ref);
  }

  lemma StepWithRef(g: Config, d: Disk, call: Call, env: Env, id: string, ref: string)
    requires RefLogged(d.files, id, ref)
    requires var p := PlanOf(g, d.index, call, env); p.Commit? ==> WritesHaveRef(p.writes, id, ref)
    ensures RefLogged(Step(g, d, call, env).disk.files, id, ref)
  {
    var p := PlanOf(g, d.index, call, env);
    if p.Commit? {
      RefStays(d, p.writes, 0, env.late, env.fault, id, ref);
    }
  }

  /** A case that has a row only after the step was registered by it. */
  lemma RegisteredCase(g: Config, d: Disk, call: Call, env: Env, id: string)
    requires Inv(g, d.index) && id !in d.index.items && id in Step(g, d, call, env).disk.index.items
    ensures call.Register? && env.uuid1 == id
    ensures var p := RegisterPlan(g, d.index, call.req, env);
      && p.Commit? && env.fault != AppendFails(0)
      && Step(g, d, call, env).disk.index.items[id] == p.value.item
  {
    if !(call.Register? && env.uuid1 == id) {
      NoRowAppears(g, d, call, env, id);
    } else {
      RegisteredRow(g, d, call.req, env);
    }
  }

  lemma RegisteredRow(g: Config, d: Disk, req: RegisterRequest, env: Env)
    requires env.uuid1 !in d.index.items && env.uuid1 in Step(g, d, Register(req), env).disk.index.items
    ensures var p := RegisterPlan(g, d.index, req, env);
      && p.Commit? && env.fault != AppendFails(0)
      && Step(g, d, Register(req), env).disk.index.items[env.uuid1] == p.value.item
  {
    var p := RegisterPlan(g, d.index, req, env);
    StepOutcome(g, d, Register(req), env);
    if p.Commit? && ExecAll(d.index, p.writes).Some? {
      RegisterEffect(d.index, p.value.item, p.writes[1].r.referral, p.writes[2].r.entry);
    }
  }

  lemma StepKeepsRefs(g: Config, d: Disk, call: Call, env: Env)
    requires ConfigOk(g) && Inv(g, d.index) && RefsLogged(d) && UnusedId(d.files, call, env)
    ensures RefsLogged(Step(g, d, call, env).disk)
  {
    var after := Step(g, d, call, env).disk;
    forall id | id in after.index.items ensures RefLogged(after.files, id, after.index.items[id].externalRef) {
      if id in d.index.items {
        StepKeepsIdentity(g, d, call, env, id);
        UsedId(d, call, env, id);
        StepKeepsRef(g, d, call, env, id, d.index.items[id].externalRef);
      } else {
        RegisteredCase(g, d, call, env, id);
        FiledCaseIsLatest(g, d, call.req, env);
      }
    }
  }

  lemma UsedId(d: Disk, call: Call, env: Env, id: string)
    requires id in d.index.items && RefsLogged(d) && UnusedId(d.files, call, env)
    ensures call.Register? ==> env.uuid1 != id
  {
    var c: Case :| Latest(d.files, Key(Items, id), Some(ItemRec(c))) && c.externalRef == d.index.items[id].externalRef;
    if call.Register? && Latest(d.files, Key(Items, id), None) {
      LatestUnique(d.files, Key(Items, id), Some(ItemRec(c)), None);
    }
  }

  lemma {:induction false} RefsStayLogged(g: Config, d: Disk, events: seq<Event>)
    requires ConfigOk(g) && Inv(g, d.index) && RefsLogged(d) && UnusedIds(g, d, events)
    ensures RefsLogged(Run(g, d, events))
  {
    if |events| > 0 {
      var before, last := events[..|events| - 1], events[|events| - 1];
      UnusedIdsBefore(g, d, events);
      RefsStayLogged(g, d, before);
      RunKeepsInv(g, d, before);
      StepKeepsRefs(g, Run(g, d, before), last.call, last.env);
    }
  }

  // ---------------------------------------------------------------- a registration rolled back, then retried

  /**
    A registration that is rolled back after its case was filed leaves a ghost: through any later
    run, in which ids are never used twice, the case has no row but comes back in every rebuild.
   */
  lemma RolledBackCaseComesBack(g: Config, d: Disk, req: RegisterRequest, env: Env, later: seq<Event>)
    requires ConfigOk(g) && Inv(g, d.index) && UnusedId(d.files, Register(req), env)
    requires env.uuid1 !in d.index.items
    requires RegisterPlan(g, d.index, req, env).Commit? && env.fault != AppendFails(0)
    requires Step(g, d, Register(req), env).result.Err?
    requires UnusedIds(g, Step(g, d, Register(req), env).disk, later)
    ensures var c := RegisterPlan(g, d.index, req, env).value.item;
      c.externalRef == req.externalRef && Ghost(Run(g, Step(g, d, Register(req), env).disk, later), c)
  {
    FiledCaseIsLatest(g, d, req, env);
    StepKeepsInv(g, d, Register(req), env);
    GhostsStay(g, Step(g, d, Register(req), env).disk, later, RegisterPlan(g, d.index, req, env).value.item);
  }

  /**
    And once the reference is registered after all, by a retry or in any other way, no index can
    be rebuilt from the files, not even an empty one, at that moment or ever after. (That the
    references are logged holds from an empty store on: RefsStayLogged.)
   */
  lemma RetriedRegistrationBlocksRebuild(g: Config, d: Disk, req: RegisterRequest, env: Env, later: seq<Event>, rules: map<int, Rule>)
    requires ConfigOk(g) && Inv(g, d.index) && RefsLogged(d) && UnusedId(d.files, Register(req), env)
    requires env.uuid1 !in d.index.items
    requires RegisterPlan(g, d.index, req, env).Commit? && env.fault != AppendFails(0)
    requires Step(g, d, Register(req), env).result.Err?
    requires UnusedIds(g, Step(g, d, Register(req), env).disk, later)
    ensures var e := Run(g, Step(g, d, Register(req), env).disk, later);
      (exists id :: id in e.index.items && e.index.items[id].externalRef == req.externalRef) ==> !Loadable(e.files, rules)
  {
    var failed, c := Step(g, d, Register(req), env).disk, RegisterPlan(g, d.index, req, env).value.item;
    RolledBackCaseComesBack(g, d, req, env, later);
    StepKeepsRefs(g, d, Register(req), env);
    StepKeepsInv(g, d, Register(req), env);
    RefsStayLogged(g, failed, later);
    var e := Run(g, failed, later);
    if id :| id in e.index.items && e.index.items[id].externalRef == req.externalRef {
      assert RefLogged(e.files, id, req.externalRef);
      var b: Case :| Latest(e.files, Key(Items, id), Some(ItemRec(b))) && b.externalRef == req.externalRef;
      SameReference(e.files, rules, c.id, id, c, b);
    }
  }

  lemma SameReference(files: Files, rules: map<int, Rule>, i: string, j: string, a: Case, b: Case)
    requires Latest(files, Key(Items, i), Some(ItemRec(a))) && Latest(files, Key(Items, j), Some(ItemRec(b)))
    requires i != j && a.externalRef == b.externalRef
    ensures !Loadable(files, rules)
  {
  }
}
