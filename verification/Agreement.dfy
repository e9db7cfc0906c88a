/**
  What the shard files say about the tables. `Latest` reads a key's last record in path order;
  `Agrees` says that it is the key's row, up to the two columns that are changed without being
  logged; `WriteAhead` is the weaker statement that survives rollbacks.
 */
module Agreement {
  import opened Domain
  import opened Tables
  import opened Repo

  // ---------------------------------------------------------------- last record of a key

  /** sort.Slice by path: the entity directories in alphabetical order, then the day. */
  function DirectoryRank(e: Entity): nat {
    match e
    case Assignments => 0
    case Audit => 1
    case Batches => 2
    case Escalations => 3
    case Failures => 4
    case Items => 5
    case Rules => 6
  }

  predicate PathBefore(p: Path, q: Path) {
    || DirectoryRank(p.entity) < DirectoryRank(q.entity)
    || (p.entity == q.entity && p.day < q.day)
  }

  predicate Names(r: Record, k: Key) {
    !r.Malformed? && KeyOf(r) == k
  }

  function LastOf(records: seq<Record>, k: Key): (o: Option<Record>)
    ensures o.Some? ==> o.value in records && Names(o.value, k)
  {
    if |records| == 0 then None
    else if Names(records[|records| - 1], k) then Some(records[|records| - 1])
    else LastOf(records[..|records| - 1], k)
  }

  /** The last record of `k` in one file; a file only speaks for its own entity. */
  function LastAt(files: Files, p: Path, k: Key): Option<Record> {
    if p in files && p.entity == EntityOf(k) then LastOf(files[p], k) else None
  }

  /** `o` is the last record of `k`, reading the files in path order. */
  ghost predicate Latest(files: Files, k: Key, o: Option<Record>) {
    match o
    case None => forall p :: LastAt(files, p, k) == None
    case Some(r) =>
      exists p :: LastAt(files, p, k) == Some(r) && forall q :: PathBefore(p, q) ==> LastAt(files, q, k) == None
  }

  lemma LatestUnique(files: Files, k: Key, a: Option<Record>, b: Option<Record>)
    requires Latest(files, k, a) && Latest(files, k, b)
    ensures a == b
  {
    if a.Some? && b.Some? {
      var p :| LastAt(files, p, k) == a && forall q :: PathBefore(p, q) ==> LastAt(files, q, k) == None;
      var q :| LastAt(files, q, k) == b && forall p :: PathBefore(q, p) ==> LastAt(files, p, k) == None;
      assert !PathBefore(p, q) && !PathBefore(q, p);
      assert p.entity == q.entity;
    }
  }

  lemma AppendAt(files: Files, p: Path, r: Record, q: Path, k: Key)
    requires !r.Malformed? && p.entity == EntityOf(KeyOf(r))
    ensures LastAt(Append(files, p, r), q, k)
      == if q == p && k == KeyOf(r) then Some(r) else LastAt(files, q, k)
  {
    var lines := if p in files then files[p] else [];
    assert (lines + [r])[..|lines|] == lines;
  }

  /** Appending where no later file mentions the key makes the record the key's latest. */
  lemma AppendLatest(files: Files, p: Path, r: Record, k: Key, o: Option<Record>)
    requires !r.Malformed? && p.entity == EntityOf(KeyOf(r))
    requires Latest(files, k, o)
    requires k == KeyOf(r) ==> forall q :: PathBefore(p, q) ==> LastAt(files, q, k) == None
    ensures Latest(Append(files, p, r), k, if k == KeyOf(r) then Some(r) else o)
  {
    forall q ensures LastAt(Append(files, p, r), q, k)
        == if q == p && k == KeyOf(r) then Some(r) else LastAt(files, q, k)
    {
      AppendAt(files, p, r, q, k);
    }
    if k == KeyOf(r) {
      assert LastAt(Append(files, p, r), p, k) == Some(r);
    } else if o.Some? {
      var q :| LastAt(files, q, k) == o && forall s :: PathBefore(q, s) ==> LastAt(files, s, k) == None;
      assert LastAt(Append(files, p, r), q, k) == o;
    }
  }

  // ---------------------------------------------------------------- agreement

  /** A row as it was logged: a referral saved as current, a rule saved as active. */
  function AsLogged(r: Record): Record {
    match r
    case AssignmentRec(a) => AssignmentRec(a.(isCurrent := true))
    case RuleRec(u) => RuleRec(u.(status := Active, effectiveTo := None))
    case _ => r
  }

  function LoggedRow(x: Index, k: Key): Option<Record> {
    match Row(x, k)
    case None => None
    case Some(r) => Some(AsLogged(r))
  }

  ghost predicate Agrees(d: Disk) {
    forall k :: Latest(d.files, k, LoggedRow(d.index, k))
  }

  /** No file is dated after the clock. */
  ghost predicate Horizon(files: Files, t: Time) {
    forall p :: p in files ==> p.day <= Day(t)
  }

  /** Some file of the key's entity holds `r`, a record of `k`. */
  predicate InLog(files: Files, k: Key, r: Record) {
    Names(r, k) && exists p :: p in files && p.entity == EntityOf(k) && r in files[p]
  }

  /** Every row is some record already in the files. */
  ghost predicate WriteAhead(d: Disk) {
    forall k :: Row(d.index, k).Some? ==> InLog(d.files, k, LoggedRow(d.index, k).value)
  }

  /**
    What the services respect in every write: rows are saved in their logged form, and updates
    go to existing rows without touching the columns that UPDATE does not set.
   */
  predicate Sound(x: Index, w: Write) {
    && WellFormed(w)
    && match w
       case Save(r) => AsLogged(r) == r
       case UpdateItem(c) => c.id in x.items && MergeItem(x.items[c.id], c) == c
       case UpdateFailure(f) => f.id in x.failures && MergeFailure(x.failures[f.id], f) == f
       case _ => true
  }

  predicate AllSound(x: Index, ws: seq<Write>) {
    forall w :: w in ws ==> Sound(x, w)
  }

  lemma ExecKeepsSound(x: Index, w: Write, u: Write)
    requires Constraints(x) && WellFormed(w) && Exec(x, w).Some? && Sound(x, u)
    ensures Sound(Exec(x, w).value, u)
  {
    if w.Save? {
      SaveKeepsSound(x, w.r, u);
    } else if w.UpdateItem? || w.UpdateFailure? {
      UpdateKeepsSound(x, w, u);
    }
  }

  lemma SaveKeepsSound(x: Index, r: Record, u: Write)
    requires !r.Malformed? && Insert(x, r).Some? && Sound(x, u)
    ensures Sound(Insert(x, r).value, u)
  {
    var y := Insert(x, r).value;
    InsertRow(x, r);
    if u.UpdateItem? {
      assert Row(x, Key(Items, u.item.id)).Some? && Row(y, Key(Items, u.item.id)) == Row(x, Key(Items, u.item.id));
    } else if u.UpdateFailure? {
      assert Row(x, Key(Failures, u.failure.id)).Some? && Row(y, Key(Failures, u.failure.id)) == Row(x, Key(Failures, u.failure.id));
    }
  }

  lemma UpdateKeepsSound(x: Index, w: Write, u: Write)
    requires (w.UpdateItem? || w.UpdateFailure?) && Exec(x, w).Some? && Sound(x, u)
    ensures Sound(Exec(x, w).value, u)
  {
  }

  lemma {:induction false} MarkedReferral(s: seq<Referral>, itemId: string, id: string)
    ensures FindReferral(MarkSuperseded(s, itemId), id)
      == match FindReferral(s, id)
         case None => None
         case Some(a) => Some(if a.itemId == itemId then a.(isCurrent := false) else a)
  {
    if s != [] {
      var t := MarkSuperseded(s, itemId);
      assert t[..|t| - 1] == MarkSuperseded(s[..|s| - 1], itemId);
      MarkedReferral(s[..|s| - 1], itemId, id);
    }
  }

  function LoggedAfter(x: Index, w: Write, k: Key): Option<Record>
    requires WellFormed(w)
  {
    if Logged(w).Some? && k == KeyOf(Logged(w).value) then Logged(w) else LoggedRow(x, k)
  }

  lemma UpdateLoggedRow(x: Index, w: Write, k: Key)
    requires w.UpdateItem? || w.UpdateFailure? || w.SupersedeRule?
    requires Constraints(x) && Sound(x, w)
    ensures LoggedRow(Exec(x, w).value, k) == LoggedAfter(x, w, k)
  {
  }

  lemma MarkLoggedRow(x: Index, itemId: string, k: Key)
    ensures LoggedRow(x.(referrals := MarkSuperseded(x.referrals, itemId)), k) == LoggedRow(x, k)
  {
    if k.Key? && k.entity == Assignments {
      MarkedReferral(x.referrals, itemId, k.id);
    }
  }

  /** A statement changes the logged form of exactly the row whose record was appended. */
  lemma ExecLoggedRow(x: Index, w: Write)
    requires Constraints(x) && Sound(x, w) && Exec(x, w).Some?
    ensures forall k :: LoggedRow(Exec(x, w).value, k) == LoggedAfter(x, w, k)
  {
    if w.Save? {
      InsertRow(x, w.r);
    }
    forall k ensures LoggedRow(Exec(x, w).value, k) == LoggedAfter(x, w, k) {
      if w.MarkAssignmentSuperseded? {
        MarkLoggedRow(x, w.itemId, k);
      } else if !w.Save? {
        UpdateLoggedRow(x, w, k);
      }
    }
  }

  /** One write of a transaction that commits. */
  lemma WriteAgrees(d: Disk, w: Write, at: Time)
    requires Constraints(d.index) && Sound(d.index, w) && Exec(d.index, w).Some?
    requires Agrees(d) && Horizon(d.files, at)
    requires FilingTime(w, at) <= at
    ensures Agrees(Disk(Filed(d.files, w, at), Exec(d.index, w).value))
    ensures Horizon(Filed(d.files, w, at), at)
  {
    var files, y := Filed(d.files, w, at), Exec(d.index, w).value;
    ExecLoggedRow(d.index, w);
    if Logged(w).Some? {
      var r, p := Logged(w).value, Target(w, at);
      forall k ensures Latest(files, k, LoggedRow(y, k)) {
        var o := LoggedRow(d.index, k);
        assert Latest(d.files, k, o);
        if k == KeyOf(r) {
          forall q | PathBefore(p, q) ensures LastAt(d.files, q, k) == None {
            if w.Save? {
              assert Row(d.index, k) == None && o == None;
            }
          }
        }
        AppendLatest(d.files, p, r, k, o);
      }
    } else {
      forall k ensures Latest(files, k, LoggedRow(y, k)) {
        assert Latest(d.files, k, LoggedRow(d.index, k));
      }
    }
  }

  /** A committed transaction of sound writes, none dated after the store's clock, keeps agreement. */
  lemma {:induction false} RunAgrees(d: Disk, ws: seq<Write>, i: nat, at: Time, fault: Fault)
    requires i <= |ws| && Constraints(d.index) && AllSound(d.index, ws[i..])
    requires forall w :: w in ws ==> WellFormed(w)
    requires forall w :: w in ws ==> FilingTime(w, at) <= at
    requires Agrees(d) && Horizon(d.files, at)
    requires RunFrom(d, ws, i, at, fault).ok
    ensures Agrees(RunFrom(d, ws, i, at, fault).disk)
    ensures Horizon(RunFrom(d, ws, i, at, fault).disk.files, at)
    decreases |ws| - i
  {
    if i < |ws| {
      var w := ws[i];
      assert w in ws[i..] && Sound(d.index, w);
      WriteAgrees(d, w, at);
      ExecKeepsConstraints(d.index, w);
      var y := Exec(d.index, w).value;
      forall u | u in ws[i + 1..] ensures Sound(y, u) {
        assert u in ws[i..];
        ExecKeepsSound(d.index, w, u);
      }
      RunAgrees(Disk(Filed(d.files, w, at), y), ws, i + 1, at, fault);
    }
  }

  // ---------------------------------------------------------------- write-ahead

  lemma FiledKeepsLog(files: Files, w: Write, at: Time, k: Key, r: Record)
    requires WellFormed(w)
    ensures InLog(files, k, r) ==> InLog(Filed(files, w, at), k, r)
    ensures Logged(w) == Some(r) && k == KeyOf(r) ==> InLog(Filed(files, w, at), k, r)
  {
    var after := Filed(files, w, at);
    if InLog(files, k, r) {
      var p :| p in files && p.entity == EntityOf(k) && r in files[p];
      assert p in after && r in after[p];
    }
    if Logged(w) == Some(r) && k == KeyOf(r) {
      var p := Target(w, at);
      assert p in after && r in after[p];
    }
  }

  lemma WriteStaysAhead(d: Disk, w: Write, at: Time, rows: Index)
    requires Constraints(d.index) && Sound(d.index, w)
    requires WriteAhead(d) && WriteAhead(Disk(d.files, rows))
    ensures WriteAhead(Disk(Filed(d.files, w, at), rows))
    ensures Exec(d.index, w).Some? ==> WriteAhead(Disk(Filed(d.files, w, at), Exec(d.index, w).value))
  {
    var files := Filed(d.files, w, at);
    forall k | Row(rows, k).Some? ensures InLog(files, k, LoggedRow(rows, k).value) {
      assert InLog(Disk(d.files, rows).files, k, LoggedRow(rows, k).value);
      FiledKeepsLog(d.files, w, at, k, LoggedRow(rows, k).value);
    }
    if Exec(d.index, w).Some? {
      var y := Exec(d.index, w).value;
      ExecLoggedRow(d.index, w);
      forall k | Row(y, k).Some? ensures InLog(files, k, LoggedRow(y, k).value) {
        assert LoggedRow(y, k).Some?;
        FiledKeepsLog(d.files, w, at, k, LoggedRow(y, k).value);
        if !(Logged(w).Some? && k == KeyOf(Logged(w).value)) {
          assert Row(d.index, k).Some?;
        }
      }
    }
  }

  lemma {:induction false} RunStaysAhead(d: Disk, ws: seq<Write>, i: nat, at: Time, fault: Fault, rows: Index)
    requires i <= |ws| && Constraints(d.index) && AllSound(d.index, ws[i..])
    requires forall w :: w in ws ==> WellFormed(w)
    requires WriteAhead(d) && WriteAhead(Disk(d.files, rows))
    ensures var o := RunFrom(d, ws, i, at, fault);
      WriteAhead(Disk(o.disk.files, rows)) && (o.ok ==> WriteAhead(o.disk))
    decreases |ws| - i
  {
    if i < |ws| && fault != AppendFails(i) {
      var w := ws[i];
      assert w in ws[i..] && Sound(d.index, w);
      WriteStaysAhead(d, w, at, rows);
      if fault != StatementFails(i) && Exec(d.index, w).Some? {
        ExecKeepsConstraints(d.index, w);
        var y := Exec(d.index, w).value;
        forall u | u in ws[i + 1..] ensures Sound(y, u) {
          assert u in ws[i..];
          ExecKeepsSound(d.index, w, u);
        }
        RunStaysAhead(Disk(Filed(d.files, w, at), y), ws, i + 1, at, fault, rows);
      }
    }
  }

  /** A transaction, committed or rolled back, leaves every row in the files. */
  lemma TransactStaysAhead(d: Disk, ws: seq<Write>, at: Time, fault: Fault)
    requires Constraints(d.index) && AllSound(d.index, ws) && WriteAhead(d)
    requires forall w :: w in ws ==> WellFormed(w)
    ensures WriteAhead(Transact(d, ws, at, fault).disk)
  {
    assert ws[0..] == ws;
    RunStaysAhead(d, ws, 0, at, fault, d.index);
  }

  /** Without a rollback, agreement is kept too. */
  lemma TransactAgrees(d: Disk, ws: seq<Write>, at: Time, fault: Fault)
    requires Constraints(d.index) && AllSound(d.index, ws)
    requires forall w :: w in ws ==> WellFormed(w) && FilingTime(w, at) <= at
    requires Agrees(d) && Horizon(d.files, at) && Transact(d, ws, at, fault).ok
    ensures Agrees(Transact(d, ws, at, fault).disk)
    ensures Horizon(Transact(d, ws, at, fault).disk.files, at)
  {
    assert ws[0..] == ws;
    RunAgrees(d, ws, 0, at, fault);
  }
}
