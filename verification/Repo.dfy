/**
  The store: append-only shard files beside the index. Every save or update first appends its
  record to a day file and then changes a table; a transaction that fails restores the tables
  and leaves the files as they are.
 */
module Repo {
  import opened Domain
  import opened Tables

  type Files = map<Path, seq<Record>>

  datatype Disk = Disk(files: Files, index: Index)

  const EMPTY_DISK := Disk(map[], EMPTY_INDEX)

  /** Where a transaction's i-th write, or its commit, meets an error of the store itself. */
  datatype Fault = NoFault | AppendFails(at: nat) | StatementFails(at: nat) | CommitFails

  function Append(files: Files, p: Path, r: Record): Files {
    files[p := (if p in files then files[p] else []) + [r]]
  }

  /** The record a write appends, if it appends one. */
  function Logged(w: Write): Option<Record> {
    match w
    case Save(r) => Some(r)
    case UpdateItem(c) => Some(ItemRec(c))
    case UpdateFailure(f) => Some(FailureRec(f))
    case MarkAssignmentSuperseded(_) => None
    case SupersedeRule(_, _) => None
  }

  /** New rows are filed under their own date, updates under the store's clock. */
  function FilingTime(w: Write, at: Time): Time {
    match w
    case Save(ItemRec(c)) => c.registeredAt
    case Save(RuleRec(u)) => u.createdAt
    case Save(AssignmentRec(a)) => a.adjudicatedAt
    case Save(EscalationRec(e)) => e.escalatedAt
    case Save(AuditRec(a)) => a.timestamp
    case Save(FailureRec(f)) => f.firstFailedAt
    case Save(BatchRec(b)) => b.importedAt
    case _ => at
  }

  function Target(w: Write, at: Time): Path
    requires WellFormed(w) && Logged(w).Some?
  {
    Path(EntityOf(KeyOf(Logged(w).value)), Day(FilingTime(w, at)))
  }

  function Filed(files: Files, w: Write, at: Time): Files
    requires WellFormed(w)
  {
    if Logged(w).None? then files else Append(files, Target(w, at), Logged(w).value)
  }

  datatype Outcome = Outcome(disk: Disk, ok: bool)

  /** Writes i, i+1, .. of a transaction, stopping at the first error. */
  function RunFrom(d: Disk, ws: seq<Write>, i: nat, at: Time, fault: Fault): Outcome
    requires i <= |ws|
    requires forall w :: w in ws ==> WellFormed(w)
    decreases |ws| - i
  {
    if i == |ws| then Outcome(d, fault != CommitFails)
    else if fault == AppendFails(i) then Outcome(d, false)
    else
      var files := Filed(d.files, ws[i], at);
      if fault == StatementFails(i) then Outcome(Disk(files, d.index), false)
      else
        match Exec(d.index, ws[i])
        case None => Outcome(Disk(files, d.index), false)
        case Some(x) => RunFrom(Disk(files, x), ws, i + 1, at, fault)
  }

  /** A transaction goes on with the next write, or ends at this one. */
  lemma RunFromNext(d: Disk, ws: seq<Write>, i: nat, at: Time, fault: Fault)
    requires i < |ws| && forall w :: w in ws ==> WellFormed(w)
    ensures RunFrom(d, ws, i, at, fault) ==
      if fault == AppendFails(i) then Outcome(d, false)
      else if fault == StatementFails(i) || Exec(d.index, ws[i]).None? then Outcome(Disk(Filed(d.files, ws[i], at), d.index), false)
      else RunFrom(Disk(Filed(d.files, ws[i], at), Exec(d.index, ws[i]).value), ws, i + 1, at, fault)
  {
  }

  /** Store.WithTx on a function that performs `ws`: rollback restores the index alone. */
  function Transact(d: Disk, ws: seq<Write>, at: Time, fault: Fault): Outcome
    requires forall w :: w in ws ==> WellFormed(w)
  {
    var o := RunFrom(d, ws, 0, at, fault);
    if o.ok then o else Outcome(Disk(o.disk.files, d.index), false)
  }

  /** The tables after all of `ws`, if every statement is accepted. */
  function ExecAll(x: Index, ws: seq<Write>): Option<Index>
    requires forall w :: w in ws ==> WellFormed(w)
    decreases |ws|
  {
    if |ws| == 0 then Some(x)
    else
      match Exec(x, ws[0])
      case None => None
      case Some(y) => ExecAll(y, ws[1..])
  }

  /** The fault meets one of the writes from the i-th on, or the commit. */
  predicate Strikes(fault: Fault, i: nat, n: nat) {
    fault == CommitFails || ((fault.AppendFails? || fault.StatementFails?) && i <= fault.at < n)
  }

  lemma {:induction false} RunFromIndex(d: Disk, ws: seq<Write>, i: nat, at: Time, fault: Fault)
    requires i <= |ws|
    requires forall w :: w in ws ==> WellFormed(w)
    ensures RunFrom(d, ws, i, at, fault).ok ==>
      ExecAll(d.index, ws[i..]) == Some(RunFrom(d, ws, i, at, fault).disk.index)
    ensures RunFrom(d, ws, i, at, fault).ok <==> ExecAll(d.index, ws[i..]).Some? && !Strikes(fault, i, |ws|)
    decreases |ws| - i
  {
    if i < |ws| {
      var files := Filed(d.files, ws[i], at);
      match Exec(d.index, ws[i])
      case None =>
      case Some(x) =>
        assert ws[i..][1..] == ws[i + 1..];
        RunFromIndex(Disk(files, x), ws, i + 1, at, fault);
    }
  }

  /**
    A committed transaction has executed all of its statements; any other leaves the tables as
    they were. It commits exactly when every statement is accepted and no fault strikes.
   */
  lemma TransactIndex(d: Disk, ws: seq<Write>, at: Time, fault: Fault)
    requires forall w :: w in ws ==> WellFormed(w)
    ensures var o := Transact(d, ws, at, fault);
      && (o.ok ==> ExecAll(d.index, ws) == Some(o.disk.index))
      && (!o.ok ==> o.disk.index == d.index)
      && (o.ok <==> ExecAll(d.index, ws).Some? && !Strikes(fault, 0, |ws|))
  {
    RunFromIndex(d, ws, 0, at, fault);
    assert ws[0..] == ws;
  }

  /** A transaction begun at `d0` has come to its i-th write at `d`, or has failed there. */
  predicate Reached(d0: Disk, ws: seq<Write>, at: Time, fault: Fault, i: nat, d: Disk, ok: bool)
    requires i <= |ws| && forall w :: w in ws ==> WellFormed(w)
  {
    RunFrom(d0, ws, 0, at, fault) == if ok then RunFrom(d, ws, i, at, fault) else Outcome(d, false)
  }

  lemma ReachedNext(d0: Disk, ws: seq<Write>, at: Time, fault: Fault, i: nat, d: Disk)
    requires i < |ws| && (forall w :: w in ws ==> WellFormed(w)) && Reached(d0, ws, at, fault, i, d, true)
    ensures fault == AppendFails(i) ==> Reached(d0, ws, at, fault, i, d, false)
    ensures var files, o := Filed(d.files, ws[i], at), Exec(d.index, ws[i]);
      fault != AppendFails(i) ==>
        if fault == StatementFails(i) || o.None? then Reached(d0, ws, at, fault, i, Disk(files, d.index), false)
        else Reached(d0, ws, at, fault, i + 1, Disk(files, o.value), true)
  {
    RunFromNext(d, ws, i, at, fault);
  }

  // ---------------------------------------------------------------- the store object

  class Store {
    var files: Files
    var index: Index

    constructor ()
      ensures State() == EMPTY_DISK
    {
      files, index := map[], EMPTY_INDEX;
    }

    function State(): Disk
      reads this
    {
      Disk(files, index)
    }

    ghost predicate Valid()
      reads this
    {
      Constraints(index)
    }

    /** storeTx.Save* and storeTx.Update*: append the record, then change the table. */
    method Perform(w: Write, at: Time, statementFails: bool) returns (ok: bool)
      requires Valid() && WellFormed(w)
      modifies this
      ensures Valid()
      ensures files == Filed(old(files), w, at)
      ensures ok <==> !statementFails && Exec(old(index), w).Some?
      ensures index == if ok then Exec(old(index), w).value else old(index)
    {
      var line := Logged(w);
      if line.Some? {
        files := Append(files, Target(w, at), line.value);
      }
      if statementFails {
        return false;
      }
      var changed := Exec(index, w);
      if changed.None? {
        return false;
      }
      ExecKeepsConstraints(index, w);
      index := changed.value;
      return true;
    }

    method WithTx(ws: seq<Write>, at: Time, fault: Fault) returns (ok: bool)
      requires Valid() && forall w :: w in ws ==> WellFormed(w)
      modifies this
      ensures Outcome(State(), ok) == Transact(old(State()), ws, at, fault)
      ensures Valid()
    {
      var before := index;
      var i := 0;
      ok := true;
      while i < |ws| && ok
        invariant 0 <= i <= |ws| && Valid()
        invariant Reached(old(State()), ws, at, fault, i, State(), ok)
        decreases |ws| - i, ok
      {
        ReachedNext(old(State()), ws, at, fault, i, State());
        if fault == AppendFails(i) {
          ok := false;
        } else {
          ok := Perform(ws[i], at, fault == StatementFails(i));
          if ok {
            i := i + 1;
          }
        }
      }
      if ok && fault == CommitFails {
        ok := false;
      }
      if !ok {
        index := before;
      }
    }
  }
}
