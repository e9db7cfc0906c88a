/**
  Batch import: rows are registered one by one, and a row's outcome does not depend on how often
  the batch, or its reference, is submitted.
 */
module Import {
  import opened Domain
  import opened Tables
  import opened Repo
  import opened Workflow
  import opened Lifecycle
  import opened CaseTheorems
  import opened CaseAnswers
  import opened Services

  datatype RowResult = RowResult(rowIndex: nat, externalRef: string, success: bool, itemId: string, error: Option<Error>)

  datatype ImportResult = ImportResult(
    batchId: string, totalRows: nat, successCount: nat, failureCount: nat, results: seq<RowResult>)

  ghost function RegisterEvents(reqs: seq<RegisterRequest>, envs: nat -> Env): (es: seq<Event>)
    ensures |es| == |reqs|
    ensures forall i :: 0 <= i < |reqs| ==> es[i] == Event(Register(reqs[i]), envs(i))
  {
    seq(|reqs|, i requires 0 <= i < |reqs| => Event(Register(reqs[i]), envs(i)))
  }

  /** The reply to row i. */
  ghost function RowReply(g: Config, d0: Disk, reqs: seq<RegisterRequest>, envs: nat -> Env, i: nat): Reply
    requires i < |reqs|
  {
    Step(g, Run(g, d0, RegisterEvents(reqs, envs)[..i]), Register(reqs[i]), envs(i))
  }

  predicate ReportsReply(row: RowResult, i: nat, req: RegisterRequest, r: Result<Value>) {
    && row.rowIndex == i && row.externalRef == req.externalRef && row.success == r.Ok?
    && match r
       case Ok(ACase(c)) => row.itemId == c.id && row.error == None
       case Ok(_) => true
       case Err(e) => row.itemId == "" && row.error == Some(e)
  }

  /** The batch record goes in as one call of its own. */
  ghost predicate Recorded(g: Config, d: Disk, storeId: string, rows: nat, ok: nat, bad: nat, env: Env, after: Disk, stored: bool) {
    var reply := Step(g, d, RecordBatch(storeId, rows, ok, bad), env);
    after == reply.disk && (stored <==> reply.result.Ok?)
  }

  class BatchService {
    const items: ItemService

    constructor (items: ItemService)
      ensures this.items == items
    {
      this.items := items;
    }

    method ImportRow(i: nat, req: RegisterRequest, env: Env) returns (row: RowResult)
      requires items.store.Valid()
      modifies items.store
      ensures items.store.Valid()
      ensures var reply := Step(items.config, old(items.store.State()), Register(req), env);
        items.store.State() == reply.disk && ReportsReply(row, i, req, reply.result)
    {
      RegisterReplies(items.config, items.store.State(), req, env);
      var reply := items.Register(req, env);
      match reply {
        case Err(e) => row := RowResult(i, req.externalRef, false, "", Some(e));
        case Ok(v) => row := RowResult(i, req.externalRef, true, v.item.id, None);
      }
    }

    method StoreBatch(storeId: string, rows: nat, ok: nat, bad: nat, env: Env) returns (stored: bool)
      requires items.store.Valid()
      modifies items.store
      ensures items.store.Valid()
      ensures Recorded(items.config, old(items.store.State()), storeId, rows, ok, bad, env, items.store.State(), stored)
    {
      var ws := [ Save(BatchRec(ImportBatch(env.uuid1, storeId, env.now, rows, ok, bad, env.now))),
                  Entry(env.uuid2, env.uuid1, "batch", "batch_import", storeId, env.now,
                        IntText(ok) + " success, " + IntText(bad) + " fail") ];
      stored := items.store.WithTx(ws, env.late, env.fault);
    }

    /**
      BatchService.Import. Every row gets its result, in order, whatever happens to the others;
      the counts add up; and the batch record goes in as one more transaction, without which the
      caller gets an error although the rows stay registered.
     */
    method Import(storeId: string, reqs: seq<RegisterRequest>, envs: nat -> Env)
      returns (r: Option<ImportResult>, ghost results: seq<RowResult>, ghost ok: nat, ghost bad: nat)
      requires items.store.Valid()
      modifies items.store
      ensures items.store.Valid()
      ensures RowsReported(items.config, old(items.store.State()), reqs, envs, results, |reqs|)
      ensures r.Some? ==>
        && r.value.results == results
        && r.value.totalRows == |reqs| && r.value.successCount == ok && r.value.failureCount == bad
      ensures ok == |set i | 0 <= i < |results| && results[i].success| && ok + bad == |reqs|
      ensures r.Some? ==> r.value.batchId == envs(|reqs|).uuid1
      ensures r.Some? ==> r.value.batchId in items.store.index.batches && items.store.index.batches[r.value.batchId] == ImportBatch(
        id := r.value.batchId, storeId := storeId, batchDate := envs(|reqs|).now, totalRows := |reqs|,
        successCount := ok, failureCount := bad, importedAt := envs(|reqs|).now)
      ensures Recorded(items.config, Run(items.config, old(items.store.State()), RegisterEvents(reqs, envs)), storeId,
        |reqs|, ok, bad, envs(|reqs|), items.store.State(), r.Some?)
    {
      var rows, successes, failures := RegisterRows(reqs, envs);
      results, ok, bad := rows, successes, failures;
      SuccessesAre(rows);
      RecordBatchAnswers(items.config, items.store.State(), storeId, |reqs|, ok, bad, envs(|reqs|));
      var stored := StoreBatch(storeId, |reqs|, successes, failures, envs(|reqs|));
      r := None;
      if stored {
        r := Some(ImportResult(envs(|reqs|).uuid1, |reqs|, successes, failures, rows));
      }
    }

    /** The loop over the rows of a batch. */
    method RegisterRows(reqs: seq<RegisterRequest>, envs: nat -> Env) returns (rows: seq<RowResult>, ok: nat, bad: nat)
      requires items.store.Valid()
      modifies items.store
      ensures items.store.Valid()
      ensures items.store.State() == Run(items.config, old(items.store.State()), RegisterEvents(reqs, envs))
      ensures RowsReported(items.config, old(items.store.State()), reqs, envs, rows, |reqs|)
      ensures ok == Successes(rows) && ok + bad == |reqs|
    {
      ghost var d0, events := items.store.State(), RegisterEvents(reqs, envs);
      rows, ok, bad := [], 0, 0;
      assert events[..0] == [];
      for i := 0 to |reqs|
        invariant items.store.Valid() && items.store.State() == Run(items.config, d0, events[..i])
        invariant RowsReported(items.config, d0, reqs, envs, rows, i)
        invariant ok == Successes(rows) && ok + bad == i
      {
        RunAppend(items.config, d0, events, i);
        var row := ImportRow(i, reqs[i], envs(i));
        NextRow(items.config, d0, reqs, envs, rows, i, row);
        rows := rows + [row];
        if row.success {
          ok := ok + 1;
        } else {
          bad := bad + 1;
        }
      }
      assert events[..|reqs|] == events;
    }
  }

  lemma NextRow(g: Config, d0: Disk, reqs: seq<RegisterRequest>, envs: nat -> Env, rows: seq<RowResult>, i: nat, row: RowResult)
    requires i < |reqs| && RowsReported(g, d0, reqs, envs, rows, i)
    requires ReportsReply(row, i, reqs[i], RowReply(g, d0, reqs, envs, i).result)
    ensures RowsReported(g, d0, reqs, envs, rows + [row], i + 1)
    ensures Successes(rows + [row]) == Successes(rows) + if row.success then 1 else 0
  {
    assert (rows + [row])[..i] == rows;
  }

  /** The first `n` rows have their results, in order. */
  ghost predicate RowsReported(g: Config, d0: Disk, reqs: seq<RegisterRequest>, envs: nat -> Env, rows: seq<RowResult>, n: nat)
    requires n <= |reqs|
  {
    && |rows| == n
    && forall i :: 0 <= i < n ==> ReportsReply(rows[i], i, reqs[i], RowReply(g, d0, reqs, envs, i).result)
  }

  function Successes(rows: seq<RowResult>): (n: nat)
    ensures n <= |rows|
  {
    if |rows| == 0 then 0
    else Successes(rows[..|rows| - 1]) + (if rows[|rows| - 1].success then 1 else 0)
  }

  lemma {:induction false} SuccessesAre(rows: seq<RowResult>)
    ensures Successes(rows) == |set i | 0 <= i < |rows| && rows[i].success|
  {
    var all := set i | 0 <= i < |rows| && rows[i].success;
    if |rows| > 0 {
      var n := |rows| - 1;
      var init := rows[..n];
      SuccessesAre(init);
      assert all == (set i | 0 <= i < |init| && init[i].success) + (if rows[n].success then {n} else {});
    }
  }

  /** The results of an import: one for each row, in order, saying what registering it was answered. */
  lemma RowResultsAre(g: Config, d0: Disk, reqs: seq<RegisterRequest>, envs: nat -> Env, rows: seq<RowResult>, i: nat)
    requires Constraints(d0.index) && RowsReported(g, d0, reqs, envs, rows, |reqs|) && i < |reqs|
    ensures i < |rows|
    ensures var reply := Step(g, Run(g, d0, RegisterEvents(reqs, envs)[..i]), Register(reqs[i]), envs(i));
      && (reply.result.Ok? ==> reply.result.value.ACase?)
      && rows[i] == RowResult(
           rowIndex := i, externalRef := reqs[i].externalRef, success := reply.result.Ok?,
           itemId := if reply.result.Ok? then reply.result.value.item.id else "",
           error := if reply.result.Ok? then None else Some(reply.result.error))
  {
    RunKeepsConstraints(g, d0, RegisterEvents(reqs, envs)[..i]);
    RegisterReplies(g, Run(g, d0, RegisterEvents(reqs, envs)[..i]), reqs[i], envs(i));
  }

  // ---------------------------------------------------------------- registering twice

  /** An answer to Register names a case with the reference that was asked for, and it is stored. */
  lemma RegisterReplies(g: Config, d: Disk, req: RegisterRequest, env: Env)
    requires Constraints(d.index)
    ensures var reply := Step(g, d, Register(req), env);
      && (reply.result.Ok? ==>
            && reply.result.value.ACase? && RequestError(req).None?
            && var c := reply.result.value.item;
               c.externalRef == req.externalRef && c.id in reply.disk.index.items
               && reply.disk.index.items[c.id].externalRef == req.externalRef)
  {
    var x, p := d.index, RegisterPlan(g, d.index, req, env);
    if p.Commit? {
      TransactIndex(d, p.writes, env.late, env.fault);
      RegisterEffect(x, p.value.item, p.writes[1].r.referral, p.writes[2].r.entry);
    }
  }

  /** A reference that has a case is answered with that case; nothing is appended or stored. */
  lemma RegisterAgain(g: Config, d: Disk, req: RegisterRequest, env: Env, id: string)
    requires Constraints(d.index) && RequestError(req).None?
    requires id in d.index.items && d.index.items[id].externalRef == req.externalRef
    ensures var reply := Step(g, d, Register(req), env);
      reply.disk == d && reply.result == Ok(ACase(d.index.items[id])) && d.index.items[id].id == id
  {
    ByRefIs(d.index, id);
  }

  lemma {:induction false} RunSplit(g: Config, d: Disk, a: seq<Event>, b: seq<Event>)
    ensures Run(g, d, a + b) == Run(g, Run(g, d, a), b)
  {
    if |b| == 0 {
      assert a + b == a;
    } else {
      assert (a + b)[..|a + b| - 1] == a + b[..|b| - 1];
      RunSplit(g, d, a, b[..|b| - 1]);
    }
  }

  /** Once answered with a case, a reference is answered with that case ever after, at no cost. */
  lemma AnswerLasts(g: Config, d: Disk, req: RegisterRequest, env: Env, between: seq<Event>, again: RegisterRequest, env': Env)
    requires ConfigOk(g) && Inv(g, d.index)
    requires Step(g, d, Register(req), env).result.Ok?
    requires again.externalRef == req.externalRef && RequestError(again).None?
    ensures var first := Step(g, d, Register(req), env);
      var later := Run(g, first.disk, between);
      var second := Step(g, later, Register(again), env');
      && second.disk == later && second.result.Ok? && second.result.value.ACase?
      && first.result.value.ACase? && second.result.value.item.id == first.result.value.item.id
  {
    var first := Step(g, d, Register(req), env);
    RegisterReplies(g, d, req, env);
    StepKeepsInv(g, d, Register(req), env);
    var id := first.result.value.item.id;
    RunKeepsIdentity(g, first.disk, between, id);
    RunKeepsInv(g, first.disk, between);
    RegisterAgain(g, Run(g, first.disk, between), again, env', id);
  }

  /** Rows of one batch that succeed under the same reference get the same case. */
  lemma SameReferenceSameCase(g: Config, d0: Disk, reqs: seq<RegisterRequest>, envs: nat -> Env, i: nat, j: nat)
    requires ConfigOk(g) && Inv(g, d0.index) && i < j < |reqs|
    requires reqs[i].externalRef == reqs[j].externalRef
    requires RowReply(g, d0, reqs, envs, i).result.Ok? && RowReply(g, d0, reqs, envs, j).result.Ok?
    ensures RowReply(g, d0, reqs, envs, j).result.value.ACase?
    ensures RowReply(g, d0, reqs, envs, i).result.value.ACase?
    ensures RowReply(g, d0, reqs, envs, j).result.value.item.id == RowReply(g, d0, reqs, envs, i).result.value.item.id
  {
    var events := RegisterEvents(reqs, envs);
    var d := Run(g, d0, events[..i]);
    RunKeepsInv(g, d0, events[..i]);
    assert events[..j] == events[..i + 1] + events[i + 1..j];
    RunSplit(g, d0, events[..i + 1], events[i + 1..j]);
    RunAppend(g, d0, events, i);
    RunKeepsInv(g, d0, events[..j]);
    RegisterReplies(g, Run(g, d0, events[..j]), reqs[j], envs(j));
    AnswerLasts(g, d, reqs[i], envs(i), events[i + 1..j], reqs[j], envs(j));
  }

  /**
    Importing a batch again, after whatever else has happened: each row that succeeded before
    succeeds with the same case and leaves the disk as it is.
   */
  lemma ImportingAgain(g: Config, d0: Disk, reqs: seq<RegisterRequest>, envs: nat -> Env,
                       between: seq<Event>, envs': nat -> Env, i: nat)
    requires ConfigOk(g) && Inv(g, d0.index) && i < |reqs|
    requires RowReply(g, d0, reqs, envs, i).result.Ok?
    ensures var d1 := Run(g, Run(g, d0, RegisterEvents(reqs, envs)), between);
      var before, reply := Run(g, d1, RegisterEvents(reqs, envs')[..i]), RowReply(g, d1, reqs, envs', i);
      && reply.disk == before
      && reply.result.Ok? && reply.result.value.ACase?
      && RowReply(g, d0, reqs, envs, i).result.value.ACase?
      && reply.result.value.item.id == RowReply(g, d0, reqs, envs, i).result.value.item.id
  {
    var events, events' := RegisterEvents(reqs, envs), RegisterEvents(reqs, envs');
    var d := Run(g, d0, events[..i]);
    RunKeepsInv(g, d0, events[..i]);
    RegisterReplies(g, d, reqs[i], envs(i));
    RunThrough(g, d0, events, i, between, events'[..i]);
    AnswerLasts(g, d, reqs[i], envs(i), events[i + 1..] + between + events'[..i], reqs[i], envs'(i));
  }

  lemma RunThrough(g: Config, d0: Disk, events: seq<Event>, i: nat, between: seq<Event>, more: seq<Event>)
    requires i < |events|
    ensures Run(g, Run(g, Run(g, d0, events), between), more)
      == Run(g, Step(g, Run(g, d0, events[..i]), events[i].call, events[i].env).disk, events[i + 1..] + between + more)
  {
    var d := Run(g, d0, events[..i + 1]);
    RunAppend(g, d0, events, i);
    assert events == events[..i + 1] + events[i + 1..];
    RunSplit(g, d0, events[..i + 1], events[i + 1..]);
    RunSplit(g, d, events[i + 1..], between);
    RunSplit(g, d, events[i + 1..] + between, more);
  }
}
