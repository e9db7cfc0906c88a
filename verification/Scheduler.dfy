/**
  Retrying a background task: exponential backoff in 64-bit durations, a bounded number of
  attempts, and a permanent failure on record when they are used up.
 */
module Scheduler {
  import opened Domain
  import opened Tables
  import opened Repo
  import opened Workflow
  import opened Lifecycle
  import opened CaseAnswers

  // ---------------------------------------------------------------- backoff

  function PowerOfTwo(n: nat): (p: nat)
    ensures p >= 1
  {
    if n == 0 then 1 else 2 * PowerOfTwo(n - 1)
  }

  function Shift(attempt: int): nat {
    if attempt <= 0 then 0 else if attempt > 11 then 10 else attempt - 1
  }

  /** The wait before the attempt after this one, as calculateBackoff computes it. */
  function Backoff(base: int, attempt: int): int {
    Wrap64(base * PowerOfTwo(Shift(attempt)))
  }

  method CalculateBackoff(base: int, attempt: int) returns (wait: int)
    ensures wait == Backoff(base, attempt)
  {
    var a := attempt;
    if a <= 0 {
      a := 1;
    }
    var shift := a - 1;
    if shift > 10 {
      shift := 10;
    }
    wait := Wrap64(base * PowerOfTwo(shift));
  }

  lemma SmallPowers()
    ensures PowerOfTwo(10) == 1024 && PowerOfTwo(11) == 2048
  {
    assert PowerOfTwo(4) == 16 && PowerOfTwo(8) == 256;
  }

  lemma {:induction false} PowersGrow(m: nat, n: nat)
    requires m <= n
    ensures PowerOfTwo(m) <= PowerOfTwo(n)
  {
    if m < n {
      PowersGrow(m, n - 1);
    }
  }

  lemma MultiplesInRange(base: int, factor: nat, most: nat)
    requires 1 <= factor <= most && Int64(base * most)
    ensures Int64(base * factor)
  {
    if base >= 0 {
      assert 0 <= base * factor <= base * most;
    } else {
      assert base * most <= base * factor <= 0;
    }
  }

  /** No wait overflows exactly when 1024 times the base still fits. */
  lemma BackoffFitsExactly(base: int)
    ensures (forall attempt: int :: Backoff(base, attempt) == base * PowerOfTwo(Shift(attempt))) <==> Int64(base * 1024)
  {
    SmallPowers();
    if Int64(base * 1024) {
      forall attempt: int ensures Backoff(base, attempt) == base * PowerOfTwo(Shift(attempt)) {
        PowersGrow(Shift(attempt), 10);
        MultiplesInRange(base, PowerOfTwo(Shift(attempt)), 1024);
        WrapIsIdentity(base * PowerOfTwo(Shift(attempt)));
      }
    } else {
      assert Shift(11) == 10;
      WrapIsIdentity(base * 1024);
      assert Backoff(base, 11) != base * PowerOfTwo(Shift(11));
    }
  }

  // ---------------------------------------------------------------- total wait

  /** The waits after attempts 1 .. n. */
  function Waits(base: int, n: nat): seq<int> {
    seq(n, k requires 0 <= k < n => Backoff(base, k + 1))
  }

  function Sum(s: seq<int>): int {
    if s == [] then 0 else Sum(s[..|s| - 1]) + s[|s| - 1]
  }

  /** The sum of the factors of the first `n` waits, in closed form. */
  function Factor(n: nat): nat {
    if n <= 11 then PowerOfTwo(n) - 1 else 2047 + 1024 * (n - 11)
  }

  lemma NextFactor(n: nat)
    requires n > 0
    ensures Factor(n) == Factor(n - 1) + PowerOfTwo(Shift(n))
  {
    SmallPowers();
    if n <= 11 {
      assert PowerOfTwo(n) == 2 * PowerOfTwo(n - 1);
    }
  }

  lemma {:induction false} SumOfWaits(base: int, n: nat)
    requires Int64(base * 1024)
    ensures Sum(Waits(base, n)) == base * Factor(n)
  {
    if n > 0 {
      SumOfWaits(base, n - 1);
      assert Waits(base, n)[..n - 1] == Waits(base, n - 1);
      assert Backoff(base, n) == base * PowerOfTwo(Shift(n)) by {
        BackoffFitsExactly(base);
      }
      Distribute(base, Factor(n - 1), PowerOfTwo(Shift(n)));
      NextFactor(n);
    }
  }

  lemma Distribute(a: int, b: int, c: int)
    ensures a * b + a * c == a * (b + c)
  {
  }

  /**
    A task that fails `m` times without being cancelled waits base * (2^(m-1) - 1) up to twelve
    failures, and base * (2047 + 1024 * (m - 12)) from there on.
   */
  lemma TotalWait(base: int, m: nat)
    requires m >= 1 && Int64(base * 1024)
    ensures m <= 12 ==> Sum(Waits(base, m - 1)) == base * (PowerOfTwo(m - 1) - 1)
    ensures m >= 12 ==> Sum(Waits(base, m - 1)) == base * (2047 + 1024 * (m - 12))
  {
    SumOfWaits(base, m - 1);
    SmallPowers();
  }

  lemma {:induction false} PowersOutgrow(m: nat)
    requires m >= 4
    ensures PowerOfTwo(m - 1) - 1 > m
  {
    if m == 4 {
      assert PowerOfTwo(3) == 8;
    } else {
      PowersOutgrow(m - 1);
    }
  }

  /** How far before the last failure the record of `m` attempts dates the first one. */
  function RecordedAge(base: int, m: nat): int {
    -Wrap64(-base * m)
  }

  /**
    The failure record dates the first failure `base * attempts` back, whereas the time since then
    is the waits and the running times `running` of the attempts after the first. With no backoff
    it is right if those attempts took no time. Otherwise it is right for two attempts if the second
    ran for exactly the base, for three, the default, if their runs took no time, and never for one
    attempt, which is dated too early, or for more than three, which are dated too late.
   */
  lemma FirstFailureTime(base: int, m: nat, running: nat)
    requires m >= 1 && 0 <= base && Int64(base * 1024)
    ensures var elapsed := Sum(Waits(base, m - 1)) + running;
      && (base == 0 || m == 3 ==> (RecordedAge(base, m) == elapsed <==> running == 0))
      && (base > 0 && m == 1 ==> RecordedAge(base, m) == base)
      && (base > 0 && m == 2 ==> (RecordedAge(base, m) == elapsed <==> running == base))
      && (base > 0 && m > 3 ==> RecordedAge(base, m) < elapsed)
  {
    if m <= 3 {
      AgeUpToThree(base, m);
    } else if base > 0 {
      AgeBeyondThree(base, m);
    } else {
      SumOfWaits(base, m - 1);
      assert -base * m == 0 && base * Factor(m - 1) == 0;
    }
  }

  lemma AgeUpToThree(base: int, m: nat)
    requires 1 <= m <= 3 && 0 <= base && Int64(base * 1024)
    ensures RecordedAge(base, m) == base * m
    ensures Sum(Waits(base, m - 1)) == if m == 1 then 0 else if m == 2 then base else 3 * base
  {
    SumOfWaits(base, m - 1);
    assert PowerOfTwo(1) == 2 && PowerOfTwo(2) == 4;
    if m == 1 {
      assert -base * 1 == -base && base * 0 == 0;
    } else if m == 2 {
      assert -base * 2 == -(base * 2);
    } else {
      assert -base * 3 == -(base * 3);
    }
  }

  lemma AgeBeyondThree(base: int, m: nat)
    requires m > 3 && 0 < base && Int64(base * 1024)
    ensures RecordedAge(base, m) < Sum(Waits(base, m - 1))
  {
    SumOfWaits(base, m - 1);
    OutgrownByWaits(m);
    Ordered(base, m, Factor(m - 1));
    assert -base * m == -(base * m) <= 0;
    WrapMovesUp(-base * m);
  }

  lemma OutgrownByWaits(m: nat)
    requires m > 3
    ensures Factor(m - 1) > m
  {
    SmallPowers();
    if m <= 12 {
      PowersOutgrow(m);
    }
  }

  lemma Ordered(base: int, a: int, b: int)
    requires base > 0
    ensures a < b ==> base * a < base * b
    ensures a == b ==> base * a == base * b
  {
  }

  /**
    The stored record of a task that used up its attempts: what failed and why, how often, when last,
    and, as the age that FirstFailureTime is about, when first; and it is filed under that first day.
   */
  lemma FailureIsRecorded(g: Config, d: Disk, task: string, cause: string, attempts: nat, base: int, env: Env)
    ensures var x, reply := d.index, Workflow.Step(g, d, RecordTaskFailure(task, cause, attempts, base), env);
      var f := PermanentFailure(
        id := env.uuid1, entityType := "scheduler_task", entityId := task, taskType := task, lastError := cause,
        attempts := attempts, firstFailedAt := env.now - RecordedAge(base, attempts), lastFailedAt := env.now,
        status := ActiveFailure, resolvedAt := None, nextRetryAt := None,
        backoffState := "exhausted after " + IntText(attempts) + " attempts");
      && (reply.result == Ok(Nothing) || reply.result == Err(StoreFailure))
      && (reply.result.Err? ==> reply.disk.index == x)
      && (env.fault == NoFault && env.uuid1 !in x.failures ==> reply.result.Ok?)
      && (reply.result.Ok? ==>
            && reply.disk.index == x.(failures := x.failures[env.uuid1 := f])
            && reply.disk.files == Append(d.files, Path(Failures, Day(f.firstFailedAt)), FailureRec(f)))
  {
    var x, p := d.index, TaskFailurePlan(task, cause, attempts, base, env);
    CommitAnswers(g, d, RecordTaskFailure(task, cause, attempts, base), env);
    var w := p.writes[0];
    assert p.writes == [w] + [];
    ExecAllSplit(x, w, []);
    RunFromNext(d, p.writes, 0, env.late, env.fault);
  }

  // ---------------------------------------------------------------- the loop

  /** What the task does when called for the k-th time (from 0): succeed, or fail with a message. */
  type Task = nat -> Option<string>

  class Scheduler {
    const store: Store
    const maxRetries: int
    const baseBackoff: int

    constructor (store: Store, maxRetries: int, baseBackoff: int)
      ensures this.store == store && this.maxRetries == maxRetries && this.baseBackoff == baseBackoff
    {
      this.store, this.maxRetries, this.baseBackoff := store, maxRetries, baseBackoff;
    }

    method RecordFailure(task: string, cause: string, attempts: nat, env: Env, ghost config: Config) returns (ok: bool)
      requires store.Valid()
      modifies store
      ensures store.Valid()
      ensures Reply(store.State(), if ok then Ok(Nothing) else Err(StoreFailure))
        == Step(config, old(store.State()), RecordTaskFailure(task, cause, attempts, baseBackoff), env)
    {
      var failure := PermanentFailure(
        env.uuid1, "scheduler_task", task, task, cause, attempts, env.now + Wrap64(-baseBackoff * attempts), env.now,
        ActiveFailure, None, None, "exhausted after " + IntText(attempts) + " attempts");
      ok := store.WithTx([Save(FailureRec(failure))], env.late, env.fault);
    }

    /**
      runWithRetry. It ends, calling the task at most max(1, MaxRetries) times; it stops at the
      first success, at a cancelled wait, or when the attempts are used up, and only then is a
      failure recorded, once.
     */
    method RunWithRetry(name: string, task: Task, cancelled: nat -> bool, env: Env, ghost config: Config)
        returns (calls: nat, waits: seq<int>, recorded: bool)
      requires store.Valid()
      modifies store
      ensures store.Valid()
      ensures 1 <= calls <= (if maxRetries < 1 then 1 else maxRetries)
      ensures forall k: nat :: k + 1 < calls ==> task(k).Some? && !cancelled(k)
      ensures waits == Waits(baseBackoff, calls - 1)
      ensures recorded <==> task(calls - 1).Some? && calls >= maxRetries
      ensures task(calls - 1).None? || recorded || cancelled(calls - 1)
      ensures !recorded ==> store.State() == old(store.State())
      ensures recorded ==>
        store.State() == Step(config, old(store.State()), RecordTaskFailure(name, task(calls - 1).value, calls, baseBackoff), env).disk
    {
      calls, waits, recorded := 0, [], false;
      while true
        invariant store.Valid() && store.State() == old(store.State()) && !recorded
        invariant calls == 0 || calls < maxRetries
        invariant forall k: nat :: k < calls ==> task(k).Some? && !cancelled(k)
        invariant waits == Waits(baseBackoff, calls)
        decreases maxRetries - calls
      {
        var failure := task(calls);
        calls := calls + 1;
        if failure.None? {
          return;
        }
        if calls >= maxRetries {
          recorded := true;
          var ok := RecordFailure(name, failure.value, calls, env, config);
          return;
        }
        var backoff := CalculateBackoff(baseBackoff, calls);
        if cancelled(calls - 1) {
          return;
        }
        waits := waits + [backoff];
      }
    }
  }
}
