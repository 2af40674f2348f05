/** The lazily created global context (mysql_server.py:51-83): the module-level
    `_global_context` starts as `None`; `get_context` calls `create_pool` only
    while it is `None`, stores the new context only after `create_pool` has
    returned, and then always yields the stored context. */
module Lifecycle {
  import opened Outcomes

  /** An open connection pool, known only by its identity; its sizes, charset
      and autocommit setting are not modelled. */
  datatype Pool = Pool(id: nat)

  /** `MysqlContext(pool=pool)`. */
  datatype Context = Context(pool: Pool)

  /** One `get_context` call. `attempt` is what `create_pool` would return or
      raise; it is consulted only when no context is stored. The result is the
      new value of `_global_context` and what the call yields or raises. A
      stored context is never replaced, the call yields exactly the stored
      context, a pool returned while none is stored is stored and yielded,
      and a failed creation leaves nothing stored. */
  function Resolve(current: Option<Context>, attempt: Outcome<Pool>): (r: (Option<Context>, Outcome<Context>))
    ensures current.Some? ==> r.0 == current
    ensures r.1.Returned? <==> r.0.Some?
    ensures r.1.Returned? ==> r.0 == Some(r.1.value)
    ensures current.None? && attempt.Returned? ==>
              r == (Some(Context(attempt.value)), Returned(Context(attempt.value)))
    ensures current.None? && attempt.Raised? ==> r == (None, Raised(attempt.error))
  {
    match current
    case Some(context) => (current, Returned(context))
    case None =>
      match attempt
      case Returned(pool) => (Some(Context(pool)), Returned(Context(pool)))
      case Raised(e) => (None, Raised(e))
  }

  /** What a sequence of `get_context` calls did: what each call yielded or raised, the
      pools `create_pool` returned, how often `create_pool` was invoked, and
      the final value of `_global_context`. */
  datatype Run = Run(results: seq<Outcome<Context>>, created: seq<Pool>, invocations: nat,
                     final: Option<Context>)

  /** Consecutive `get_context` calls, the `k`-th with `attempts[k]` as what
      `create_pool` would give it. */
  function RunCalls(current: Option<Context>, attempts: seq<Outcome<Pool>>): (run: Run)
    ensures |run.results| == |attempts|
    decreases |attempts|
  {
    if attempts == [] then Run([], [], 0, current)
    else
      var (next, result) := Resolve(current, attempts[0]);
      var rest := RunCalls(next, attempts[1..]);
      var made := if current.None? && attempts[0].Returned? then [attempts[0].value] else [];
      Run([result] + rest.results, made + rest.created,
          (if current.None? then 1 else 0) + rest.invocations, rest.final)
  }

  /** Once a context is stored, every call yields it and nothing is created. */
  lemma {:induction false} RunKeepsContext(current: Option<Context>, attempts: seq<Outcome<Pool>>)
    requires current.Some?
    ensures var run := RunCalls(current, attempts);
      && run.created == [] && run.invocations == 0 && run.final == current
      && forall k :: 0 <= k < |attempts| ==> run.results[k] == Returned(current.value)
    decreases |attempts|
  {
    if attempts != [] {
      RunKeepsContext(current, attempts[1..]);
    }
  }

  /** Every call before position `k` raised. */
  predicate FailedBefore(results: seq<Outcome<Context>>, k: nat)
    requires k <= |results|
  {
    forall j :: 0 <= j < k ==> results[j].Raised?
  }

  lemma FailedBeforeCons(result: Outcome<Context>, rest: seq<Outcome<Context>>, k: nat)
    requires k <= |rest|
    ensures FailedBefore([result] + rest, k + 1) <==> result.Raised? && FailedBefore(rest, k)
  {
    var all := [result] + rest;
    if result.Raised? && FailedBefore(rest, k) {
      forall j | 0 <= j < k + 1 ensures all[j].Raised? {
        if j > 0 { assert all[j] == rest[j - 1]; }
      }
    }
    if FailedBefore(all, k + 1) {
      assert all[0] == result;
      forall j | 0 <= j < k ensures rest[j].Raised? {
        assert all[j + 1] == rest[j];
      }
    }
  }

  /** Starting from no context, `create_pool` succeeds at most once, the pool
      it returns is the one finally stored, and the global stays `None`
      exactly when every call raised. */
  lemma {:induction false} RunCreatesOnce(attempts: seq<Outcome<Pool>>)
    ensures var run := RunCalls(None, attempts);
      && |run.created| <= 1
      && (run.final.Some? ==> run.created == [run.final.value.pool])
      && (run.final.None? ==> run.created == [])
      && (run.final.None? <==> FailedBefore(run.results, |attempts|))
    decreases |attempts|
  {
    if attempts != [] {
      var run := RunCalls(None, attempts);
      var (next, result) := Resolve(None, attempts[0]);
      var rest := RunCalls(next, attempts[1..]);
      assert run.results == [result] + rest.results;
      if attempts[0].Raised? {
        RunCreatesOnce(attempts[1..]);
        FailedBeforeCons(result, rest.results, |attempts| - 1);
      } else {
        RunKeepsContext(next, attempts[1..]);
        assert !run.results[0].Raised?;
      }
    }
  }

  /** Starting from no context, `create_pool` is invoked by exactly the calls
      that find every earlier call failed. */
  lemma {:induction false} RunInvokesUntilSuccess(attempts: seq<Outcome<Pool>>)
    ensures var run := RunCalls(None, attempts);
      && run.invocations <= |attempts|
      && forall k :: 0 <= k < |attempts| ==> (k < run.invocations <==> FailedBefore(run.results, k))
    decreases |attempts|
  {
    if attempts != [] {
      var run := RunCalls(None, attempts);
      var (next, result) := Resolve(None, attempts[0]);
      var rest := RunCalls(next, attempts[1..]);
      assert run.results == [result] + rest.results;
      if attempts[0].Raised? {
        RunInvokesUntilSuccess(attempts[1..]);
        forall k | 0 <= k < |attempts|
          ensures k < run.invocations <==> FailedBefore(run.results, k)
        {
          if k > 0 {
            FailedBeforeCons(result, rest.results, k - 1);
          }
        }
      } else {
        RunKeepsContext(next, attempts[1..]);
        forall k | 0 <= k < |attempts|
          ensures k < run.invocations <==> FailedBefore(run.results, k)
        {
          if k > 0 {
            assert !run.results[0].Raised?;
          }
        }
      }
    }
  }

  /** After the first call that yields a context, every later call yields the
      identical context. */
  lemma {:induction false} RunYieldsSameContext(current: Option<Context>, attempts: seq<Outcome<Pool>>, i: nat, j: nat)
    requires i < j < |attempts|
    requires RunCalls(current, attempts).results[i].Returned?
    ensures RunCalls(current, attempts).results[j] == RunCalls(current, attempts).results[i]
    decreases |attempts|
  {
    var run := RunCalls(current, attempts);
    var (next, result) := Resolve(current, attempts[0]);
    var rest := RunCalls(next, attempts[1..]);
    assert run.results == [result] + rest.results;
    if i == 0 {
      RunKeepsContext(next, attempts[1..]);
      assert rest.results[j - 1] == Returned(next.value);
    } else {
      RunYieldsSameContext(next, attempts[1..], i - 1, j - 1);
    }
  }
}
