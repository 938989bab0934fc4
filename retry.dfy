/**
 * `RetryOnFailure(retries, logger)`: a decorator whose wrapper calls the
 * decorated function up to `retries` times, returns the value of the first
 * call that does not raise, logs a warning for every call that raises, and
 * after the last failure logs an error and returns `None`. The function is an
 * oracle: call number `k`, given its positional arguments, raises or returns.
 */
module Retry {
  import opened Wrappers

  /** What one call of the wrapped function does: raise with message `msg`, or return `value` (which may be `None`). */
  datatype Attempt<V> = Raise(msg: string) | Ok(value: V)

  /** A positional argument as the wrapped function receives it. */
  datatype Arg<A> = ArgsTuple(items: seq<A>) | KwargsDict(entries: map<string, A>)

  /** One run of the wrapper: what it returned, the argument lists of its calls in order, and what it logged. */
  datatype RetryRun<A, V> = RetryRun(result: Option<V>, calls: seq<seq<Arg<A>>>, log: seq<LogEntry>)

  /** `fn(args, kwargs)`: the tuple and the dict are passed as two arguments, not unpacked. */
  function Passed<A>(args: seq<A>, kwargs: map<string, A>): seq<Arg<A>> {
    [ArgsTuple(args), KwargsDict(kwargs)]
  }

  /** What the wrapper does from call number `k` on. */
  function RetryFrom<A, V>(retries: int, hasLogger: bool, args: seq<A>, kwargs: map<string, A>,
                           fn: (nat, seq<Arg<A>>) -> Attempt<Option<V>>, k: nat): RetryRun<A, V>
    decreases retries - k
  {
    if k >= retries then
      RetryRun(None, [], if hasLogger then [Error(TaskFailed)] else [])
    else
      match fn(k, Passed(args, kwargs))
      case Ok(v) => RetryRun(v, [Passed(args, kwargs)], [])
      case Raise(m) =>
        var rest := RetryFrom(retries, hasLogger, args, kwargs, fn, k + 1);
        RetryRun(rest.result, [Passed(args, kwargs)] + rest.calls,
                 (if hasLogger then [Warning(Retrying(m))] else []) + rest.log)
  }

  /** What a run looks like after `calls` and `log` were already made and written. */
  function Prepend<A, V>(calls: seq<seq<Arg<A>>>, log: seq<LogEntry>, run: RetryRun<A, V>): RetryRun<A, V> {
    RetryRun(run.result, calls + run.calls, log + run.log)
  }

  /** One failed call moves its argument list and its warning from the rest of the run to what was done. */
  lemma RetryFailedStep<A, V>(retries: int, hasLogger: bool, args: seq<A>, kwargs: map<string, A>,
                              fn: (nat, seq<Arg<A>>) -> Attempt<Option<V>>, k: nat,
                              calls: seq<seq<Arg<A>>>, log: seq<LogEntry>)
    requires k < retries && fn(k, Passed(args, kwargs)).Raise?
    ensures var warned := if hasLogger then [Warning(Retrying(fn(k, Passed(args, kwargs)).msg))] else [];
      Prepend(calls, log, RetryFrom(retries, hasLogger, args, kwargs, fn, k))
      == Prepend(calls + [Passed(args, kwargs)], log + warned, RetryFrom(retries, hasLogger, args, kwargs, fn, k + 1))
  {
    var rest := RetryFrom(retries, hasLogger, args, kwargs, fn, k + 1);
    var warned := if hasLogger then [Warning(Retrying(fn(k, Passed(args, kwargs)).msg))] else [];
    assert calls + ([Passed(args, kwargs)] + rest.calls) == (calls + [Passed(args, kwargs)]) + rest.calls;
    assert log + (warned + rest.log) == (log + warned) + rest.log;
  }

  /** The wrapper `retry(*args, **kwargs)`: the `for` loop with its early return. */
  method RetryOnFailure<A, V>(retries: int, hasLogger: bool, args: seq<A>, kwargs: map<string, A>,
                              fn: (nat, seq<Arg<A>>) -> Attempt<Option<V>>)
    returns (run: RetryRun<A, V>)
    ensures run == RetryFrom(retries, hasLogger, args, kwargs, fn, 0)
  {
    var calls: seq<seq<Arg<A>>> := [];
    var log: seq<LogEntry> := [];
    var k: nat := 0;
    assert Prepend(calls, log, RetryFrom(retries, hasLogger, args, kwargs, fn, 0))
        == RetryFrom(retries, hasLogger, args, kwargs, fn, 0);
    while k < retries
      invariant k == 0 || k <= retries
      invariant RetryFrom(retries, hasLogger, args, kwargs, fn, 0)
             == Prepend(calls, log, RetryFrom(retries, hasLogger, args, kwargs, fn, k))
    {
      var passed := Passed(args, kwargs);
      var outcome := fn(k, passed);
      if outcome.Ok? {
        return RetryRun(outcome.value, calls + [passed], log);
      }
      var warned: seq<LogEntry> := if hasLogger then [Warning(Retrying(outcome.msg))] else [];
      RetryFailedStep(retries, hasLogger, args, kwargs, fn, k, calls, log);
      calls := calls + [passed];
      log := log + warned;
      k := k + 1;
    }
    assert calls + [] == calls;
    if hasLogger {
      log := log + [Error(TaskFailed)];
    }
    return RetryRun(None, calls, log);
  }

  /**
   * If calls `k .. j-1` raise and call `j < retries` returns `v`, the wrapper
   * returns `v` after exactly those calls, having logged one warning per
   * failure and no error.
   */
  lemma {:induction false} RetryReturnsFirstSuccess<A, V>(retries: int, hasLogger: bool, args: seq<A>, kwargs: map<string, A>,
                                                          fn: (nat, seq<Arg<A>>) -> Attempt<Option<V>>, k: nat, j: nat)
    requires k <= j < retries
    requires forall i :: k <= i < j ==> fn(i, Passed(args, kwargs)).Raise?
    requires fn(j, Passed(args, kwargs)).Ok?
    ensures var run := RetryFrom(retries, hasLogger, args, kwargs, fn, k);
      && run.result == fn(j, Passed(args, kwargs)).value
      && |run.calls| == j - k + 1
      && |run.log| == (if hasLogger then j - k else 0)
      && forall i :: 0 <= i < |run.log| ==> run.log[i] == Warning(Retrying(fn(k + i, Passed(args, kwargs)).msg))
    decreases j - k
  {
    if k < j {
      RetryReturnsFirstSuccess(retries, hasLogger, args, kwargs, fn, k + 1, j);
    }
  }

  /**
   * If every call from `k` on raises, the wrapper makes exactly the remaining
   * `retries - k` calls, logs one warning per call and then one error, and
   * returns `None` instead of raising.
   */
  lemma {:induction false} RetryExhausts<A, V>(retries: int, hasLogger: bool, args: seq<A>, kwargs: map<string, A>,
                                               fn: (nat, seq<Arg<A>>) -> Attempt<Option<V>>, k: nat)
    requires forall i :: k <= i < retries ==> fn(i, Passed(args, kwargs)).Raise?
    ensures var run := RetryFrom(retries, hasLogger, args, kwargs, fn, k);
      && run.result == None
      && |run.calls| == (if retries > k then retries - k else 0)
      && |run.log| == (if !hasLogger then 0 else if retries > k then retries - k + 1 else 1)
      && (hasLogger ==> run.log[|run.log| - 1] == Error(TaskFailed))
      && forall i :: 0 <= i < |run.log| - 1 ==> run.log[i] == Warning(Retrying(fn(k + i, Passed(args, kwargs)).msg))
    decreases retries - k
  {
    if k < retries {
      var run := RetryFrom(retries, hasLogger, args, kwargs, fn, k);
      var rest := RetryFrom(retries, hasLogger, args, kwargs, fn, k + 1);
      var m := fn(k, Passed(args, kwargs)).msg;
      RetryExhausts(retries, hasLogger, args, kwargs, fn, k + 1);
      assert run.log == (if hasLogger then [Warning(Retrying(m))] else []) + rest.log;
      if hasLogger {
        forall i | 1 <= i < |run.log| - 1
          ensures run.log[i] == Warning(Retrying(fn(k + i, Passed(args, kwargs)).msg))
        {
          assert run.log[i] == rest.log[i - 1];
        }
      }
    }
  }

  /** With `retries <= 0` the function is never called and `None` is returned. */
  lemma NoRetriesNoCalls<A, V>(retries: int, hasLogger: bool, args: seq<A>, kwargs: map<string, A>,
                               fn: (nat, seq<Arg<A>>) -> Attempt<Option<V>>)
    requires retries <= 0
    ensures RetryFrom(retries, hasLogger, args, kwargs, fn, 0).result == None
    ensures RetryFrom(retries, hasLogger, args, kwargs, fn, 0).calls == []
  {
  }

  /** The error is logged exactly when a logger is given and every call raised. */
  lemma {:induction false} RetryErrorOnlyOnExhaustion<A, V>(retries: int, hasLogger: bool, args: seq<A>, kwargs: map<string, A>,
                                                            fn: (nat, seq<Arg<A>>) -> Attempt<Option<V>>, k: nat)
    ensures Error(TaskFailed) in RetryFrom(retries, hasLogger, args, kwargs, fn, k).log
        <==> hasLogger && forall i :: k <= i < retries ==> fn(i, Passed(args, kwargs)).Raise?
    decreases retries - k
  {
    var run := RetryFrom(retries, hasLogger, args, kwargs, fn, k);
    if k < retries {
      RetryErrorOnlyOnExhaustion(retries, hasLogger, args, kwargs, fn, k + 1);
      if fn(k, Passed(args, kwargs)).Raise? {
        var rest := RetryFrom(retries, hasLogger, args, kwargs, fn, k + 1);
        assert Error(TaskFailed) in run.log <==> Error(TaskFailed) in rest.log;
        if hasLogger && forall i :: k + 1 <= i < retries ==> fn(i, Passed(args, kwargs)).Raise? {
          forall i | k <= i < retries ensures fn(i, Passed(args, kwargs)).Raise? {
          }
        }
      }
    }
  }

  /**
   * A first call that returns `None` gives the caller the same value as
   * exhaustion, so the two cannot be told apart from the result.
   */
  lemma SuccessWithNoneLooksExhausted<A, V>(retries: int, hasLogger: bool, args: seq<A>, kwargs: map<string, A>,
                                            fn: (nat, seq<Arg<A>>) -> Attempt<Option<V>>,
                                            failing: (nat, seq<Arg<A>>) -> Attempt<Option<V>>)
    requires retries > 0
    requires fn(0, Passed(args, kwargs)) == Ok(None)
    requires forall i, p :: failing(i, p).Raise?
    ensures RetryFrom(retries, hasLogger, args, kwargs, fn, 0).result
         == RetryFrom(retries, hasLogger, args, kwargs, failing, 0).result
         == None
  {
    RetryExhausts(retries, hasLogger, args, kwargs, failing, 0);
  }

  /**
   * A value the wrapper returns is the value some call returned, and every
   * call receives the argument tuple and the keyword dict as two positional
   * arguments.
   */
  lemma {:induction false} RetryResultCameFromACall<A, V>(retries: int, hasLogger: bool, args: seq<A>, kwargs: map<string, A>,
                                                         fn: (nat, seq<Arg<A>>) -> Attempt<Option<V>>, k: nat)
    ensures var run := RetryFrom(retries, hasLogger, args, kwargs, fn, k);
      run.result.Some? ==> exists i :: k <= i < retries && fn(i, Passed(args, kwargs)) == Ok(run.result)
    ensures forall c :: c in RetryFrom(retries, hasLogger, args, kwargs, fn, k).calls ==>
              c == [ArgsTuple(args), KwargsDict(kwargs)]
    decreases retries - k
  {
    if k < retries && fn(k, Passed(args, kwargs)).Raise? {
      RetryResultCameFromACall(retries, hasLogger, args, kwargs, fn, k + 1);
    }
  }
}
