/** The `retries(n)` decorator, as a synchronous loop around an operation that returns a value
    or raises. The operation is abstract: `op(k)` is what its `k`-th call (from 0) does. */
module Retry {
  import opened Wrappers

  /** One call of the wrapped operation: it returns a value, or raises an `Exception`, which is
      all the wrapper's `except` catches. A `BaseException` outside that class (`KeyboardInterrupt`,
      `SystemExit`, `asyncio.CancelledError`) passes through the wrapper and is not modelled. */
  datatype Attempt<+T> = Returned(value: T) | Raised

  /** What a wrapped call returns (`None` for a bare `return`) and how often it called `op`. */
  datatype Run<+T> = Run(result: Option<T>, calls: nat)

  /** How many times `range(n)` iterates. */
  function Max0(n: int): nat { if n > 0 then n else 0 }

  /** The wrapper as written: `return` ends the `except` arm as well as the `try` arm, so the
      first call is the only one, and `range(retries)` is empty when `retries <= 0`. */
  function AsWritten<T>(retries: int, op: nat -> Attempt<T>): (run: Run<T>)
    ensures run.calls <= 1
    ensures run.calls == 0 <==> retries <= 0
    ensures run.result.Some? <==> retries > 0 && op(0).Returned?
  {
    if retries <= 0 then Run(None, 0)
    else
      match op(0)
      case Returned(v) => Run(Some(v), 1)
      case Raised => Run(None, 1)
  }

  /** The wrapper's loop, step by step as the decorator runs it; the log message is not modelled. */
  method RetryWrapper<T>(retries: int, op: nat -> Attempt<T>) returns (r: Option<T>, calls: nat)
    ensures Run(r, calls) == AsWritten(retries, op)
  {
    r, calls := None, 0;
    for iter := 0 to Max0(retries)
      invariant iter == 0 && calls == 0 && r == None
    {
      calls := calls + 1;
      match op(iter)
      case Returned(v) =>
        r := Some(v);
        return;
      case Raised =>
        return;
    }
  }

  /** The policy the log messages describe: call again after each failure, up to `retries`
      calls in all, and give `None` once they are used up. `From` starts at call `k`. */
  function From<T>(retries: int, op: nat -> Attempt<T>, k: nat): Run<T>
    decreases retries - k
  {
    if k >= retries then Run(None, k)
    else
      match op(k)
      case Returned(v) => Run(Some(v), k + 1)
      case Raised => From(retries, op, k + 1)
  }

  function Intended<T>(retries: int, op: nat -> Attempt<T>): Run<T> {
    From(retries, op, 0)
  }

  lemma {:induction false} FromSpec<T>(retries: int, op: nat -> Attempt<T>, k: nat)
    requires forall j :: 0 <= j < k ==> op(j).Raised?
    requires k <= Max0(retries)
    ensures var run := From(retries, op, k);
      k <= run.calls <= Max0(retries) &&
      (forall j :: 0 <= j < run.calls - 1 ==> op(j).Raised?) &&
      (run.result.Some? <==> run.calls > 0 && op(run.calls - 1).Returned?) &&
      (run.result.Some? ==> run.result.value == op(run.calls - 1).value) &&
      (run.result.None? ==> run.calls == Max0(retries) && forall j :: 0 <= j < run.calls ==> op(j).Raised?)
    decreases retries - k
  {
    if k < retries && op(k).Raised? {
      FromSpec(retries, op, k + 1);
    }
  }

  /** The intended policy returns the first success within `retries` calls, each earlier call
      having raised; with no success it makes all `retries` calls and returns `None`. */
  lemma IntendedSpec<T>(retries: int, op: nat -> Attempt<T>)
    ensures var run := Intended(retries, op);
      run.calls <= Max0(retries) &&
      (forall j :: 0 <= j < run.calls - 1 ==> op(j).Raised?) &&
      (run.result.Some? <==> run.calls > 0 && op(run.calls - 1).Returned?) &&
      (run.result.Some? ==> run.result.value == op(run.calls - 1).value) &&
      (run.result.None? ==> run.calls == Max0(retries) && forall j :: 0 <= j < run.calls ==> op(j).Raised?)
  {
    FromSpec(retries, op, 0);
  }

  /** The intended loop: the `except` arm logs and falls through to the next iteration. */
  method RetryWrapperIntended<T>(retries: int, op: nat -> Attempt<T>) returns (r: Option<T>, calls: nat)
    ensures Run(r, calls) == Intended(retries, op)
  {
    r, calls := None, 0;
    for iter := 0 to Max0(retries)
      invariant calls == iter && r == None
      invariant From(retries, op, iter) == Intended(retries, op)
    {
      calls := calls + 1;
      match op(iter) {
        case Returned(v) =>
          r := Some(v);
          return;
        case Raised =>
      }
    }
  }

  /** As written, the wrapper is the intended policy with the attempts capped at one. */
  lemma AsWrittenIsOneAttempt<T>(retries: int, op: nat -> Attempt<T>)
    ensures AsWritten(retries, op) == Intended(if retries > 0 then 1 else 0, op)
  {
  }

  /** An operation that always raises, wrapped with any `retries >= 2` (the configured count is
      3): the code as written gives up after one call, the intended policy makes `retries`. */
  lemma AsWrittenGivesUpAfterFirstFailure<T>(retries: int, op: nat -> Attempt<T>)
    requires retries >= 2
    requires forall k: nat :: op(k).Raised?
    ensures AsWritten(retries, op) == Run(None, 1)
    ensures Intended(retries, op) == Run(None, retries)
  {
    IntendedSpec(retries, op);
  }
}
