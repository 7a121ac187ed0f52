/** The `retry(howmany)` decorator. The wrapped function is called until one
    call returns; each exception prints a notice, and the counter of attempts is
    raised only together with logging the exception, which happens only while
    the counter is still 0. The counter therefore moves from 0 to 1 and no
    further: with `howmany >= 2` the wrapper never gives up, with `howmany == 1`
    it makes exactly one call, and with `howmany <= 0` it makes none, returning
    `None` in the last two cases. The one-second sleep before the loop is left
    out.

    The wrapped function is represented by the outcomes of its successive calls.
    When those run out while the wrapper would still call again, the run is
    `Exhausted`: the real wrapper would carry on calling. */
module Retry {
  import opened Wrappers

  /** How a run of the wrapper ends. */
  datatype RetryResult<+T> =
    | Returned(value: T)   // the value of the first call that did not raise
    | GaveUp               // the loop ended: the wrapper returns `None`
    | Exhausted            // the scripted outcomes ran out; the wrapper would call again

  /** A whole run: how it ended, how many calls it made, and which exceptions
      it wrote to the log. */
  datatype RetryRun<+T> = RetryRun(result: RetryResult<T>, calls: nat, logged: seq<Fault>)

  /** The run of the wrapper from a state where the counter is `attempts` and
      the remaining calls will produce `outcomes`. */
  function RetryFrom<T>(howmany: int, outcomes: seq<Reply<T>>, attempts: nat): RetryRun<T>
    decreases |outcomes|
  {
    if attempts >= howmany then RetryRun(GaveUp, 0, [])
    else if outcomes == [] then RetryRun(Exhausted, 0, [])
    else match outcomes[0]
      case Ok(v) => RetryRun(Returned(v), 1, [])
      case Raised(e) =>
        var rest := RetryFrom(howmany, outcomes[1..], if attempts == 0 then 1 else attempts);
        RetryRun(rest.result, rest.calls + 1, (if attempts == 0 then [e] else []) + rest.logged)
  }

  /** `i` is the first call that returned: all calls before it raised. */
  predicate FirstReturnAt<T>(outcomes: seq<Reply<T>>, i: int)
  {
    0 <= i < |outcomes| && outcomes[i].Ok? && forall j :: 0 <= j < i ==> outcomes[j].Raised?
  }

  /** The wrapper's loop. `attempts` is the counter of the source; it never
      exceeds 1. */
  method RunRetry<T>(howmany: int, outcomes: seq<Reply<T>>)
    returns (result: RetryResult<T>, calls: nat, logged: seq<Fault>)
    ensures RetryRun(result, calls, logged) == RetryFrom(howmany, outcomes, 0)
  {
    var attempts: nat := 0;
    calls, logged := 0, [];
    while attempts < howmany
      invariant attempts <= 1
      invariant calls <= |outcomes|
      invariant attempts == 0 ==> calls == 0
      invariant var rest := RetryFrom(howmany, outcomes[calls..], attempts);
        RetryFrom(howmany, outcomes, 0) == RetryRun(rest.result, calls + rest.calls, logged + rest.logged)
      decreases |outcomes| - calls
    {
      if calls == |outcomes| {
        result := Exhausted;
        return;
      }
      var outcome := outcomes[calls];
      assert outcomes[calls..][1..] == outcomes[calls + 1..];
      calls := calls + 1;
      match outcome {
        case Ok(v) =>
          result := Returned(v);
          return;
        case Raised(e) =>
          if attempts == 0 {
            logged := logged + [e];
            attempts := attempts + 1;
          }
      }
    }
    result := GaveUp;
  }

  /** With `howmany <= 0` the function is never called and `None` is returned. */
  lemma RetryNeverCalls<T>(howmany: int, outcomes: seq<Reply<T>>)
    requires howmany <= 0
    ensures RetryFrom(howmany, outcomes, 0) == RetryRun(GaveUp, 0, [])
  {
  }

  /** With `howmany == 1` the function is called once: its value is returned,
      or its exception is logged and `None` is returned. */
  lemma RetryOnce<T>(outcomes: seq<Reply<T>>)
    requires outcomes != []
    ensures outcomes[0].Ok? ==> RetryFrom(1, outcomes, 0) == RetryRun(Returned(outcomes[0].value), 1, [])
    ensures outcomes[0].Raised? ==> RetryFrom(1, outcomes, 0) == RetryRun(GaveUp, 1, [outcomes[0].fault])
  {
    if outcomes[0].Raised? {
      assert RetryFrom(1, outcomes[1..], 1) == RetryRun(GaveUp, 0, []);
    }
  }

  /** Once the counter is 1 and `howmany >= 2`, the wrapper calls until a call
      returns, logs nothing more, and never gives up. */
  lemma {:induction false} RetryKeepsCalling<T>(howmany: int, outcomes: seq<Reply<T>>)
    requires howmany >= 2
    ensures var run := RetryFrom(howmany, outcomes, 1);
      && run.logged == []
      && !run.result.GaveUp?
      && (run.result.Returned? ==>
            FirstReturnAt(outcomes, run.calls - 1) && run.result.value == outcomes[run.calls - 1].value)
      && (run.result.Exhausted? ==>
            run.calls == |outcomes| && forall j :: 0 <= j < |outcomes| ==> outcomes[j].Raised?)
    decreases |outcomes|
  {
    if outcomes != [] && outcomes[0].Raised? {
      RetryKeepsCalling(howmany, outcomes[1..]);
      var run := RetryFrom(howmany, outcomes, 1);
      var rest := RetryFrom(howmany, outcomes[1..], 1);
      assert run == RetryRun(rest.result, rest.calls + 1, rest.logged);
      if run.result.Returned? {
        assert FirstReturnAt(outcomes[1..], rest.calls - 1);
        forall j | 0 <= j < run.calls - 1 ensures outcomes[j].Raised? {
          if j > 0 { assert outcomes[j] == outcomes[1..][j - 1]; }
        }
      }
      if run.result.Exhausted? {
        forall j | 0 <= j < |outcomes| ensures outcomes[j].Raised? {
          if j > 0 { assert outcomes[j] == outcomes[1..][j - 1]; }
        }
      }
    }
  }

  /** With `howmany >= 2` (the bot uses 20) the wrapper returns the value of
      the first call that does not raise, logs only the first exception, and
      never gives up: when every call raises it keeps calling. */
  lemma RetryUntilReturn<T>(howmany: int, outcomes: seq<Reply<T>>)
    requires howmany >= 2
    ensures var run := RetryFrom(howmany, outcomes, 0);
      && !run.result.GaveUp?
      && run.logged == (if outcomes != [] && outcomes[0].Raised? then [outcomes[0].fault] else [])
      && (run.result.Returned? <==> exists i :: FirstReturnAt(outcomes, i))
      && (run.result.Returned? ==>
            FirstReturnAt(outcomes, run.calls - 1) && run.result.value == outcomes[run.calls - 1].value)
      && (run.result.Exhausted? ==> run.calls == |outcomes|)
  {
    var run := RetryFrom(howmany, outcomes, 0);
    if outcomes != [] && outcomes[0].Raised? {
      RetryKeepsCalling(howmany, outcomes[1..]);
      var rest := RetryFrom(howmany, outcomes[1..], 1);
      assert run == RetryRun(rest.result, rest.calls + 1, [outcomes[0].fault] + rest.logged);
      if rest.result.Returned? {
        assert FirstReturnAt(outcomes[1..], rest.calls - 1);
        forall j | 0 <= j < run.calls - 1 ensures outcomes[j].Raised? {
          if j > 0 { assert outcomes[j] == outcomes[1..][j - 1]; }
        }
        assert FirstReturnAt(outcomes, run.calls - 1);
      } else {
        forall i | 0 <= i < |outcomes| ensures !FirstReturnAt(outcomes, i) {
          if i > 0 { assert outcomes[i] == outcomes[1..][i - 1]; }
        }
      }
    } else if outcomes != [] {
      assert FirstReturnAt(outcomes, 0);
    }
  }

  /** A run whose calls all raise up to a last one that returns `v` returns
      `v`; a run whose scripted calls all raise is exhausted. `howmany` must
      allow the last call: one call needs `howmany >= 1`, more need `>= 2`. */
  lemma RetryAfterFailures<T>(howmany: int, fails: seq<Reply<T>>, v: T)
    requires forall i :: 0 <= i < |fails| ==> fails[i].Raised?
    requires howmany >= (if fails == [] then 1 else 2)
    ensures RetryFrom(howmany, fails + [Ok(v)], 0).result == Returned(v)
    ensures RetryFrom(howmany, fails, 0).result == Exhausted
  {
    if fails == [] {
      assert fails + [Ok(v)] == [Ok(v)];
    } else {
      var o := fails + [Ok(v)];
      RetryUntilReturn(howmany, o);
      assert FirstReturnAt(o, |fails|);
      var run := RetryFrom(howmany, o, 0);
      assert FirstReturnAt(o, run.calls - 1);
      RetryUntilReturn(howmany, fails);
      assert forall i :: !FirstReturnAt(fails, i);
    }
  }
}
