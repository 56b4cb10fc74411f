/**
  A model of the CloudWatch alarm-state setter: a driver that reads three
  environment values, loads the provider configuration, and then sets the
  alarm's state through a bounded retry loop with exponential backoff.

  The remote call is abstracted as a script of outcomes, one per call
  (`true` when the call returned no error). What the program does to the
  outside world is recorded, in order, as a trace of events: each remote call
  with its request, and each sleep with its duration, in nanoseconds as Go's
  `time.Duration` counts them. The process exit is a returned exit code.
 */
module AlarmManager {

  /** Retry policy constants. */
  const MaxRetries: nat := 3
  /** One second, in nanoseconds. */
  const InitialBackoff: nat := 1_000_000_000
  /** The terminal error message returned once every attempt has failed. */
  const ExceededMaxRetries: string := "exceeded maximum retries"

  /** Names of the three environment variables the driver reads. */
  const AlarmNameVar: string := "CLOUDWATCH_ALARM_NAME"
  const AlarmStateVar: string := "ALARM_STATE"
  const AlarmReasonVar: string := "ALARM_REASON"

  /** Largest value of Go's int64 `time.Duration`. */
  const MaxDuration: int := 0x7FFF_FFFF_FFFF_FFFF

  /** A Go `error`: `Success` stands for `nil`. */
  datatype Outcome = Success | Failure(message: string)

  /** The request sent to the remote service on each attempt. */
  datatype SetAlarmStateInput = SetAlarmStateInput(alarmName: string, stateValue: string, stateReason: string)

  /** One observable step of a run: a remote call, or a sleep. */
  datatype Event = Call(input: SetAlarmStateInput) | Sleep(duration: int)

  // ---------------------------------------------------------------------------
  // The request builder

  /** Builds one request from the three strings; the state string is carried
      over as it is, without any local validation. */
  function NewSetAlarmStateInput(name: string, state: string, reason: string): (input: SetAlarmStateInput)
    ensures input.alarmName == name && input.stateValue == state && input.stateReason == reason
  {
    SetAlarmStateInput(name, state, reason)
  }

  // ---------------------------------------------------------------------------
  // Specification of the retry policy

  function Pow2(n: nat): (r: nat)
    ensures r >= 1
  {
    if n == 0 then 1 else 2 * Pow2(n - 1)
  }

  /** Index of the first successful call among calls i .. MaxRetries-1, or
      MaxRetries when none of them succeeds. */
  function FirstSuccessFrom(script: seq<bool>, i: nat): (k: nat)
    requires |script| >= MaxRetries && i <= MaxRetries
    ensures i <= k <= MaxRetries
    ensures forall j :: i <= j < k ==> !script[j]
    ensures k < MaxRetries ==> script[k]
    decreases MaxRetries - i
  {
    if i == MaxRetries then MaxRetries
    else if script[i] then i
    else FirstSuccessFrom(script, i + 1)
  }

  /** The number of calls that fail before the loop stops. */
  function FailedAttempts(script: seq<bool>): (k: nat)
    requires |script| >= MaxRetries
  {
    FirstSuccessFrom(script, 0)
  }

  /** The number of remote calls the retry loop makes. */
  function AttemptsMade(script: seq<bool>): (n: nat)
    requires |script| >= MaxRetries
  {
    if FailedAttempts(script) < MaxRetries then FailedAttempts(script) + 1 else MaxRetries
  }

  /** The error the retry loop returns. */
  function RetryResult(script: seq<bool>): (r: Outcome)
    requires |script| >= MaxRetries
  {
    if FailedAttempts(script) < MaxRetries then Success else Failure(ExceededMaxRetries)
  }

  /** Some call within the attempt budget succeeds. */
  ghost predicate SomeCallSucceeds(script: seq<bool>)
    requires |script| >= MaxRetries
  {
    exists j :: 0 <= j < MaxRetries && script[j]
  }

  /** The durations slept after the first n failed attempts. */
  function BackoffSchedule(n: nat): (s: seq<int>)
  {
    seq(n, i requires 0 <= i => InitialBackoff * Pow2(i))
  }

  function Sum(s: seq<int>): (total: int)
  {
    if s == [] then 0 else Sum(s[..|s| - 1]) + s[|s| - 1]
  }

  // ---------------------------------------------------------------------------
  // Traces

  /** Calls and sleeps alternate, starting with a call. */
  ghost predicate Alternates(trace: seq<Event>)
  {
    forall i :: 0 <= i < |trace| ==> (trace[i].Call? <==> i % 2 == 0)
  }

  /** The requests of the calls in a trace, in order. */
  function Calls(trace: seq<Event>): (inputs: seq<SetAlarmStateInput>)
  {
    if trace == [] then []
    else Calls(trace[..|trace| - 1]) + (if trace[|trace| - 1].Call? then [trace[|trace| - 1].input] else [])
  }

  /** The durations of the sleeps in a trace, in order. */
  function Sleeps(trace: seq<Event>): (durations: seq<int>)
  {
    if trace == [] then []
    else Sleeps(trace[..|trace| - 1]) + (if trace[|trace| - 1].Sleep? then [trace[|trace| - 1].duration] else [])
  }

  /** The trace of n failed attempts: each sends `input` and then sleeps for
      the backoff reached so far. */
  function FailedRounds(input: SetAlarmStateInput, n: nat): (trace: seq<Event>)
    ensures |trace| == 2 * n
  {
    if n == 0 then [] else FailedRounds(input, n - 1) + [Call(input), Sleep(InitialBackoff * Pow2(n - 1))]
  }

  /** The trace of the retry loop: its failed attempts, then the successful
      call if there is one. */
  function RetryTrace(script: seq<bool>, input: SetAlarmStateInput): (trace: seq<Event>)
    requires |script| >= MaxRetries
  {
    FailedRounds(input, FailedAttempts(script)) + (if FailedAttempts(script) < MaxRetries then [Call(input)] else [])
  }

  // ---------------------------------------------------------------------------
  // The retry loop

  /** Sets the alarm state, retrying a failed call after an exponentially
      growing backoff, until a call succeeds or MaxRetries calls have failed.
      `script[j]` is the outcome of the (j+1)-th remote call. Returns the error,
      the trace of calls and sleeps, and (ghost) the backoff value the loop
      ends with. */
  method SetAlarmStateWithRetry(script: seq<bool>, name: string, state: string, reason: string)
    returns (err: Outcome, trace: seq<Event>, ghost finalBackoff: int)
    requires |script| >= MaxRetries
    ensures trace == RetryTrace(script, NewSetAlarmStateInput(name, state, reason))
    ensures Alternates(trace)
    ensures |Calls(trace)| == AttemptsMade(script)
    ensures forall j :: 0 <= j < |Calls(trace)| ==> Calls(trace)[j] == NewSetAlarmStateInput(name, state, reason)
    ensures Sleeps(trace) == BackoffSchedule(FailedAttempts(script))
    ensures err == RetryResult(script)
    ensures finalBackoff == InitialBackoff * Pow2(FailedAttempts(script))
  {
    var attempt := 1;
    var backoff := InitialBackoff;
    trace := [];
    while attempt <= MaxRetries
      invariant 1 <= attempt <= MaxRetries + 1
      invariant trace == FailedRounds(NewSetAlarmStateInput(name, state, reason), attempt - 1)
      invariant forall j :: 0 <= j < attempt - 1 ==> !script[j]
      invariant backoff == InitialBackoff * Pow2(attempt - 1)
    {
      var input := NewSetAlarmStateInput(name, state, reason);
      trace := trace + [Call(input)];
      if script[attempt - 1] {
        FailedAttemptsIs(script, attempt - 1);
        RetryTraceShape(script, input);
        err, finalBackoff := Success, backoff;
        return;
      }
      trace := trace + [Sleep(backoff)];
      backoff := backoff * 2;
      attempt := attempt + 1;
    }
    FailedAttemptsIs(script, MaxRetries);
    RetryTraceShape(script, NewSetAlarmStateInput(name, state, reason));
    err, finalBackoff := Failure(ExceededMaxRetries), backoff;
  }

  // ---------------------------------------------------------------------------
  // Properties of the retry policy

  /** Calls 0 .. k-1 failing and call k succeeding (when k < MaxRetries) fix the number of failed calls. */
  lemma FailedAttemptsIs(script: seq<bool>, k: nat)
    requires |script| >= MaxRetries && k <= MaxRetries
    requires forall j :: 0 <= j < k ==> !script[j]
    requires k < MaxRetries ==> script[k]
    ensures FailedAttempts(script) == k
  {
  }

  /** n failed attempts alternate call and sleep, send `input` n times and
      sleep for the first n backoff durations. */
  lemma {:induction false} FailedRoundsShape(input: SetAlarmStateInput, n: nat)
    ensures Alternates(FailedRounds(input, n))
    ensures |Calls(FailedRounds(input, n))| == n
    ensures forall j :: 0 <= j < n ==> Calls(FailedRounds(input, n))[j] == input
    ensures Sleeps(FailedRounds(input, n)) == BackoffSchedule(n)
  {
    if n > 0 {
      var prev := FailedRounds(input, n - 1);
      var d := InitialBackoff * Pow2(n - 1);
      FailedRoundsShape(input, n - 1);
      AppendEvent(prev, Call(input));
      ExtendAlternates(prev, Call(input));
      AppendEvent(prev + [Call(input)], Sleep(d));
      ExtendAlternates(prev + [Call(input)], Sleep(d));
      assert prev + [Call(input)] + [Sleep(d)] == FailedRounds(input, n);
      ScheduleExtend(n - 1);
    }
  }

  /** The trace of the retry loop alternates call and sleep, holds one call
      per attempt, each sending `input`, and one sleep per failed call. */
  lemma RetryTraceShape(script: seq<bool>, input: SetAlarmStateInput)
    requires |script| >= MaxRetries
    ensures Alternates(RetryTrace(script, input))
    ensures |Calls(RetryTrace(script, input))| == AttemptsMade(script)
    ensures forall j :: 0 <= j < AttemptsMade(script) ==> Calls(RetryTrace(script, input))[j] == input
    ensures Sleeps(RetryTrace(script, input)) == BackoffSchedule(FailedAttempts(script))
  {
    var k := FailedAttempts(script);
    var rounds := FailedRounds(input, k);
    FailedRoundsShape(input, k);
    if k < MaxRetries {
      AppendEvent(rounds, Call(input));
      ExtendAlternates(rounds, Call(input));
    } else {
      assert RetryTrace(script, input) == rounds;
    }
  }

  /** The loop never makes more than MaxRetries calls, and always at least one. */
  lemma AttemptsWithinBudget(script: seq<bool>)
    requires |script| >= MaxRetries
    ensures 1 <= AttemptsMade(script) <= MaxRetries
  {
  }

  /** The retry succeeds exactly when one of the first MaxRetries outcomes is a success. */
  lemma RetrySucceedsIff(script: seq<bool>)
    requires |script| >= MaxRetries
    ensures RetryResult(script) == Success <==> SomeCallSucceeds(script)
    ensures RetryResult(script) != Success ==> RetryResult(script) == Failure(ExceededMaxRetries)
  {
  }

  /** A successful first call: one call, no sleep, no error. */
  lemma FirstCallSucceeds(script: seq<bool>)
    requires |script| >= MaxRetries && script[0]
    ensures AttemptsMade(script) == 1
    ensures FailedAttempts(script) == 0 && BackoffSchedule(FailedAttempts(script)) == []
    ensures RetryResult(script) == Success
  {
  }

  /** Every call fails: exactly MaxRetries calls, a sleep of 1s, 2s and 4s
      (one after every failure, the last included), a final backoff of 8s,
      and the fixed terminal error. */
  lemma AllCallsFail(script: seq<bool>)
    requires |script| >= MaxRetries
    requires forall j :: 0 <= j < MaxRetries ==> !script[j]
    ensures AttemptsMade(script) == MaxRetries == 3
    ensures BackoffSchedule(FailedAttempts(script)) == [1_000_000_000, 2_000_000_000, 4_000_000_000]
    ensures InitialBackoff * Pow2(FailedAttempts(script)) == 8_000_000_000
    ensures RetryResult(script) == Failure("exceeded maximum retries")
  {
  }

  /** Calls 1 .. k-1 fail and call k succeeds: exactly k calls, k-1 sleeps, success. */
  lemma SucceedsOnAttempt(script: seq<bool>, k: nat)
    requires |script| >= MaxRetries && 1 <= k <= MaxRetries
    requires forall j :: 0 <= j < k - 1 ==> !script[j]
    requires script[k - 1]
    ensures AttemptsMade(script) == k
    ensures FailedAttempts(script) == k - 1 && |BackoffSchedule(FailedAttempts(script))| == k - 1
    ensures RetryResult(script) == Success
  {
  }

  /** The first sleep lasts InitialBackoff and each later one twice the one before. */
  lemma BackoffDoubles(n: nat)
    ensures |BackoffSchedule(n)| == n
    ensures n > 0 ==> BackoffSchedule(n)[0] == InitialBackoff
    ensures forall i :: 0 < i < n ==> BackoffSchedule(n)[i] == 2 * BackoffSchedule(n)[i - 1]
  {
  }

  /** Appending one event adds it to the calls or to the sleeps, and leaves the other unchanged. */
  lemma AppendEvent(trace: seq<Event>, e: Event)
    ensures Calls(trace + [e]) == Calls(trace) + (if e.Call? then [e.input] else [])
    ensures Sleeps(trace + [e]) == Sleeps(trace) + (if e.Sleep? then [e.duration] else [])
  {
    assert (trace + [e])[..|trace|] == trace;
  }

  /** A call at an even position, or a sleep at an odd one, keeps a trace alternating. */
  lemma ExtendAlternates(trace: seq<Event>, e: Event)
    requires Alternates(trace) && (e.Call? <==> |trace| % 2 == 0)
    ensures Alternates(trace + [e])
  {
    forall k | 0 <= k < |trace| + 1 ensures (trace + [e])[k].Call? <==> k % 2 == 0 {
      if k < |trace| { assert (trace + [e])[k] == trace[k]; }
    }
  }

  /** In an alternating trace, event 2j is the j-th call and event 2j+1 the
      j-th sleep: sleep j lies between call j and call j+1. */
  lemma {:induction false} AlternatingTraceAt(trace: seq<Event>, i: nat)
    requires Alternates(trace) && i < |trace|
    ensures |Calls(trace)| == (|trace| + 1) / 2 && |Sleeps(trace)| == |trace| / 2
    ensures i % 2 == 0 ==> trace[i] == Call(Calls(trace)[i / 2])
    ensures i % 2 == 1 ==> trace[i] == Sleep(Sleeps(trace)[i / 2])
  {
    var n := |trace| - 1;
    var prefix := trace[..n];
    AppendEvent(prefix, trace[n]);
    assert prefix + [trace[n]] == trace;
    assert trace[n].Call? <==> n % 2 == 0;
    if n == 0 {
      assert prefix == [];
    } else {
      assert Alternates(prefix) by {
        forall k | 0 <= k < |prefix| ensures prefix[k].Call? <==> k % 2 == 0 {
          assert prefix[k] == trace[k];
        }
      }
      AlternatingTraceAt(prefix, if i < n then i else 0);
    }
  }

  /** The schedule for n + 1 failures extends the one for n by the backoff reached after n failures. */
  lemma ScheduleExtend(n: nat)
    ensures BackoffSchedule(n + 1) == BackoffSchedule(n) + [InitialBackoff * Pow2(n)]
    ensures InitialBackoff * Pow2(n + 1) == 2 * (InitialBackoff * Pow2(n))
  {
  }

  /** The total time slept after n failures is InitialBackoff * (2^n - 1). */
  lemma {:induction false} TotalBackoff(n: nat)
    ensures Sum(BackoffSchedule(n)) == InitialBackoff * (Pow2(n) - 1)
  {
    if n > 0 {
      var s := BackoffSchedule(n);
      assert s[..n - 1] == BackoffSchedule(n - 1);
      TotalBackoff(n - 1);
      assert Sum(s) == Sum(BackoffSchedule(n - 1)) + InitialBackoff * Pow2(n - 1);
    }
  }

  /** Every backoff value the loop reaches, the unused final one included,
      fits in Go's int64 `time.Duration`, so `backoff *= 2` never wraps. */
  lemma BackoffFitsDuration(n: nat)
    requires n <= MaxRetries
    ensures 0 < InitialBackoff * Pow2(n) <= 8_000_000_000 < MaxDuration
  {
  }

  // ---------------------------------------------------------------------------
  // The driver

  /** `os.Getenv`: the empty string when the variable is unset. */
  function Getenv(env: map<string, string>, key: string): (value: string)
  {
    if key in env then env[key] else ""
  }

  /** All three required environment values are set and non-empty. */
  predicate InputsPresent(env: map<string, string>)
  {
    Getenv(env, AlarmNameVar) != "" && Getenv(env, AlarmStateVar) != "" && Getenv(env, AlarmReasonVar) != ""
  }

  /** The process: validate the environment, load the provider configuration
      (`configLoads` is its outcome), set the alarm state with retries, and
      return the exit code together with the trace of calls and sleeps. */
  method RunMain(env: map<string, string>, configLoads: bool, script: seq<bool>)
    returns (exitCode: int, trace: seq<Event>)
    requires |script| >= MaxRetries
    ensures exitCode == 0 || exitCode == 1
    ensures exitCode == 0 <==> InputsPresent(env) && configLoads && SomeCallSucceeds(script)
    ensures !(InputsPresent(env) && configLoads) ==> exitCode == 1 && trace == []
    ensures Alternates(trace)
    ensures InputsPresent(env) && configLoads ==>
      |Calls(trace)| == AttemptsMade(script) && Sleeps(trace) == BackoffSchedule(FailedAttempts(script))
    ensures forall j :: 0 <= j < |Calls(trace)| ==>
      Calls(trace)[j] == SetAlarmStateInput(env[AlarmNameVar], env[AlarmStateVar], env[AlarmReasonVar])
  {
    var alarmName := Getenv(env, AlarmNameVar);
    var alarmState := Getenv(env, AlarmStateVar);
    var alarmReason := Getenv(env, AlarmReasonVar);
    trace := [];

    if alarmName == "" || alarmState == "" || alarmReason == "" {
      return 1, trace;
    }

    if !configLoads {
      return 1, trace;
    }

    var err;
    ghost var backoff;
    err, trace, backoff := SetAlarmStateWithRetry(script, alarmName, alarmState, alarmReason);
    RetrySucceedsIff(script);
    if err != Success {
      return 1, trace;
    }
    exitCode := 0;
  }
}
