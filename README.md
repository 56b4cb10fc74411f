# cw-alarm-manager, modelled in Dafny

The program sets the state of a CloudWatch alarm. It reads the alarm name,
the target state and the reason from three environment variables
(`CLOUDWATCH_ALARM_NAME`, `ALARM_STATE`, `ALARM_REASON`), loads the AWS
configuration, and calls `SetAlarmState`. A failed call is retried with
exponential backoff. There are at most `maxRetries = 3` attempts, and the
backoff starts at `initialBackoff = 1s`. The process exits 0 on success and 1
on a missing input, a configuration error, or exhausted retries.

`alarm_manager.dfy` holds one module, `AlarmManager`, for `main.go`:

- The remote `SetAlarmState` call is a script of outcomes, `seq<bool>`. Entry
  `j` is the outcome of the (j+1)-th call; `true` means the call returned no
  error. This is the seam the Go test double uses.
- A run's remote calls and sleeps are recorded, in order, in one returned
  trace of `Event`s. A call appears as `Call(request)`, and `time.Sleep(backoff)`
  appears as `Sleep(backoff)`. Durations are integers in nanoseconds, the
  unit of Go's `time.Duration`. `Calls` and `Sleeps` project the trace onto
  its requests and its durations.
- The Go `error` result is the datatype `Outcome`; `Success` stands for `nil`.
- `os.Getenv` reads a `map<string, string>`. An unset key reads as `""`, as in Go.
- The outcome of `config.LoadDefaultConfig` is a `bool` parameter.
- `os.Exit` becomes a returned exit code.
- `SetAlarmStateWithRetry` is a method with a `while` loop. It keeps the Go
  loop's `attempt` counter and `backoff` variable. Its postcondition ties
  its results to specification functions:
  - `FailedAttempts`: the index of the first successful call, or 3.
  - `AttemptsMade` and `RetryResult`: the number of calls made and the error returned.
  - `BackoffSchedule`: the durations slept.
  - `RetryTrace`: the failed rounds, each one a call followed by its sleep
    (`FailedRounds`), then the successful call if there is one.

  The lemmas below state the policy's properties about those functions.

The code sleeps after every failed attempt, including the third. The sleep
comes before the loop condition is re-checked. When all three calls fail, the
sleeps are therefore 1s, 2s and 4s, and `backoff` ends at 8s without being
used. The model follows the code here.

## Model

| member | source | states |
|---|---|---|
| `AlarmManager.NewSetAlarmStateInput` | main.go:81-86 | the request carries the alarm name, state and reason unchanged; the state string is not validated locally |
| `AlarmManager.FirstSuccessFrom` | main.go:65-69 | the index of the first successful call from call i on, or 3: every call before it failed, and it succeeded if it is below 3 |
| `AlarmManager.SetAlarmStateWithRetry` | main.go:61-79 | the trace is `RetryTrace`: for each failed call, the call and then its sleep, and finally the successful call if there is one. It alternates calls and sleeps, starting with a call. It holds `AttemptsMade` calls, each sending the same request built from the same three strings. Its sleeps are 1s, 2s, 4s, …, one for each failed call (`FailedAttempts`, the index of the first success or 3). The result is `nil` exactly when a call within the budget succeeds, otherwise "exceeded maximum retries". The backoff ends at `initialBackoff * 2^failures` |
| `AlarmManager.FailedRoundsShape` | main.go:65-76 | n failed attempts give n calls, each sending the same request, alternating with n sleeps of 1s, 2s, 4s, …, a call first |
| `AlarmManager.RetryTraceShape` | main.go:61-79 | the loop's trace alternates calls and sleeps. It holds `AttemptsMade` calls with the same request and one sleep per failed call, with the durations of `BackoffSchedule` |
| `AlarmManager.AlternatingTraceAt` | main.go:65-75 | in an alternating trace, event 2j is the j-th call and event 2j+1 is the j-th sleep. So the sleep after failed call j comes before call j+1 |
| `AlarmManager.AttemptsWithinBudget` | main.go:65 | whatever the outcomes, between 1 and `maxRetries` (3) remote calls are made |
| `AlarmManager.RetrySucceedsIff` | main.go:65-78 | the retry returns `nil` if and only if one of the first 3 outcomes is a success; otherwise it returns exactly the error "exceeded maximum retries" |
| `AlarmManager.FirstCallSucceeds` | main_test.go:24-30 | when the first call succeeds: one call, no sleep, `nil` |
| `AlarmManager.AllCallsFail` | main_test.go:32-39 | when every call fails: exactly 3 calls, sleeps of 1s, 2s and 4s, a final backoff of 8s, and the error "exceeded maximum retries" |
| `AlarmManager.SucceedsOnAttempt` | main.go:65-76 | if calls 1 to k-1 fail and call k succeeds (1 ≤ k ≤ 3), there are exactly k calls, k-1 sleeps and no error |
| `AlarmManager.BackoffDoubles` | main.go:63-75 | the first sleep lasts `initialBackoff` and each later sleep lasts twice the one before |
| `AlarmManager.TotalBackoff` | main.go:74-75 | after n failures the total time slept is `initialBackoff * (2^n - 1)` |
| `AlarmManager.BackoffFitsDuration` | main.go:18 | every backoff the loop reaches, up to 8s, fits in an int64 `time.Duration`, so `backoff *= 2` never wraps |
| `AlarmManager.RunMain` | main.go:26-59 | the exit code is 0 or 1. It is 0 exactly when all three inputs are non-empty, the configuration loads and the retry succeeds. A missing input or a failed configuration load exits 1 with an empty trace, so no remote call and no sleep. Otherwise the trace alternates calls and sleeps as in the retry loop, and each request carries the three environment values |

## Left out

- The AWS SDK is not modelled: `config.LoadDefaultConfig`, `cloudwatch.NewFromConfig`, the client call and the `types.StateValue` conversion. The config load is a `bool`, and each remote call is one scripted outcome.
- The script must hold at least 3 outcomes. A real client answers every call, so the script covers every call the loop can make. Per-call error details are not modelled because the code only logs them.
- Real sleeping and wall-clock time are not modelled. Each sleep is recorded as an integer duration.
- Structured logging through `slog` is not modelled. It produces output only and does not affect the result.
- `os.Getenv` and `os.Exit` are process I/O. The environment is a map parameter, and the exit code is a returned value.
- `context.TODO()` and the variadic options of `CloudWatchAPI.SetAlarmState` carry no meaning here.
