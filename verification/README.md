# Video translation backend simulator: job registry and polling client in Dafny

This project models the two cooperating state machines of the simulator:

- **Server job registry** (`server/app.py`). This is a map from job id to a job record: id, start time, completion time and status.
  - `create_job` files a fresh `pending` job. Its completion time is drawn uniformly between the configured minimum and maximum delay.
  - `get_job_status` re-evaluates the stored status on every query. If the 5 % error draw fires, the job becomes `error`. Otherwise, once the elapsed time reaches the completion time, it becomes `completed`. Otherwise it keeps its stored status. An unknown id is an HTTP 404.
- **Polling client** (`client/client.py`).
  - The constructor strips trailing `/` from the base URL.
  - `wait_for_completion` repeats five steps: it queries the status, reports it to an optional callback, returns on `completed` or `error`, raises a timeout once an armed timeout has passed, and otherwise sleeps. The sleep grows by `min(interval * backoff_factor, max_interval)`.

Nondeterminism is lifted into parameters:

- The clock reading becomes `now`.
- `random.uniform(min, max)` becomes a unit draw `u` in [0, 1]. The duration is `min + (max - min) * u`, the runtime's own formula.
- `random.random()` becomes a real `draw`. The error fires exactly when `draw < 0.05`.
- `uuid4()` becomes an `id` argument.

The client's remote query and clock are supplied as a trace of observations. Each observation is a reply (a status string plus the clock reading taken after it), or a failed query. The loop returns its outcome, a count of the queries it made, and two logs, each in order:

- the statuses it handed to the callback;
- the waits it would have slept.

Modules:

- `Server` (server.dfy): job records, create and query steps.
- `ServerRun` (server_run.dfy): arbitrary sequences of creates and queries, and what they preserve.
- `Backoff` (backoff.dfy): the wait schedule, its closed form, bounds and monotonicity.
- `Client` (client.dfy): the URL normalisation and the polling loop.
- `EndToEnd` (end_to_end.dfy): the client polling the registry.
- `Reals` (reals.dfy): Python's `min` and `max` on two numbers.
- `Config` and `Wrappers`: the shipped defaults, and `Option`.

The server keeps the source's re-evaluating status policy. Statuses are not made sticky once terminal. `completed` can later turn into `error`, and `error` into `completed`. Once a job has left `pending`, no operation takes it back there.

Three behaviours of the code that a reader might expect otherwise are modelled as written:

- A query on a job whose time has not elapsed returns the **stored** status, which may be `error` or `completed`, not always `pending`.
- Nothing checks `min_delay <= max_delay`. The duration lies between the two bounds in whichever order they come.
- A `timeout` of `0` switches the timeout off, because of Python truthiness. A negative `timeout` is armed and expires at the first non-terminal reply.

## Model

| member | source | states |
|---|---|---|
| Reals.Min | client/client.py:75-78 | Definition, no contract: Python's `min` of two numbers, the first unless the second is smaller. The backoff step uses it. |
| Server.WireName | server/app.py:14-17 | Definition, no contract: the string each status enum member carries, `"pending"`, `"completed"` and `"error"`. |
| Server.NewServer | server/app.py:27-30 | A new registry holds no jobs, keeps the given delay range, and satisfies the registry invariant. |
| Server.DefaultServer | config.py:4-5 | The registry built from the shipped defaults is empty and has an ordered delay range. |
| Server.Uniform | server/app.py:35 | The drawn duration lies between the two bounds, in either order. A unit draw of 0 gives the first bound and 1 the second. |
| Server.CreateJob | server/app.py:32-38 | The returned id is the generated one. Exactly that key is added, holding a `pending` job started now, whose duration lies in the configured range. Every other job is untouched. A fresh id grows the registry by one. The registry invariant is preserved. |
| Server.Evaluate | server/app.py:46-60 | A firing error draw yields `error` whatever the elapsed time or previous status. Otherwise an elapsed duration yields `completed`, even from `error`. Otherwise the status is unchanged. Id, start and completion time never change. |
| Server.GetJobStatus | server/app.py:40-60 | An unknown id, and only an unknown id, yields a 404 "Job not found" and leaves the registry unchanged. For a known id, only that job's status may change: the key set, every other job, and its own id, start and completion time stay the same. The returned status equals the stored one after the call and obeys the error/completed/unchanged rules. |
| Server.PendingAfterQuery | server/app.py:50-60 | After a query a job is `pending` if and only if it was pending, the error draw missed, and its duration had not elapsed. |
| Server.CompletedCanTurnToError | server/app.py:50-53 | A `completed` job queried with a firing error draw reports `error`. |
| Server.ErrorCanTurnToCompleted | server/app.py:55-60 | An `error` job queried after its duration with a missing error draw reports `completed`. |
| ServerRun.NeverBackToPending | server/app.py:24-60 | Across any admissible sequence of creates and queries, a job that is not `pending` stays filed and never becomes `pending` again. |
| ServerRun.JobsKeepIdentity | server/app.py:19-60 | Across any admissible sequence, a filed job is never removed, and its id, start time and completion time never change. |
| ServerRun.JobCount | server/app.py:32-60 | Across any admissible sequence, the registry grows by exactly one job per create and never loses a key. |
| ServerRun.RunPreservesValid | server/app.py:32-60 | Every registry reachable from a valid one files each job under its own id, with a duration inside the configured range. |
| Backoff.Next | client/client.py:75-78 | A wait after a backoff step never exceeds the maximum interval. |
| Backoff.IntervalAt | client/client.py:57-78 | Definition, no contract: the i-th value of `current_interval`, starting at the initial interval and taking one backoff step per sleep. Its properties are the lemmas below. |
| Backoff.IntervalCapped | client/client.py:75-78 | Every wait after the first is at most the maximum interval, whatever the settings. |
| Backoff.IntervalInRange | client/client.py:57-78 | With factor >= 1 and 0 <= initial <= max, every wait lies in [0, max]. |
| Backoff.IntervalsNonDecreasing | client/client.py:75-78 | With factor >= 1 and 0 <= initial <= max, each wait is at most the next one. |
| Backoff.IntervalsMonotone | client/client.py:75-78 | Under the same settings, an earlier wait is at most any later one. |
| Backoff.IntervalClosedForm | client/client.py:57-78 | Under the same settings, the i-th wait equals `min(initial * factor^i, max)`: capping once at the end equals capping at every step. |
| Backoff.StrictGrowthBelowCap | client/client.py:75-78 | With factor > 1 and 0 < initial <= max, a wait grows strictly if and only if it is still below the cap. |
| Backoff.CapAbsorbing | client/client.py:75-78 | Once a wait equals the cap, every later wait equals the cap. |
| Client.RStripSlashes | client/client.py:23 | The result is a prefix of the input with no trailing `/`, and everything the input has after it is `/`. |
| Client.RStripUnique | client/client.py:23 | Any prefix with those two properties is the stripped string, so the result is the longest such prefix. |
| Client.RStripIdempotent | client/client.py:23 | Stripping twice equals stripping once. |
| Client.NewClient | client/client.py:12-26 | The stored base URL is the argument with its trailing slashes removed. The interval settings are stored as given. |
| Client.DefaultClient | config.py:8-10 | The client built from the shipped defaults has well-formed, non-negative backoff settings, so its waits never shrink. |
| Client.IsTerminal | client/client.py:66-67 | Definition, no contract: the loop returns exactly on the strings `"completed"` and `"error"`. |
| Client.TimeoutArmed | client/client.py:70 | Definition, no contract: Python truthiness of `timeout`. `None` and `0` switch the check off, and any other value, negative ones included, arms it. |
| Client.Expired | client/client.py:70-71 | Definition, no contract: the timeout fires when it is armed and the elapsed clock strictly exceeds it. |
| Client.Poll | client/client.py:59-78 | The loop makes at most one query per observation. Each outcome is justified by its last observation:<br>- a normal return carries the terminal status of the last reply;<br>- a timeout, which carries the job id, follows a non-terminal reply past an armed deadline;<br>- a query error follows a failed query.<br>Except when the trace runs out, queries are sleeps plus one. |
| Client.PollSleepsAfterPending | client/client.py:66-78 | Every sleep follows a non-terminal reply taken before any armed deadline, and no sleep is negative. |
| Client.PollSleepsStep | client/client.py:57-78 | The first sleep is the starting interval. Each later one is `min(previous * factor, max)`. |
| Client.PollSleepErrorDue | client/client.py:74 | A sleep the runtime rejects was due with a negative length. |
| Client.PollCallbacks | client/client.py:60-67 | With a callback, it receives the status of every reply, the final terminal one included, in query order. Without one, nothing is recorded. |
| Client.SleepsFollowSchedule | client/client.py:57-78 | Waits that start at the initial interval and follow the backoff step are exactly the schedule `IntervalAt`. After the first, they are at most the cap. |
| Client.WaitForCompletion | client/client.py:42-78 | The waits follow the backoff schedule from the initial interval, and those after the first are at most the maximum interval. A normal return is terminal, after one more query than sleeps. A `None` or `0` timeout never times out. |
| Client.PollStopsAtFirstStop | client/client.py:59-78 | With non-negative waits, the loop ends at the first observation that does not let it continue, after exactly that many queries. The outcome is determined by that observation: return, timeout or query error. |
| Client.TimeoutBoundsQueries | client/client.py:70-71 | With non-negative waits, the loop has stopped by the first reply whose clock reading is past an armed deadline. It stops without running out of trace or rejecting a sleep. |
| Client.WaitForCompletionContract | client/client.py:42-78 | A normal return carries the first terminal status observed, with every earlier reply non-terminal, after one more query than sleeps. A timeout happens only after a non-terminal reply, with a truthy timeout strictly exceeded. The callback log is every observed status in order. |
| Client.WaitSleepsNonDecreasing | client/client.py:74-78 | Under well-formed settings, the waits the loop sleeps never shrink and never exceed the cap. |
| EndToEnd.Observe | client/client.py:35-40 | Definition, no contract: a status reply reaches the client as its wire name with the clock reading; an HTTP error makes `raise_for_status` raise, which is a failed query. |
| EndToEnd.Serve | server/app.py:40-73 | Polling an unknown id gives only failed queries. Polling a known id gives one reply per query, each carrying one of the three status wire names and the client's clock reading. The first reply is the wire name of the status the server's first query stored. |
| EndToEnd.ObservedNeverBackToPending | server/app.py:40-73 | For a known job, once a reply the client observes is not `"pending"`, no later reply is `"pending"`. The registry's lifecycle reaches what the client sees. |
| EndToEnd.ServeFromSettled | server/app.py:46-60 | Polling a job whose stored status is no longer `pending` never shows `"pending"`. |
| EndToEnd.WireNameTerminal | server/app.py:14-17 | A server status is terminal for the client exactly when it is not `pending`. |
| EndToEnd.UnknownJobFailsFirstQuery | server/app.py:42-44 | Polling a job the server does not know ends after one query with a query error. The callback receives nothing. |
| EndToEnd.TerminalFirstReply | client/client.py:60-67 | A terminal first reply ends the poll after one query, returning that status. That status is the only one the callback receives. |
| EndToEnd.ZeroDelayCompletes | server/app.py:35-58 | A job created with a zero delay range reports `completed` on its first query at or after its start, when the error draw misses. |
| EndToEnd.ErrorDrawFails | server/app.py:50-53 | A known job's first query with a firing error draw reports `error`. |
| EndToEnd.FinishedIsServerTerminal | tests/auto_test.py:36-37 | Whatever the server answers, a normal return of the client's loop is `"completed"` or `"error"`. |

## Left out

- HTTP transport is not modelled: the client's `create_job` and `get_status` (client/client.py:28-40) and the FastAPI route handlers (server/app.py:62-73). `raise_for_status` failures and 404s become a `QueryFailed` observation, and the server side is composed directly in `EndToEnd.Serve`.
- Logging is not modelled anywhere.
- Randomness, `uuid4`, `time.time()` and `time.sleep` are parameters or traces. The sleeps are recorded, not performed.
- The model does not relate the clock trace to the sleeps. So the wall-clock claim "a timeout overshoots by at most one interval" is not stated. `Client.TimeoutBoundsQueries` states the trace-level bound.
- Environment-variable parsing in config.py is not modelled; only the default values are kept. `MIN_DELAY` and `MAX_DELAY` are parsed as `int` there and modelled as `real`.
- Concurrency on the shared job map is not modelled. The source has no locks, and the model is sequential.
- Floating point is modelled as `real`, with no rounding, NaN or infinity. To allow for rounding, the unit draw behind the duration may be 1, although `random.random()` stays below 1.
- The callback is modelled as a log of the statuses passed to it. An exception raised by the callback is not modelled.
- The source's loop can poll forever. A finite trace ends the model's loop with `TraceExhausted` instead.
- `time.sleep` with a negative length raises in the Python runtime. The model represents this as the `SleepError` outcome.
- Client.PollStopsAtFirstStop: stated only for non-negative waits, because with a negative wait the loop ends in `SleepError` instead, which `Client.PollSleepErrorDue` covers.
- Client.TimeoutBoundsQueries: stated only for non-negative waits, for the same reason.
- ServerRun.NeverBackToPending: stated for runs whose created ids are fresh. A colliding id would overwrite the job with a new `pending` one, exactly as the source's dict assignment does (`Server.CreateJob` models that overwrite).
