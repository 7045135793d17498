# A verified model of the `hr` job manager

The `hr` package is a small cron-style job scheduler written in Go. A `JobManager` keeps an
ordered list of registered jobs. Each job has a name, a cron expression, a work closure
(`JobFunc`), the time it is next due (`ScheduleTime`) and the time it last started
(`LastRunTime`). The scheduler loop keeps scanning that list. Each job whose schedule
time is strictly before the clock is handled the same way:
- it is announced to the `onStart` hook, when one is installed;
- its closure is launched through `runJob`;
- it is re-armed in place from the current time.

`runJob` turns a panic of the closure into an error and reports the outcome to the
`onEnd` hook, when one is installed.

This project models:
- the registry;
- `Register`;
- one pass of the scan-and-re-arm loop, and one iteration of the outer loop with its
  empty-list back-off;
- `runJob`'s outcome rule;
- the hook defaults of `NewManager` and `NewManagerWithOutput`.

The project proves what these operations guarantee.

Layout:
- `wrappers.dfy` (`Wrappers`) holds `Option` (Go's nil) and `Error` (Go's `error`,
  reduced to its text).
- `cron.dfy` (`Cron`) holds the cron library. It is an opaque pair of functions: `parse`
  returns the parse error or nothing, and `next` returns the next occurrence after a time.
  The subset type `Cron` carries the one property the scheduler relies on: for an
  accepted expression, `next(e, t) > t`.
- `jobs.dfy` (`Jobs`) holds the `Job` record, the due test, the per-job step `Step`, the
  list-level `Scan`, the hook events a pass emits (`ScanEvents`), the due positions and
  due jobs of a pass (`DueIndices`, `DueJobs`), and `RecoveredError`.
- `scan_properties.dfy` (`ScanProperties`) holds the lemmas about a scan pass and about
  successive re-arms.
- `job_manager.dfy` (`Manager`) holds the `JobManager` class. Its `jobs: seq<Job>` field
  is what `Register` appends to and what `ScanPass` rewrites entry by entry in a loop.
  Hook calls and goroutine launches are recorded in the ghost field `trace`. The class
  invariant `Valid()` says two things: every stored expression parses, and a job that has
  run is scheduled strictly after its last run.

Modelling choices:
- Time is an integer. The clock is a parameter.
- A scan pass reads the clock once per job for the due test (job_manager.go:79). For a
  due job it reads the clock a second time to re-arm it (job_manager.go:86), inside the
  same `if`. The model takes one `Reading(test, rearm)` per list entry, and `rearm` is
  used only when the job is due. The lemmas about strict increase assume `test <= rearm`,
  that is, the clock does not run backwards between the two reads (`Ordered`).
- `JobFunc` is an opaque identity (`FuncId`). Its run is given to `RunJob` as an
  `Outcome`: it returned, it ended its goroutine through `runtime.Goexit` (as `t.Fatal`
  does inside a test), or it panicked with a value whose `%v` text is given.
- A hook is `None` (nil), a caller-supplied hook, or the logging default.

Two facts of the code shape the model:
- A job is due when its schedule time is strictly before the clock (`time.Before`,
  job_manager.go:79). A job scheduled exactly at the current reading waits for a later
  pass.
- The `running` flag is never assigned, so no lifecycle is modelled.

## Model

| member | source | states |
|---|---|---|
| Manager.JobManager.New | job_manager.go:22-25 | A new manager has no jobs and neither hook installed, so no hook is ever called. |
| Manager.JobManager.WithOutput | job_manager.go:27-51 | Each supplied hook is stored. A nil argument is replaced by the logging default, so both hooks are always installed. |
| Jobs.HookOrDefault | job_manager.go:30-49 | The stored hook is the default exactly when the argument is nil, and is otherwise the caller's own hook. |
| Manager.JobManager.Register | job_manager.go:102-120 | Returns exactly the parser's error. On error the job list is unchanged. On success exactly one job is appended at the back and all earlier entries are untouched. The new job has the given name, expression and closure, no last run, and schedule time `next(expr, now)`, which is later than `now`. Both registry invariants are kept. |
| Manager.JobManager.Visit | job_manager.go:78-91 | Visiting entry `i` replaces only that entry, with its `Step` (re-armed when due, unchanged otherwise). It appends that visit's events to the trace: onStart (only when a hook is installed) and then the runJob launch, both with the value from before re-arming, and nothing when the job is not due. |
| Manager.JobManager.ScanPass | job_manager.go:77-93 | The loop over the list rewrites it into `Scan(old jobs)` and appends the events of visiting every entry in list order (`ScanEvents` over all entries) to the trace, with onStart calls only when a hook is installed. It keeps the class invariant, so `MustParse` on a due job's expression cannot fail. |
| Manager.JobManager.LoopIteration | job_manager.go:71-94 | With no jobs, the loop backs off and changes neither the list nor the trace. Otherwise it performs one scan pass. |
| Manager.JobManager.RunJob | job_manager.go:122-137 | onEnd, when installed, is called once with the job and the recovered error; when nil, nothing is recorded. |
| Jobs.RecoveredError | job_manager.go:125-128 | The error is nil exactly when JobFunc did not panic, that is, when it returned or ended through `runtime.Goexit`. After a panic, the error's `%v` text is the panic value's `%v` text. |
| Jobs.Scan | job_manager.go:77-93 | The scanned list has the same length, and each entry is the result of visiting the original entry at the same position with that position's clock readings. |
| Jobs.DueIndices | job_manager.go:77-79 | Every listed position is among the entries visited so far. |
| ScanProperties.DueIndicesExact | job_manager.go:77-79 | The listed positions strictly increase, and a position is listed if and only if that job is due at its test reading. |
| Jobs.Step | job_manager.go:79-91 | A visit keeps the name, expression and closure. A job that is not due is unchanged. A due job gets last run = the re-arm reading and schedule time = `next(expr, reading)`, which is after that reading. |
| Jobs.Dispatch | job_manager.go:79-84 | A visit of a job that is not due produces no event. A due job produces the onStart call first when a hook is installed, then exactly one runJob launch, both with the job as it was before re-arming. |
| ScanProperties.DispatchProjections | job_manager.go:80-84 | One visit hands onStart the job exactly when a hook is installed and the job is due, and launches runJob for it exactly when it is due. |
| ScanProperties.StepAdvances | job_manager.go:79-89 | With ordered readings, a visit never moves the schedule time back. It moves it forward if and only if the job was due. |
| ScanProperties.ScanPreserves | job_manager.go:77-93 | A pass keeps the length, the order, each entry's name, expression and closure, and both registry invariants. |
| ScanProperties.PassComplete | job_manager.go:77-93 | A list that agrees entry by entry with visiting a valid registry is exactly its `Scan`, and it satisfies both registry invariants again. |
| ScanProperties.DueJobsAt | job_manager.go:77-79 | The due jobs, collected in list order, are the jobs at the due positions. |
| ScanProperties.ScanStarts | job_manager.go:77-82 | Among the first `n` visits, the jobs passed to onStart are exactly the due jobs (`DueJobs`), once each, in list order, with their values from before re-arming. None are passed when the hook is nil. |
| ScanProperties.ScanLaunches | job_manager.go:77-84 | Among the first `n` visits, runJob is launched for exactly the due jobs (`DueJobs`), once each, in list order, with their values from before re-arming, whether or not onStart is installed. |
| ScanProperties.RearmTimes | job_manager.go:79-91 | The schedule-time history of one job across successive passes starts with its current schedule time. |
| ScanProperties.RearmTimesIncrease | job_manager.go:86-91 | With ordered readings, a job's schedule times across successive re-arms strictly increase. |

## Left out

- Concurrency is not modelled. This covers the scheduler goroutine (job_manager.go:70), the per-job goroutine (job_manager.go:84), `Register`'s mutex (job_manager.go:108-109), and the unguarded scan racing with `PushBack`. A launch is recorded as an event in list order.
- The closure at job_manager.go:84 captures by reference `j`, the local declared in each iteration at line 78, and the code then writes `j` to re-arm it (lines 87-89). A `runJob` goroutine may therefore see the re-armed value. The model hands `runJob` the value from before re-arming, as the code evidently intends.
- The `stopSign` WaitGroup, `Quit` and the blocking `Wait` in `Start` are not modelled. They are synchronisation with no effect on the registry.
- The `running` flag and the "already started" branch of `Start` are not modelled. The flag is never assigned, so that branch cannot be reached.
- `time.Sleep(5 * time.Second)` and `time.Now()` are not modelled. The back-off is the `idle` result of `LoopIteration`, and clock readings are parameters.
- The cron library (`cronexpr.Parse`, `MustParse`, `Next`) is not part of this model. It is represented by the opaque `parse` and `next` functions, under the assumption that `next(e, t) > t` for accepted expressions. That assumption fails when the library finds no future match: `Next` then returns the zero time, and such a job would be due on every pass.
- The default hook bodies and their `log.Println` / `fmt.Sprintf` output are not modelled, and neither are the "already started" and "clock out" messages of `Start` (job_manager.go:65, 98). This is logging I/O; the model only records which hook is installed.
- Hooks are modelled as returning normally without calling into the manager. An `onStart` that calls `Register` would push a job onto the list in the middle of a pass (job_manager.go:118), and `current.Next()` (line 77) would visit it in that same pass. A panic in `onStart` (line 81) or in `onEnd` (line 131, inside the deferred function) is not recovered and ends the process.
- Jobs.RecoveredError: does not model `panic(nil)`, whose recovered value depends on the Go runtime version.
- The object identity of the list nodes of `container/list` is not modelled. The list is a sequence of job values.
