/**
 * The values of job_manager.go: the Job record, the due test and re-arm rule of the
 * scan loop, the hook events it produces, and the outcome rule of runJob.
 */
module Jobs {
  import opened Wrappers
  import opened Cron

  /** Identity of a job's work closure (JobFunc), which the scheduler never inspects. */
  type FuncId = nat

  /** Times are abstract instants; a larger number is later. */
  datatype Job = Job(
    name: string,
    cronExpression: string,
    jobFunc: FuncId,
    scheduleTime: int,
    lastRunTime: Option<int>)

  /** A hook installed in a manager: one the caller supplied, or the logging default
      that NewManagerWithOutput puts in place of a nil argument. */
  datatype Hook = Supplied(id: nat) | DefaultLog

  /** The hook NewManagerWithOutput stores for an argument that may be nil. */
  function HookOrDefault(arg: Option<nat>): (h: Hook)
    ensures h.DefaultLog? <==> arg.None?
    ensures arg.Some? ==> h.id == arg.value
  {
    match arg
    case None => DefaultLog
    case Some(id) => Supplied(id)
  }

  /** The clock readings of one visit: `test` for the due test and, read only when the
      job is due, `rearm` for the new LastRunTime and the next occurrence. */
  datatype Reading = Reading(test: int, rearm: int)

  /** The clock never runs backwards between the two readings of one visit. */
  predicate Ordered(clock: seq<Reading>)
  {
    forall k :: 0 <= k < |clock| ==> clock[k].test <= clock[k].rearm
  }

  /** A job is due when its schedule time is strictly before the clock. */
  predicate Due(j: Job, now: int)
  {
    j.scheduleTime < now
  }

  /** Every stored expression is accepted by the parser. */
  predicate AllParse(ev: Evaluator, jobs: seq<Job>)
  {
    forall i :: 0 <= i < |jobs| ==> Parses(ev, jobs[i].cronExpression)
  }

  /** A job that has run is scheduled strictly after its last run. */
  predicate ScheduledAfterLastRun(jobs: seq<Job>)
  {
    forall i :: 0 <= i < |jobs| && jobs[i].lastRunTime.Some? ==>
      jobs[i].scheduleTime > jobs[i].lastRunTime.value
  }

  /** One reading per visited job, and MustParse succeeds on every job that is due. */
  predicate Rearmable(ev: Evaluator, jobs: seq<Job>, clock: seq<Reading>)
  {
    |clock| == |jobs| &&
    forall i :: 0 <= i < |jobs| && Due(jobs[i], clock[i].test) ==> Parses(ev, jobs[i].cronExpression)
  }

  /** What one visit of the scan does to one entry: a visit keeps the job's identity,
      a due job is re-armed from the second reading to a time after it, and a job
      that is not due is left exactly as it was. */
  function Step(ev: Cron, j: Job, r: Reading): (s: Job)
    requires Due(j, r.test) ==> Parses(ev, j.cronExpression)
    ensures s.name == j.name && s.cronExpression == j.cronExpression && s.jobFunc == j.jobFunc
    ensures !Due(j, r.test) ==> s == j
    ensures Due(j, r.test) ==>
      s.lastRunTime == Some(r.rearm) &&
      s.scheduleTime == ev.next(j.cronExpression, r.rearm) &&
      s.scheduleTime > r.rearm
  {
    if Due(j, r.test) then
      j.(lastRunTime := Some(r.rearm), scheduleTime := ev.next(j.cronExpression, r.rearm))
    else
      j
  }

  /** The list after one scan pass. */
  function Scan(ev: Cron, jobs: seq<Job>, clock: seq<Reading>): (r: seq<Job>)
    requires Rearmable(ev, jobs, clock)
    ensures |r| == |jobs|
    ensures forall i {:trigger r[i]} :: 0 <= i < |jobs| ==> r[i] == Step(ev, jobs[i], clock[i])
    decreases |jobs|
  {
    if |jobs| == 0 then []
    else
      var n := |jobs| - 1;
      Scan(ev, jobs[..n], clock[..n]) + [Step(ev, jobs[n], clock[n])]
  }

  /** What the scheduler makes observable: onStart calls, goroutine launches of
      runJob and onEnd calls, each with the Job value it is handed. */
  datatype Event = Started(job: Job) | Launched(job: Job) | Ended(job: Job, err: Option<Error>)

  /** The events of visiting one job, given whether an onStart hook is installed:
      nothing for a job that is not due; for a due job, the onStart call when a hook
      is installed and then the launch of runJob, both with the job as it was. */
  function Dispatch(hasOnStart: bool, j: Job, r: Reading): (e: seq<Event>)
    ensures !Due(j, r.test) ==> e == []
    ensures Due(j, r.test) ==> |e| == (if hasOnStart then 2 else 1) && e[|e| - 1] == Launched(j)
    ensures Due(j, r.test) && hasOnStart ==> e[0] == Started(j)
  {
    if Due(j, r.test) then (if hasOnStart then [Started(j)] else []) + [Launched(j)]
    else []
  }

  /** The events of visiting the first `n` entries of the list, in list order. */
  function ScanEvents(hasOnStart: bool, jobs: seq<Job>, clock: seq<Reading>, n: nat): seq<Event>
    requires n <= |jobs| == |clock|
  {
    if n == 0 then []
    else ScanEvents(hasOnStart, jobs, clock, n - 1) + Dispatch(hasOnStart, jobs[n - 1], clock[n - 1])
  }

  /** Positions of the due jobs among the first `n` entries, in list order. */
  function DueIndices(jobs: seq<Job>, clock: seq<Reading>, n: nat): (r: seq<int>)
    requires n <= |jobs| == |clock|
    ensures forall k :: 0 <= k < |r| ==> 0 <= r[k] < n
  {
    if n == 0 then []
    else DueIndices(jobs, clock, n - 1) + (if Due(jobs[n - 1], clock[n - 1].test) then [n - 1] else [])
  }

  /** The due jobs among the first `n` entries, in list order, as they were before
      the pass re-armed them. */
  function DueJobs(jobs: seq<Job>, clock: seq<Reading>, n: nat): seq<Job>
    requires n <= |jobs| == |clock|
  {
    if n == 0 then []
    else DueJobs(jobs, clock, n - 1) + (if Due(jobs[n - 1], clock[n - 1].test) then [jobs[n - 1]] else [])
  }

  /** The jobs at the given positions. */
  function At(jobs: seq<Job>, idx: seq<int>): seq<Job>
    requires forall k :: 0 <= k < |idx| ==> 0 <= idx[k] < |jobs|
  {
    seq(|idx|, k requires 0 <= k < |idx| => jobs[idx[k]])
  }

  /** The jobs handed to onStart, in order. */
  function Starts(events: seq<Event>): seq<Job>
    decreases |events|
  {
    if |events| == 0 then []
    else
      var n := |events| - 1;
      Starts(events[..n]) + (if events[n].Started? then [events[n].job] else [])
  }

  /** The jobs handed to runJob, in order. */
  function Launches(events: seq<Event>): seq<Job>
    decreases |events|
  {
    if |events| == 0 then []
    else
      var n := |events| - 1;
      Launches(events[..n]) + (if events[n].Launched? then [events[n].job] else [])
  }

  /** How a JobFunc call ended: it returned; it ended its goroutine through
      runtime.Goexit (as `t.Fatal` does in a test), which still runs the deferred
      function but leaves nothing to recover; or it panicked with a value whose `%v`
      rendering is `value`. */
  datatype Outcome = Returned | Exited | Panicked(value: string)

  /** The `%v` rendering of an error value that may be nil. */
  function ErrorText(err: Option<Error>): string
  {
    match err
    case None => "<nil>"
    case Some(e) => e.message
  }

  /** The error runJob's deferred function passes to onEnd: nil when nothing was
      recovered, otherwise an error whose text is the recovered value's `%v`. */
  function RecoveredError(outcome: Outcome): (err: Option<Error>)
    ensures err.None? <==> !outcome.Panicked?
    ensures outcome.Panicked? ==> ErrorText(err) == outcome.value
  {
    match outcome
    case Returned => None
    case Exited => None
    case Panicked(v) => Some(Error(v))
  }
}
