/** The JobManager of job_manager.go: its registry, registration, the scan-and-re-arm
    pass of the scheduler loop, and the outcome rule of runJob. */
module Manager {
  import opened Wrappers
  import opened Cron
  import opened Jobs
  import opened ScanProperties

  class JobManager {
    /** The cron library the manager calls. */
    const cron: Cron
    const onStart: Option<Hook>
    const onEnd: Option<Hook>

    /** The registered jobs, in registration order. */
    var jobs: seq<Job>

    /** Every hook call and goroutine launch, in the order they happen. */
    ghost var trace: seq<Event>

    ghost predicate Valid()
      reads this
    {
      AllParse(cron, jobs) && ScheduledAfterLastRun(jobs)
    }

    /** NewManager: no jobs and no hooks. */
    constructor New(cron: Cron)
      ensures Valid()
      ensures this.cron == cron && jobs == [] && trace == []
      ensures onStart == None && onEnd == None
    {
      this.cron := cron;
      onStart, onEnd := None, None;
      jobs, trace := [], [];
    }

    /** NewManagerWithOutput: each nil hook argument is replaced by the logging default,
        so both hooks are installed. */
    constructor WithOutput(cron: Cron, startHook: Option<nat>, endHook: Option<nat>)
      ensures Valid()
      ensures this.cron == cron && jobs == [] && trace == []
      ensures onStart == Some(HookOrDefault(startHook))
      ensures onEnd == Some(HookOrDefault(endHook))
    {
      this.cron := cron;
      onStart := Some(HookOrDefault(startHook));
      onEnd := Some(HookOrDefault(endHook));
      jobs, trace := [], [];
    }

    /** Register at clock time `now`: a rejected expression returns the parser's error
        and leaves the registry alone; an accepted one appends the new job at the back. */
    method Register(jobName: string, cronExpression: string, jobFunc: FuncId, now: int)
      returns (err: Option<Error>)
      requires Valid()
      modifies this`jobs
      ensures Valid()
      ensures err == cron.parse(cronExpression)
      ensures err.Some? ==> jobs == old(jobs)
      ensures err.None? ==>
        jobs == old(jobs) + [Job(jobName, cronExpression, jobFunc, cron.next(cronExpression, now), None)]
      ensures err.None? ==> jobs[|jobs| - 1].scheduleTime > now
    {
      err := cron.parse(cronExpression);
      if err.Some? {
        return;
      }
      var newJob := Job(jobName, cronExpression, jobFunc, cron.next(cronExpression, now), None);
      jobs := jobs + [newJob];
    }

    /** The visit of the list entry at position `i` (the body of the scan loop): a due
        job is announced to onStart, launched and re-armed in place from the second
        clock reading; any other job is left as it is. */
    method Visit(i: nat, r: Reading)
      requires i < |jobs|
      requires Due(jobs[i], r.test) ==> Parses(cron, jobs[i].cronExpression)
      modifies this`jobs, this`trace
      ensures jobs == old(jobs)[i := Step(cron, old(jobs)[i], r)]
      ensures trace == old(trace) + Dispatch(onStart.Some?, old(jobs)[i], r)
    {
      var j := jobs[i];
      if j.scheduleTime < r.test {
        if onStart.Some? {
          trace := trace + [Started(j)];
        }
        trace := trace + [Launched(j)];
        var now := r.rearm;
        j := j.(lastRunTime := Some(now), scheduleTime := cron.next(j.cronExpression, now));
        jobs := jobs[i := j];
      }
    }

    /** One pass of the scheduler loop, visiting the jobs front to back with one pair
        of clock readings per job. */
    method ScanPass(clock: seq<Reading>)
      requires Valid()
      requires |clock| == |jobs|
      modifies this`jobs, this`trace
      ensures Valid()
      ensures jobs == Scan(cron, old(jobs), clock)
      ensures trace == old(trace) + ScanEvents(onStart.Some?, old(jobs), clock, |clock|)
    {
      ghost var orig, start := jobs, trace;
      var i := 0;
      while i < |jobs|
        invariant 0 <= i <= |jobs| == |clock| == |orig|
        invariant AllParse(cron, orig) && ScheduledAfterLastRun(orig)
        invariant forall k :: 0 <= k < i ==> jobs[k] == Step(cron, orig[k], clock[k])
        invariant forall k :: i <= k < |jobs| ==> jobs[k] == orig[k]
        invariant trace == start + ScanEvents(onStart.Some?, orig, clock, i)
      {
        ghost var visited, before := jobs, trace;
        assert jobs[i] == orig[i] && Parses(cron, orig[i].cronExpression);
        Visit(i, clock[i]);
        VisitAdvance(cron, orig, clock, i, visited, jobs);
        TraceAdvance(onStart.Some?, orig, clock, i, start, before, trace);
        i := i + 1;
      }
      PassComplete(cron, orig, clock, jobs);
    }

    /** One iteration of the scheduler loop: with no jobs registered it backs off
        (`idle`) and touches nothing; otherwise it runs one scan pass. */
    method LoopIteration(clock: seq<Reading>) returns (idle: bool)
      requires Valid()
      requires |clock| == |jobs|
      modifies this`jobs, this`trace
      ensures Valid()
      ensures idle <==> old(jobs) == []
      ensures idle ==> jobs == old(jobs) && trace == old(trace)
      ensures jobs == Scan(cron, old(jobs), clock)
      ensures trace == old(trace) + ScanEvents(onStart.Some?, old(jobs), clock, |clock|)
    {
      if |jobs| == 0 {
        idle := true;
        return;
      }
      idle := false;
      ScanPass(clock);
    }

    /** runJob for a job whose JobFunc ends with `outcome`: the deferred function
        recovers a panic into an error and hands it to onEnd when one is installed. */
    method RunJob(job: Job, outcome: Outcome)
      modifies this`trace
      ensures trace == old(trace) + (if onEnd.Some? then [Ended(job, RecoveredError(outcome))] else [])
    {
      var runErr: Option<Error> := None;
      if outcome.Panicked? {
        runErr := Some(Error(outcome.value));
      }
      if onEnd.Some? {
        trace := trace + [Ended(job, runErr)];
      }
    }
  }
}
