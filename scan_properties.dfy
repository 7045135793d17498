/** What one scan pass, and a run of successive passes, guarantee. */
module ScanProperties {
  import opened Cron
  import opened Jobs

  /** With ordered readings the schedule time never goes back, and it moves forward
      exactly when the job was due. */
  lemma StepAdvances(ev: Cron, j: Job, r: Reading)
    requires Due(j, r.test) ==> Parses(ev, j.cronExpression)
    requires r.test <= r.rearm
    ensures Step(ev, j, r).scheduleTime >= j.scheduleTime
    ensures Step(ev, j, r).scheduleTime > j.scheduleTime <==> Due(j, r.test)
  {
  }

  /** A scan pass keeps the length, the order and each entry's identity, and it keeps
      the two registry invariants: every expression parses, and a job that has run is
      scheduled after its last run. */
  lemma ScanPreserves(ev: Cron, jobs: seq<Job>, clock: seq<Reading>)
    requires Rearmable(ev, jobs, clock)
    ensures |Scan(ev, jobs, clock)| == |jobs|
    ensures forall i :: 0 <= i < |jobs| ==>
      Scan(ev, jobs, clock)[i].name == jobs[i].name &&
      Scan(ev, jobs, clock)[i].cronExpression == jobs[i].cronExpression &&
      Scan(ev, jobs, clock)[i].jobFunc == jobs[i].jobFunc
    ensures AllParse(ev, jobs) ==> AllParse(ev, Scan(ev, jobs, clock))
    ensures ScheduledAfterLastRun(jobs) ==> ScheduledAfterLastRun(Scan(ev, jobs, clock))
  {
  }

  /** A list that agrees entry by entry with visiting a valid registry is its scan,
      and is a valid registry again. */
  lemma PassComplete(ev: Cron, jobs: seq<Job>, clock: seq<Reading>, r: seq<Job>)
    requires |clock| == |jobs| == |r|
    requires AllParse(ev, jobs) && ScheduledAfterLastRun(jobs)
    requires forall k :: 0 <= k < |jobs| ==> r[k] == Step(ev, jobs[k], clock[k])
    ensures r == Scan(ev, jobs, clock)
    ensures AllParse(ev, r) && ScheduledAfterLastRun(r)
  {
    ScanPreserves(ev, jobs, clock);
  }

  /** Visiting entry `i` of a list whose first `i` entries have been visited leaves
      the first `i + 1` entries visited and the rest as they were. */
  lemma VisitAdvance(ev: Cron, jobs: seq<Job>, clock: seq<Reading>, i: nat,
                     before: seq<Job>, after: seq<Job>)
    requires i < |jobs| == |clock| == |before|
    requires AllParse(ev, jobs)
    requires forall k :: 0 <= k < i ==> before[k] == Step(ev, jobs[k], clock[k])
    requires forall k :: i <= k < |before| ==> before[k] == jobs[k]
    requires after == before[i := Step(ev, before[i], clock[i])]
    ensures |after| == |jobs|
    ensures forall k :: 0 <= k < i + 1 ==> after[k] == Step(ev, jobs[k], clock[k])
    ensures forall k :: i + 1 <= k < |after| ==> after[k] == jobs[k]
  {
  }

  /** Visiting entry `i` extends the events of the pass by that visit's events. */
  lemma TraceAdvance(hasOnStart: bool, jobs: seq<Job>, clock: seq<Reading>, i: nat,
                     base: seq<Event>, before: seq<Event>, after: seq<Event>)
    requires i < |jobs| == |clock|
    requires before == base + ScanEvents(hasOnStart, jobs, clock, i)
    requires after == before + Dispatch(hasOnStart, jobs[i], clock[i])
    ensures after == base + ScanEvents(hasOnStart, jobs, clock, i + 1)
  {
    var done, visit := ScanEvents(hasOnStart, jobs, clock, i), Dispatch(hasOnStart, jobs[i], clock[i]);
    assert (base + done) + visit == base + (done + visit);
  }

  /** The positions DueIndices lists are exactly the due jobs among those visited,
      each once, in list order. */
  lemma {:induction false} DueIndicesExact(jobs: seq<Job>, clock: seq<Reading>, n: nat)
    requires n <= |jobs| == |clock|
    ensures forall a, b :: 0 <= a < b < |DueIndices(jobs, clock, n)| ==>
      DueIndices(jobs, clock, n)[a] < DueIndices(jobs, clock, n)[b]
    ensures forall i :: 0 <= i < n ==>
      (i in DueIndices(jobs, clock, n) <==> Due(jobs[i], clock[i].test))
  {
    if n > 0 {
      DueIndicesExact(jobs, clock, n - 1);
      var dp := DueIndices(jobs, clock, n - 1);
      assert n - 1 !in dp;
    }
  }

  /** Projections of a concatenation of events. */
  lemma {:induction false} ProjectionsAppend(a: seq<Event>, b: seq<Event>)
    ensures Starts(a + b) == Starts(a) + Starts(b)
    ensures Launches(a + b) == Launches(a) + Launches(b)
    decreases |b|
  {
    if |b| == 0 {
      assert a + b == a;
    } else {
      var n := |b| - 1;
      assert (a + b)[..|a + b| - 1] == a + b[..n];
      assert (a + b)[|a + b| - 1] == b[n];
      ProjectionsAppend(a, b[..n]);
    }
  }

  /** What one visit contributes to each projection. */
  lemma DispatchProjections(hasOnStart: bool, j: Job, r: Reading)
    ensures Starts(Dispatch(hasOnStart, j, r)) == if hasOnStart && Due(j, r.test) then [j] else []
    ensures Launches(Dispatch(hasOnStart, j, r)) == if Due(j, r.test) then [j] else []
  {
    var d := Dispatch(hasOnStart, j, r);
    if Due(j, r.test) {
      if hasOnStart {
        assert d == [Started(j), Launched(j)];
        assert d[..1] == [Started(j)] && d[..1][..0] == [];
        assert Starts(d[..1]) == [j] && Launches(d[..1]) == [];
        assert Starts(d) == Starts(d[..1]) && Launches(d) == Launches(d[..1]) + [j];
      } else {
        assert d == [Launched(j)] && d[..0] == [];
        assert Starts(d) == Starts(d[..0]) && Launches(d) == Launches(d[..0]) + [j];
      }
    }
  }

  /** One more position picks one more job. */
  lemma AtSnoc(jobs: seq<Job>, idx: seq<int>, i: nat)
    requires i < |jobs|
    requires forall k :: 0 <= k < |idx| ==> 0 <= idx[k] < |jobs|
    ensures At(jobs, idx + [i]) == At(jobs, idx) + [jobs[i]]
  {
    var longer, shorter := At(jobs, idx + [i]), At(jobs, idx);
    forall k | 0 <= k < |idx| ensures longer[k] == shorter[k] {
      assert (idx + [i])[k] == idx[k];
    }
    assert longer[|idx|] == jobs[i];
  }

  /** The due jobs are the jobs at the due positions. */
  lemma {:induction false} DueJobsAt(jobs: seq<Job>, clock: seq<Reading>, n: nat)
    requires n <= |jobs| == |clock|
    ensures DueJobs(jobs, clock, n) == At(jobs, DueIndices(jobs, clock, n))
  {
    if n > 0 {
      DueJobsAt(jobs, clock, n - 1);
      if Due(jobs[n - 1], clock[n - 1].test) {
        AtSnoc(jobs, DueIndices(jobs, clock, n - 1), n - 1);
      }
    }
  }

  /** Visiting one more entry adds that visit's onStart and runJob jobs. */
  lemma ScanEventsStep(hasOnStart: bool, jobs: seq<Job>, clock: seq<Reading>, n: nat)
    requires 0 < n <= |jobs| == |clock|
    ensures Starts(ScanEvents(hasOnStart, jobs, clock, n)) ==
      Starts(ScanEvents(hasOnStart, jobs, clock, n - 1)) +
      (if hasOnStart && Due(jobs[n - 1], clock[n - 1].test) then [jobs[n - 1]] else [])
    ensures Launches(ScanEvents(hasOnStart, jobs, clock, n)) ==
      Launches(ScanEvents(hasOnStart, jobs, clock, n - 1)) +
      (if Due(jobs[n - 1], clock[n - 1].test) then [jobs[n - 1]] else [])
  {
    var done := ScanEvents(hasOnStart, jobs, clock, n - 1);
    var visit := Dispatch(hasOnStart, jobs[n - 1], clock[n - 1]);
    ProjectionsAppend(done, visit);
    DispatchProjections(hasOnStart, jobs[n - 1], clock[n - 1]);
  }

  /** onStart is called exactly for the due jobs, in list order and with the value
      each had before it was re-armed, and never when no hook is installed. */
  lemma {:induction false} ScanStarts(hasOnStart: bool, jobs: seq<Job>, clock: seq<Reading>, n: nat)
    requires n <= |jobs| == |clock|
    ensures Starts(ScanEvents(hasOnStart, jobs, clock, n)) ==
      if hasOnStart then DueJobs(jobs, clock, n) else []
  {
    if n > 0 {
      ScanStarts(hasOnStart, jobs, clock, n - 1);
      ScanEventsStep(hasOnStart, jobs, clock, n);
      var added := if Due(jobs[n - 1], clock[n - 1].test) then [jobs[n - 1]] else [];
      if hasOnStart {
        assert DueJobs(jobs, clock, n) == DueJobs(jobs, clock, n - 1) + added;
      } else {
        assert Starts(ScanEvents(hasOnStart, jobs, clock, n)) == [] + [];
      }
    }
  }

  /** runJob is launched exactly for the due jobs, in list order and with the value
      each had before it was re-armed. */
  lemma {:induction false} ScanLaunches(hasOnStart: bool, jobs: seq<Job>, clock: seq<Reading>, n: nat)
    requires n <= |jobs| == |clock|
    ensures Launches(ScanEvents(hasOnStart, jobs, clock, n)) == DueJobs(jobs, clock, n)
  {
    if n > 0 {
      ScanLaunches(hasOnStart, jobs, clock, n - 1);
      ScanEventsStep(hasOnStart, jobs, clock, n);
      assert DueJobs(jobs, clock, n) ==
        DueJobs(jobs, clock, n - 1) + (if Due(jobs[n - 1], clock[n - 1].test) then [jobs[n - 1]] else []);
    }
  }

  /** The schedule times one job takes across successive scan passes: its current
      one, followed by the one set at each pass in which it was due. */
  function RearmTimes(ev: Cron, j: Job, readings: seq<Reading>): (r: seq<int>)
    requires Parses(ev, j.cronExpression)
    ensures |r| > 0 && r[0] == j.scheduleTime
    decreases |readings|
  {
    if readings == [] then [j.scheduleTime]
    else
      var next := Step(ev, j, readings[0]);
      if Due(j, readings[0].test) then [j.scheduleTime] + RearmTimes(ev, next, readings[1..])
      else RearmTimes(ev, next, readings[1..])
  }

  /** Across successive re-arms of one job its schedule times strictly increase. */
  lemma {:induction false} RearmTimesIncrease(ev: Cron, j: Job, readings: seq<Reading>)
    requires Parses(ev, j.cronExpression)
    requires Ordered(readings)
    ensures forall a, b :: 0 <= a < b < |RearmTimes(ev, j, readings)| ==>
      RearmTimes(ev, j, readings)[a] < RearmTimes(ev, j, readings)[b]
    decreases |readings|
  {
    if readings != [] {
      var next := Step(ev, j, readings[0]);
      assert Ordered(readings[1..]) by {
        forall k | 0 <= k < |readings[1..]| ensures readings[1..][k].test <= readings[1..][k].rearm {
          assert readings[1..][k] == readings[k + 1];
        }
      }
      RearmTimesIncrease(ev, next, readings[1..]);
      var rest := RearmTimes(ev, next, readings[1..]);
      if Due(j, readings[0].test) {
        StepAdvances(ev, j, readings[0]);
        assert rest[0] == next.scheduleTime > j.scheduleTime;
        var r := RearmTimes(ev, j, readings);
        assert r == [j.scheduleTime] + rest;
        forall a, b | 0 <= a < b < |r| ensures r[a] < r[b] {
          if a > 0 {
            assert r[a] == rest[a - 1] && r[b] == rest[b - 1];
          } else {
            assert r[b] == rest[b - 1] >= rest[0];
          }
        }
      }
    }
  }
}
