/** What the scheduler claims when it wakes: every job that is due, once, for the occurrence
    that was due, and nothing else. */
module JobClaims {
  import opened Text
  import opened JobSchedule
  import opened JobRows
  import opened JobExecution
  import opened JobRuntime

  // ------------------------------------------------- a dispatch keeps what was claimed

  predicate SameOccurrence(before: Rows, after: Rows, run: Id) {
    run in before.runs ==>
      && run in after.runs && after.runs[run].job == before.runs[run].job
      && after.runs[run].trigger == before.runs[run].trigger && after.runs[run].scheduledFor == before.runs[run].scheduledFor
  }

  lemma ChangeKeepsOccurrence(o: Oracle, w: World, c: JobRows.Change)
    ensures var v := JobExecution.Change(o, w, c).world; v.x.run == w.x.run && SameOccurrence(w.rows, v.rows, w.x.run)
  {
  }

  lemma RecordKeepsOccurrence(o: Oracle, w: World, sealed: bool, status: Status, error: Option<Code>, phase: Option<Phase>)
    ensures var v := Record(o, w, sealed, status, error, phase).world; v.x.run == w.x.run && SameOccurrence(w.rows, v.rows, w.x.run)
  {
    ChangeKeepsOccurrence(o, w, Finish(status, phase, error));
  }

  lemma CaughtKeepsOccurrence(o: Oracle, w: World, sealed: bool, code: Option<Code>)
    ensures var v := Caught(o, w, sealed, code); v.x.run == w.x.run && SameOccurrence(w.rows, v.rows, w.x.run)
  {
    hide Record;
    RecordKeepsOccurrence(o, w, sealed, Interrupted, Some(JobInterrupted), w.x.phase);
    RecordKeepsOccurrence(o, w, sealed, Aborted, Some(JobAborted), w.x.phase);
    RecordKeepsOccurrence(o, w, sealed, Status.Failed, Some(Or(code, Code.PromptFailed)), w.x.phase);
  }

  lemma BeginningKeepsOccurrence(o: Oracle, rows: Rows, x: Execution, calls: nat, sealed: bool)
    ensures var v := Begun(o, rows, x, calls, sealed); SameOccurrence(rows, v.rows, x.run)
  {
    hide Caught, JobExecution.Change;
    var w := World(rows, x, calls);
    ChangeKeepsOccurrence(o, w, JobRows.Start(None));
    var s := JobExecution.Start(o, w, sealed);
    if s.Throw? { CaughtKeepsOccurrence(o, s.world, sealed, s.code); }
  }

  // Everything but the row of this run stays, and that is still of the same occurrence.
  predicate OnlyStatusOf(before: Rows, after: Rows, run: Id) {
    && after.jobs == before.jobs && after.runs.Keys == before.runs.Keys && SameOccurrence(before, after, run)
    && forall r :: r in before.runs && r != run ==> after.runs[r] == before.runs[r]
  }

  lemma DispatchKeepsClaim(cal: Calendar, o: Oracle, s: System, job: Id, run: Id)
    requires job in s.rows.jobs && run in s.rows.runs
    ensures var t := DispatchIfQueued(o, s, job, run); OnlyStatusOf(s.rows, t.rows, run)
  {
    hide Begun, Sound;
    var c := ClaimOf(s.rows, job, run);
    BeginningFacts(cal, o, s.rows, c.job, c.run, c.hasPre, c.hasPost, s.calls, s.sealed);
    BeginningKeepsOccurrence(o, s.rows, Launched(c.job, c.run, c.hasPre, c.hasPost), s.calls, s.sealed);
  }

  // --------------------------------------------------------------------- one job

  /** What a sweep at this instant makes of a job: if it is enabled and due, and has a
      following occurrence, it has moved on to that, and the one that was due is recorded
      as a run; otherwise it is as it was. */
  predicate Swept(cal: Calendar, listed: Rows, after: Rows, job: Id, run: Id, now: int)
    requires job in listed.jobs
  {
    var j := listed.jobs[job];
    && job in after.jobs
    && if j.enabled && j.nextRunAt.Some? && j.nextRunAt.value <= now && AdvanceOccurrence(cal, j.schedule, j.nextRunAt.value, now).Some? then
         && after.jobs[job] == j.(nextRunAt := AdvanceOccurrence(cal, j.schedule, j.nextRunAt.value, now), updatedAt := now)
         && run in after.runs && after.runs[run].job == job && after.runs[run].scheduledFor == j.nextRunAt.value
       else after.jobs[job] == j
  }

  // Only this job and this run may have changed.
  predicate OnlyTouches(before: Rows, after: Rows, job: Id, run: Id) {
    && after.jobs.Keys == before.jobs.Keys && before.runs.Keys <= after.runs.Keys <= before.runs.Keys + {run}
    && (forall j :: j in before.jobs && j != job ==> after.jobs[j] == before.jobs[j])
    && (forall r :: r in before.runs ==> after.runs[r] == before.runs[r])
  }

  lemma OneJobIsSwept(cal: Calendar, o: Oracle, listed: Rows, s: System, job: Id, run: Id, trigger: Trigger, now: int)
    requires SafeTimestamp(now) && !o.fails(s.calls)
    requires job in listed.jobs && job in s.rows.jobs && s.rows.jobs[job] == listed.jobs[job] && run !in s.rows.runs
    ensures var t := SweepOne(cal, o, listed, s, job, run, trigger, now);
      t.goesOn && Swept(cal, listed, t.system.rows, job, run, now) && OnlyTouches(s.rows, t.system.rows, job, run)
  {
    hide DispatchIfQueued, AdvanceOccurrence, HasActive;
    var claim := ClaimScheduled(cal, s.rows, job, run, trigger, now);
    if Due(listed, job, now) && claim.Ok? {
      DispatchKeepsClaim(cal, o, s.(rows := claim.value, calls := s.calls + 1), job, run);
    }
  }

  // ----------------------------------------------------------------------- all jobs

  // Each job once, each with an identifier for its run that no row has yet.
  predicate Listing(listed: Rows, rows: Rows, jobs: seq<(Id, Id)>) {
    && (forall k :: 0 <= k < |jobs| ==> jobs[k].0 in listed.jobs && jobs[k].0 in rows.jobs && rows.jobs[jobs[k].0] == listed.jobs[jobs[k].0])
    && (forall k :: 0 <= k < |jobs| ==> jobs[k].1 !in rows.runs)
    && (forall k, m :: 0 <= k < m < |jobs| ==> jobs[k].0 != jobs[m].0 && jobs[k].1 != jobs[m].1)
  }

  lemma ListingGoesOn(listed: Rows, before: Rows, after: Rows, jobs: seq<(Id, Id)>)
    requires jobs != [] && Listing(listed, before, jobs) && OnlyTouches(before, after, jobs[0].0, jobs[0].1)
    ensures Listing(listed, after, jobs[1..])
  {
    var rest := jobs[1..];
    forall k | 0 <= k < |rest|
      ensures rest[k].0 in listed.jobs && rest[k].0 in after.jobs && after.jobs[rest[k].0] == listed.jobs[rest[k].0] && rest[k].1 !in after.runs
    {
      assert rest[k] == jobs[k + 1];
    }
  }

  lemma {:induction false} AllJobsAreSwept(cal: Calendar, o: Oracle, listed: Rows, s: System, jobs: seq<(Id, Id)>, trigger: Trigger, now: int)
    requires SafeTimestamp(now) && (forall n :: !o.fails(n)) && Listing(listed, s.rows, jobs)
    ensures var t := Sweep(cal, o, listed, s, jobs, trigger, now);
      && t.goesOn
      && (forall k :: 0 <= k < |jobs| ==> Swept(cal, listed, t.system.rows, jobs[k].0, jobs[k].1, now))
      && t.system.rows.jobs.Keys == s.rows.jobs.Keys && s.rows.runs.Keys <= t.system.rows.runs.Keys
      && (forall j :: j in s.rows.jobs && (forall k :: 0 <= k < |jobs| ==> jobs[k].0 != j) ==> t.system.rows.jobs[j] == s.rows.jobs[j])
      && (forall r :: r in s.rows.runs ==> t.system.rows.runs[r] == s.rows.runs[r])
    decreases |jobs|
  {
    hide SweepOne, Swept;
    if jobs != [] {
      var job, run := jobs[0].0, jobs[0].1;
      var first := SweepOne(cal, o, listed, s, job, run, trigger, now).system;
      OneJobIsSwept(cal, o, listed, s, job, run, trigger, now);
      ListingGoesOn(listed, s.rows, first.rows, jobs);
      AllJobsAreSwept(cal, o, listed, first, jobs[1..], trigger, now);
      var t := Sweep(cal, o, listed, s, jobs, trigger, now);
      assert t == Sweep(cal, o, listed, first, jobs[1..], trigger, now);
      FirstStaysSwept(cal, listed, first.rows, t.system.rows, jobs, now);
      forall k | 0 <= k < |jobs| ensures Swept(cal, listed, t.system.rows, jobs[k].0, jobs[k].1, now) {
        if k > 0 { assert jobs[k] == jobs[1..][k - 1]; }
      }
      forall j | j in s.rows.jobs && (forall k :: 0 <= k < |jobs| ==> jobs[k].0 != j) ensures t.system.rows.jobs[j] == s.rows.jobs[j] {
        assert forall k :: 0 <= k < |jobs[1..]| ==> jobs[1..][k].0 != j;
      }
    }
  }

  // What happens to the others makes no difference to the first.
  lemma FirstStaysSwept(cal: Calendar, listed: Rows, before: Rows, after: Rows, jobs: seq<(Id, Id)>, now: int)
    requires jobs != [] && jobs[0].0 in listed.jobs && Swept(cal, listed, before, jobs[0].0, jobs[0].1, now)
    requires forall k, m :: 0 <= k < m < |jobs| ==> jobs[k].0 != jobs[m].0 && jobs[k].1 != jobs[m].1
    requires after.jobs.Keys == before.jobs.Keys && before.runs.Keys <= after.runs.Keys
    requires forall j :: j in before.jobs && (forall k :: 0 <= k < |jobs[1..]| ==> jobs[1..][k].0 != j) ==> after.jobs[j] == before.jobs[j]
    requires forall r :: r in before.runs ==> after.runs[r] == before.runs[r]
    ensures Swept(cal, listed, after, jobs[0].0, jobs[0].1, now)
  {
    hide AdvanceOccurrence;
    forall k | 0 <= k < |jobs[1..]| ensures jobs[1..][k].0 != jobs[0].0 { assert jobs[1..][k] == jobs[k + 1]; }
  }

  /** A wake claims everything that is due, if no repository call fails: each such job moves
      on to the first instant of its schedule past the present, and the occurrence that was
      due is recorded once, run or skipped. Afterwards no job is due that could be moved on,
      and jobs that were not due are as they were. */
  lemma WakeClaimsWhatIsDue(cal: Calendar, o: Oracle, s: System, g: nat, jobs: seq<(Id, Id)>, job: Id)
    requires Advancing(cal) && (forall n :: !o.fails(n)) && SafeTimestamp(o.clock(s.calls))
    requires s.sched.Accepting() && g == s.sched.generation
    requires Lists(s.rows, jobs) && Listing(s.rows, s.rows, jobs) && job in s.rows.jobs
    ensures var now, rows := o.clock(s.calls), WakeTurn(cal, o, s, g, jobs).rows;
      var j := s.rows.jobs[job];
      && (exists k :: 0 <= k < |jobs| && jobs[k].0 == job && Swept(cal, s.rows, rows, job, jobs[k].1, now))
      && (j.enabled && j.nextRunAt.Some? && AdvanceOccurrence(cal, j.schedule, j.nextRunAt.value, now).Some? ==>
            rows.jobs[job].enabled && rows.jobs[job].nextRunAt.Some? && now < rows.jobs[job].nextRunAt.value)
  {
    hide Sweep, AdvanceOccurrence, WakeTurn;
    var now := o.clock(s.calls);
    var u := s.(sched := s.sched.(timer := None), calls := s.calls + 1);
    AllJobsAreSwept(cal, o, s.rows, u, jobs, Scheduled, now);
    RowsOfWake(cal, o, s, g, jobs);
    var k :| 0 <= k < |jobs| && jobs[k].0 == job;
    var rows := WakeTurn(cal, o, s, g, jobs).rows;
    assert Swept(cal, s.rows, rows, job, jobs[k].1, now);
    var j := s.rows.jobs[job];
    if j.nextRunAt.Some? { AdvanceIsLater(cal, j.schedule, j.nextRunAt.value, now); }
  }

  /** So does the first start, after it has interrupted what was left over: each job catches
      up with one run, however many of its occurrences were missed. */
  lemma FirstStartCatchesUp(cal: Calendar, o: Oracle, s: System, g: nat, jobs: seq<(Id, Id)>, job: Id)
    requires Advancing(cal) && (forall n :: !o.fails(n)) && SafeTimestamp(o.clock(s.calls))
    requires s.sched.Accepting() && g == s.sched.generation && !s.sched.initialized
    requires Lists(s.rows, jobs) && Listing(s.rows, s.rows, jobs) && job in s.rows.jobs
    ensures var now, rows := o.clock(s.calls), StartTurn(cal, o, s, g, jobs).rows;
      && (exists k :: 0 <= k < |jobs| && jobs[k].0 == job && Swept(cal, s.rows, rows, job, jobs[k].1, now))
      && (forall r :: r in s.rows.runs ==> r in rows.runs && !rows.runs[r].status.Active())
  {
    hide Sweep, AdvanceOccurrence, Swept, StartTurn;
    var now := o.clock(s.calls);
    var u := s.(sched := s.sched.(starting := s.sched.starting - {g}), rows := InterruptAll(s.rows, now).value, calls := s.calls + 2);
    AllJobsAreSwept(cal, o, u.rows, u, jobs, CatchUp, now);
    RowsOfFirstStart(cal, o, s, g, jobs);
    var k :| 0 <= k < |jobs| && jobs[k].0 == job;
    SweptOfSameJobs(cal, u.rows, s.rows, StartTurn(cal, o, s, g, jobs).rows, job, jobs[k].1, now);
  }

  lemma SweptOfSameJobs(cal: Calendar, listed: Rows, other: Rows, after: Rows, job: Id, run: Id, now: int)
    requires job in listed.jobs && other.jobs == listed.jobs && Swept(cal, listed, after, job, run, now)
    ensures Swept(cal, other, after, job, run, now)
  {
    hide AdvanceOccurrence;
  }

  lemma RowsOfWake(cal: Calendar, o: Oracle, s: System, g: nat, jobs: seq<(Id, Id)>)
    requires !o.fails(s.calls) && SafeTimestamp(o.clock(s.calls)) && s.sched.Accepting() && g == s.sched.generation
    ensures var u := s.(sched := s.sched.(timer := None), calls := s.calls + 1);
      WakeTurn(cal, o, s, g, jobs).rows == Sweep(cal, o, s.rows, u, jobs, Scheduled, o.clock(s.calls)).system.rows
  {
    hide Sweep, Armed;
    ArmingKeepsRows(o, ClaimDue(cal, o, s.(sched := s.sched.(timer := None)), jobs).system);
  }

  lemma RowsOfFirstStart(cal: Calendar, o: Oracle, s: System, g: nat, jobs: seq<(Id, Id)>)
    requires (forall n :: !o.fails(n)) && SafeTimestamp(o.clock(s.calls))
    requires s.sched.Accepting() && g == s.sched.generation && !s.sched.initialized
    ensures var u := s.(sched := s.sched.(starting := s.sched.starting - {g}), rows := InterruptAll(s.rows, o.clock(s.calls)).value, calls := s.calls + 2);
      StartTurn(cal, o, s, g, jobs).rows == Sweep(cal, o, u.rows, u, jobs, CatchUp, o.clock(s.calls)).system.rows
  {
    hide Sweep, Armed, InterruptAll;
    ArmingKeepsRows(o, Recover(cal, o, s.(sched := s.sched.(starting := s.sched.starting - {g})), jobs).system);
  }

  lemma ArmingKeepsRows(o: Oracle, s: System)
    ensures Armed(o, s).system.rows == s.rows
  {
  }

  lemma AdvanceIsLater(cal: Calendar, schedule: Schedule, persisted: int, now: int)
    requires Advancing(cal)
    ensures var r := AdvanceOccurrence(cal, schedule, persisted, now); r.Some? ==> now < r.value && persisted < r.value
  {
    OccurrenceIsLater(cal, schedule, JobSchedule.Later(persisted, now));
  }
}
