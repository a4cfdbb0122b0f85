/** The scheduled-job runtime as the object it is: the fields of the scheduler, the runner
    and the coordinator, changed in place, with the loops of the program. Every method
    carries out exactly the turn of `JobRuntime` that it stands for. */
module RuntimeObjects {
  import opened Text
  import opened JobSchedule
  import opened JobRows
  import opened JobExecution
  import opened JobRuntime

  const MAX_TIMER_DELAY_MS := 2_147_000_000

  class Runtime {
    const cal: Calendar
    const o: Oracle
    // The repository, and the number of calls made to it.
    var rows: Rows
    var calls: nat
    // The runner.
    var executions: map<Id, Execution>
    var sealed: bool
    var closed: bool
    // The scheduler.
    var running: bool
    var admissionClosed: bool
    var initialized: bool
    var generation: nat
    var timer: Option<nat>
    var timerDelayMs: int
    var starting: set<nat>
    var deferred: seq<Claim>
    // The coordinator.
    var shutdownStarted: bool

    ghost function Sched(): Scheduler
      reads this
    {
      Scheduler(running, admissionClosed, initialized, generation, timer, starting, deferred)
    }

    ghost function View(): System
      reads this
    {
      System(rows, executions, calls, sealed, closed, Sched(), shutdownStarted)
    }

    constructor (cal: Calendar, o: Oracle)
      ensures View() == FRESH && this.cal == cal && this.o == o
    {
      this.cal, this.o := cal, o;
      rows, calls, executions, sealed, closed := NO_ROWS, 0, map[], false, false;
      running, admissionClosed, initialized, generation, timer, timerDelayMs := false, false, false, 0, None, 0;
      starting, deferred, shutdownStarted := {}, [], false;
    }

    // -------------------------------------------------------------------- the runner

    /** `run` of the runner: refused while closed, or while the job is still in use. */
    method Dispatch(c: Claim)
      modifies this`rows, this`executions, this`calls
      ensures View() == JobRuntime.Dispatch(o, old(View()), c)
    {
      if closed { return; }
      if exists r :: r in executions && executions[r].job == c.job && executions[r].at != Over { return; }
      if c.run in executions { return; }
      var w := Begun(o, rows, Launched(c.job, c.run, c.hasPre, c.hasPost), calls, sealed);
      rows, calls := w.rows, w.calls;
      executions := executions[c.run := w.x];
    }

    /** A suspended execution goes on. */
    method Answered(run: Id, a: Answer)
      requires run in executions && Answers(executions[run].at, a)
      modifies this`rows, this`executions, this`calls
      ensures View() == AnsweredTurn(o, old(View()), run, a)
    {
      var w := Resumed(o, rows, executions[run], calls, sealed, a);
      rows, calls := w.rows, w.calls;
      executions := executions[run := w.x];
    }

    method RequestStop(run: Id, why: Stop)
      requires run in executions
      modifies this`executions
      ensures executions == old(executions)[run := Stopped(old(executions)[run], why)]
    {
      var x := executions[run];
      if x.at != Over && x.stop != ShutdownStop && x.stop != why {
        executions := executions[run := x.(stop := why)];
      }
    }

    method Abort(run: Id) returns (found: bool)
      modifies this`executions
      ensures View() == AbortRequested(old(View()), run)
      ensures found <==> run in executions && executions[run].at != Over
    {
      if run !in executions { return false; }
      found := executions[run].at != Over;
      RequestStop(run, AbortStop);
    }

    /** Admission closes, and every unfinished execution is told, one after another. */
    method BeginRunnerShutdown()
      modifies this`closed, this`executions
      ensures closed && executions == if old(closed) then old(executions) else AllStopped(old(executions))
    {
      if closed { return; }
      closed := true;
      var rest := executions.Keys;
      while rest != {}
        invariant closed && rest <= executions.Keys == old(executions).Keys
        invariant forall r :: r in executions ==>
          executions[r] == if r in rest then old(executions)[r] else Stopped(old(executions)[r], ShutdownStop)
        decreases rest
      {
        var r :| r in rest;
        RequestStop(r, ShutdownStop);
        rest := rest - {r};
      }
      assert executions == AllStopped(old(executions));
    }

    /** The executions take over the rows that the interruption changed. */
    method SealPersistence(interrupted: set<Id>, ghost before: Rows)
      requires interrupted == set r | r in before.runs && before.runs[r].status.Active()
      requires before.runs.Keys == rows.runs.Keys
      modifies this`sealed, this`executions
      ensures sealed && executions == AllAdopted(old(executions), before, rows)
    {
      var rest := executions.Keys;
      while rest != {}
        invariant rest <= executions.Keys == old(executions).Keys
        invariant forall r :: r in executions ==>
          executions[r] == if r in rest then old(executions)[r] else AllAdopted(old(executions), before, rows)[r]
        decreases rest
      {
        var r :| r in rest;
        if executions[r].at != Over && r in interrupted {
          executions := executions[r := Adopted(executions[r], rows.runs[r])];
        }
        rest := rest - {r};
      }
      assert executions == AllAdopted(old(executions), before, rows);
      sealed := true;
    }

    // ----------------------------------------------------------------- the scheduler

    method StopScheduler()
      modifies this`running, this`generation, this`timer
      ensures Sched() == StopSched(old(Sched()))
    {
      if !running { return; }
      running := false;
      generation := generation + 1;
      timer := None;
    }

    method Start()
      modifies this`running, this`generation, this`starting
      ensures View() == StartRequested(old(View()))
    {
      if admissionClosed || running { return; }
      running := true;
      generation := generation + 1;
      starting := starting + {generation};
    }

    /** The first occurrence of all enabled jobs: a scan over the whole list. */
    method Nearest() returns (nearest: Option<int>)
      ensures nearest.None? <==> forall j :: j in rows.jobs ==> !(rows.jobs[j].enabled && rows.jobs[j].nextRunAt.Some?)
      ensures nearest.Some? ==> exists j :: j in rows.jobs && rows.jobs[j].enabled && rows.jobs[j].nextRunAt == nearest
      ensures nearest.Some? ==> forall j :: j in rows.jobs && rows.jobs[j].enabled && rows.jobs[j].nextRunAt.Some? ==>
        nearest.value <= rows.jobs[j].nextRunAt.value
    {
      nearest := None;
      var rest := rows.jobs.Keys;
      while rest != {}
        invariant rest <= rows.jobs.Keys
        invariant nearest.None? ==> forall j :: j in rows.jobs && j !in rest ==> !(rows.jobs[j].enabled && rows.jobs[j].nextRunAt.Some?)
        invariant nearest.Some? ==> exists j :: j in rows.jobs && rows.jobs[j].enabled && rows.jobs[j].nextRunAt == nearest
        invariant nearest.Some? ==> forall j :: j in rows.jobs && j !in rest && rows.jobs[j].enabled && rows.jobs[j].nextRunAt.Some? ==>
          nearest.value <= rows.jobs[j].nextRunAt.value
        decreases rest
      {
        var j :| j in rest;
        rest := rest - {j};
        var job := rows.jobs[j];
        if job.enabled && job.nextRunAt.Some? && (nearest.None? || job.nextRunAt.value < nearest.value) {
          nearest := job.nextRunAt;
        }
      }
    }

    /** The delay of the timer, set at this instant, fits the jobs: none of them comes due
        while it runs, and at its end some job is due, unless it is the longest there is. */
    ghost predicate DelayFits(now: int)
      reads this`rows, this`timerDelayMs
    {
      && 0 <= timerDelayMs <= MAX_TIMER_DELAY_MS
      && (forall j :: j in rows.jobs && rows.jobs[j].enabled && rows.jobs[j].nextRunAt.Some? ==>
            now + timerDelayMs <= Later(now, rows.jobs[j].nextRunAt.value))
      && (timerDelayMs == MAX_TIMER_DELAY_MS || exists j, t ::
            j in rows.jobs && rows.jobs[j].enabled && rows.jobs[j].nextRunAt == Some(t) && t <= now + timerDelayMs)
    }

    /** The timer is set for the first occurrence, but never for longer than the platform
        can wait; a wake that comes too early finds nothing due and arms again. */
    method Arm() returns (ok: bool)
      requires JobsSound(cal, rows.jobs)
      modifies this`timer, this`timerDelayMs, this`calls
      ensures (View(), ok) == (Armed(o, old(View())).system, Armed(o, old(View())).goesOn)
      ensures calls == old(calls) + 1
      ensures timer.Some? ==> forall j, t :: j in rows.jobs && rows.jobs[j].enabled && rows.jobs[j].nextRunAt == Some(t) ==>
        o.clock(old(calls)) + timerDelayMs <= Later(o.clock(old(calls)), t)
      ensures timer.Some? && timerDelayMs != MAX_TIMER_DELAY_MS ==>
        exists j, t :: j in rows.jobs && rows.jobs[j].enabled && rows.jobs[j].nextRunAt == Some(t) && t <= o.clock(old(calls)) + timerDelayMs
      ensures timer.Some? ==> DelayFits(o.clock(old(calls)))
    {
      timer := None;
      var call := calls;
      calls := calls + 1;
      if o.fails(call) { return false; }
      var nearest := Nearest();
      if nearest.None? {
        assert !AnyEnabled(rows);
        return true;
      }
      var now := o.clock(call);
      if !SafeTimestamp(now) { return false; }
      timerDelayMs := if nearest.value < now then 0 else if nearest.value - now > MAX_TIMER_DELAY_MS then MAX_TIMER_DELAY_MS else nearest.value - now;
      timer := Some(generation);
      ok := true;
    }

    /** `refreshSchedule`, after the definition of a job has changed. */
    method RefreshSchedule()
      requires Inv(cal, View())
      modifies this`timer, this`timerDelayMs, this`calls
      ensures View() == Next(cal, o, old(View()), Refresh)
      ensures running && !admissionClosed && timer.Some? ==> DelayFits(o.clock(old(calls)))
    {
      hide DelayFits, JobsSound;
      if !running || admissionClosed { return; }
      var _ := Arm();
    }

    /** The jobs of a listing, one after another; each claim is dispatched at once. */
    method Sweep(listed: Rows, jobs: seq<(Id, Id)>, trigger: Trigger, now: int) returns (goesOn: bool)
      modifies this`rows, this`executions, this`calls
      ensures (View(), goesOn) == (JobRuntime.Sweep(cal, o, listed, old(View()), jobs, trigger, now).system,
                                   JobRuntime.Sweep(cal, o, listed, old(View()), jobs, trigger, now).goesOn)
    {
      hide JobRuntime.Dispatch, ClaimScheduled;
      ghost var goal := JobRuntime.Sweep(cal, o, listed, View(), jobs, trigger, now);
      assert jobs[0..] == jobs;
      var k := 0;
      while k < |jobs|
        invariant k <= |jobs|
        invariant goal == JobRuntime.Sweep(cal, o, listed, View(), jobs[k..], trigger, now)
        invariant Sched() == old(Sched()) && sealed == old(sealed) && closed == old(closed) && shutdownStarted == old(shutdownStarted)
      {
        assert jobs[k..][0] == jobs[k] && jobs[k..][1..] == jobs[k + 1..];
        var more := ClaimOne(listed, jobs[k].0, jobs[k].1, trigger, now);
        if !more { return false; }
        k := k + 1;
      }
      assert jobs[k..] == [];
      goesOn := true;
    }

    method ClaimOne(listed: Rows, job: Id, run: Id, trigger: Trigger, now: int) returns (goesOn: bool)
      modifies this`rows, this`executions, this`calls
      ensures Piece(View(), goesOn) == SweepOne(cal, o, listed, old(View()), job, run, trigger, now)
    {
      hide JobRuntime.Dispatch;
      if !Due(listed, job, now) { return true; }
      var call := calls;
      calls := calls + 1;
      if o.fails(call) { return trigger != CatchUp; }
      match ClaimScheduled(cal, rows, job, run, trigger, now)
      case Err(refusal) => return trigger != CatchUp || refusal == Invalid || refusal == NotDue;
      case Ok(claimed) =>
        rows := claimed;
        if rows.runs[run].status.Queued? { Dispatch(ClaimOf(rows, job, run)); }
        return true;
    }

    method ClaimDue(jobs: seq<(Id, Id)>) returns (goesOn: bool)
      modifies this`rows, this`executions, this`calls
      ensures Piece(View(), goesOn) == JobRuntime.ClaimDue(cal, o, old(View()), jobs)
    {
      hide JobRuntime.Sweep;
      var call := calls;
      var now := o.clock(call);
      if !SafeTimestamp(now) { return false; }
      calls := calls + 1;
      if o.fails(call) { return false; }
      goesOn := Sweep(rows, jobs, Scheduled, now);
    }

    /** A timer that was armed by an earlier generation does nothing. Whatever goes wrong
        in the claims, the timer is armed again. */
    method Wake(g: nat, jobs: seq<(Id, Id)>)
      requires Inv(cal, View())
      modifies this
      ensures View() == WakeTurn(cal, o, old(View()), g, jobs)
      ensures old(running && !admissionClosed) && g == old(generation) && timer.Some? ==>
        calls > 0 && DelayFits(o.clock(calls - 1))
    {
      hide JobRuntime.ClaimDue, Armed, Inv, DelayFits;
      if !running || admissionClosed || g != generation { return; }
      timer := None;
      var _ := ClaimDue(jobs);
      WakeStaysSound(old(View()), g, jobs);
      var _ := Arm();
    }

    lemma WakeStaysSound(s: System, g: nat, jobs: seq<(Id, Id)>)
      requires Inv(cal, s)
      ensures JobsSound(cal, JobRuntime.ClaimDue(cal, o, s.(sched := s.sched.(timer := None)), jobs).system.rows.jobs)
    {
      SchedulingKeepsInv(cal, s, s.sched.(timer := None), s.calls);
      ClaimDueKeepsInv(cal, o, s.(sched := s.sched.(timer := None)), jobs);
    }

    /** The first start after the process began: recover, and catch up. */
    method Recover(jobs: seq<(Id, Id)>) returns (goesOn: bool)
      modifies this`rows, this`executions, this`calls, this`initialized
      ensures Piece(View(), goesOn) == JobRuntime.Recover(cal, o, old(View()), jobs)
    {
      hide JobRuntime.Sweep, InterruptAll;
      var now := o.clock(calls);
      if !SafeTimestamp(now) { return false; }
      var ok, _ := MarkAllInterrupted();
      if !ok { return false; }
      var call := calls;
      calls := calls + 1;
      if o.fails(call) { return false; }
      goesOn := Sweep(rows, jobs, CatchUp, now);
      if goesOn { initialized := true; }
    }

    method ClaimAtStart(jobs: seq<(Id, Id)>) returns (goesOn: bool)
      modifies this`rows, this`executions, this`calls, this`initialized
      ensures Piece(View(), goesOn) ==
              if old(initialized) then JobRuntime.ClaimDue(cal, o, old(View()), jobs) else JobRuntime.Recover(cal, o, old(View()), jobs)
    {
      hide JobRuntime.ClaimDue, JobRuntime.Recover;
      if initialized { goesOn := ClaimDue(jobs); } else { goesOn := Recover(jobs); }
    }

    /** The rest of `start`, on a later turn, unless it was stopped in the meantime. */
    method CarryOutStart(g: nat, jobs: seq<(Id, Id)>)
      requires Inv(cal, View())
      modifies this
      ensures View() == StartTurn(cal, o, old(View()), g, jobs)
      ensures old(running && !admissionClosed) && g == old(generation) && timer.Some? ==>
        calls > 0 && DelayFits(o.clock(calls - 1))
    {
      hide JobRuntime.ClaimDue, JobRuntime.Recover, Armed, Inv, JobsSound, DelayFits;
      starting := starting - {g};
      if !running || admissionClosed || g != generation { return; }
      StartStaysSound(old(View()), g, jobs);
      var goesOn := ClaimAtStart(jobs);
      ArmOrStop(goesOn);
    }

    // The end of a start: a timer, or after a failure no start at all.
    method ArmOrStop(claimed: bool)
      requires JobsSound(cal, rows.jobs)
      modifies this`running, this`timer, this`timerDelayMs, this`calls
      ensures View() == ArmedOrStopped(o, Piece(old(View()), claimed))
      ensures timer.Some? ==> calls == old(calls) + 1 && DelayFits(o.clock(old(calls)))
    {
      hide JobsSound, DelayFits;
      var goesOn := claimed;
      if goesOn { goesOn := Arm(); }
      if !goesOn {
        running := false;
        timer := None;
      }
    }

    lemma StartStaysSound(s: System, g: nat, jobs: seq<(Id, Id)>)
      requires Inv(cal, s)
      ensures var t := s.(sched := s.sched.(starting := s.sched.starting - {g}));
        JobsSound(cal, JobRuntime.ClaimDue(cal, o, t, jobs).system.rows.jobs) && JobsSound(cal, JobRuntime.Recover(cal, o, t, jobs).system.rows.jobs)
    {
      var t := s.(sched := s.sched.(starting := s.sched.starting - {g}));
      SchedulingKeepsInv(cal, s, t.sched, s.calls);
      ClaimDueKeepsInv(cal, o, t, jobs);
      RecoverKeepsInv(cal, o, t, jobs);
    }

    // A manual claim; whether there is something to run.
    method Claim(job: Id, run: Id) returns (claimed: bool)
      modifies this`rows, this`calls
      ensures Piece(View(), claimed) == ManualClaim(o, old(View()), job, run)
    {
      var call := calls;
      if !running || admissionClosed || !SafeTimestamp(o.clock(call)) { return false; }
      calls := calls + 1;
      if o.fails(call) { return false; }
      match ClaimManual(rows, job, run, o.clock(call))
      case Err(_) => return false;
      case Ok(after) =>
        rows := after;
        return true;
    }

    method RunNow(job: Id, run: Id)
      modifies this`rows, this`executions, this`calls
      ensures View() == RunNowTurn(o, old(View()), job, run)
    {
      hide JobRuntime.Dispatch;
      var claimed := Claim(job, run);
      if claimed { Dispatch(ClaimOf(rows, job, run)); }
    }

    /** The claim is accepted now and dispatched on a later turn. */
    method RunNowAccepted(job: Id, run: Id)
      modifies this`rows, this`deferred, this`calls
      ensures View() == RunNowAcceptedTurn(o, old(View()), job, run)
    {
      var claimed := Claim(job, run);
      if claimed { deferred := deferred + [ClaimOf(rows, job, run)]; }
    }

    method DispatchDeferred()
      requires deferred != []
      modifies this`rows, this`executions, this`deferred, this`calls
      ensures View() == DeferredTurn(o, old(View()))
    {
      var c := deferred[0];
      deferred := deferred[1..];
      Dispatch(c);
    }

    method BeginSchedulerShutdown()
      modifies this`running, this`generation, this`timer, this`admissionClosed
      ensures Sched() == if old(admissionClosed) then old(Sched()) else StopSched(old(Sched())).(closed := true)
    {
      if admissionClosed { return; }
      StopScheduler();
      admissionClosed := true;
    }

    // --------------------------------------------------------------- the coordinator

    /** The interruption transaction: every active row, or none. */
    method MarkAllInterrupted() returns (ok: bool, interrupted: set<Id>)
      modifies this`rows, this`calls
      ensures calls == old(calls) + 1 && (ok <==> InterruptionCommits(o, old(View())))
      ensures rows == if ok then InterruptAll(old(rows), o.clock(old(calls))).value else old(rows)
      ensures ok ==> interrupted == set r | r in old(rows).runs && old(rows).runs[r].status.Active()
    {
      var call := calls;
      calls := calls + 1;
      if o.fails(call) || !SafeTimestamp(o.clock(call)) { return false, {}; }
      interrupted := set r | r in rows.runs && rows.runs[r].status.Active();
      rows := rows.(runs := InterruptedIn(rows.runs, interrupted, o.clock(call)));
      assert rows == InterruptAll(old(rows), o.clock(call)).value;
      ok := true;
    }

    // Whether or not the interruption commits, persistence is sealed after it.
    method InterruptAndSeal() returns (threw: bool)
      modifies this`rows, this`calls, this`sealed, this`executions
      ensures sealed && calls == old(calls) + 1 && (threw <==> !InterruptionCommits(o, old(View())))
      ensures threw ==> rows == old(rows) && executions == old(executions)
      ensures !threw ==>
        && rows == InterruptAll(old(rows), o.clock(old(calls))).value && NoneActive(rows)
        && executions == AllAdopted(old(executions), old(rows), rows)
    {
      hide InterruptAll, AllAdopted, NoneActive;
      ghost var before := rows;
      var ok, interrupted := MarkAllInterrupted();
      if !ok {
        sealed := true;
        return true;
      }
      InterruptionIsTotal(before, o.clock(old(calls)));
      SealPersistence(interrupted, before);
      threw := false;
    }

    /** Close admission, signal the executions, interrupt the rows in one transaction, and
        seal the runner whether or not that transaction committed. */
    method BeginShutdown() returns (threw: bool)
      requires FlagsAgree(View())
      modifies this
      ensures View() == Shutdown(o, old(View()))
      ensures threw <==> !old(shutdownStarted) && !InterruptionCommits(o, old(View()))
      ensures !threw && !old(shutdownStarted) ==> NoneActive(rows)
    {
      hide InterruptAll, AllAdopted, AllStopped, StopSched, NoneActive;
      if shutdownStarted { return false; }
      shutdownStarted := true;
      BeginSchedulerShutdown();
      BeginRunnerShutdown();
      threw := InterruptAndSeal();
    }
  }

  lemma InterruptionIsTotal(rows: Rows, now: int)
    requires SafeTimestamp(now)
    ensures NoneActive(InterruptAll(rows, now).value) && InterruptAll(rows, now).value.runs.Keys == rows.runs.Keys
  {
  }
}
