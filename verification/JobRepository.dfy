/** The job store as the object it is: two tables changed in place, one method per
    transaction. Every method carries out exactly the transaction of `JobRows` that it
    stands for, or changes nothing and answers with the same refusal. */
module JobRepository {
  import opened Text
  import opened JobSchedule
  import opened JobRows

  class JobRepository {
    const cal: Calendar
    var jobs: map<Id, Job>
    var runs: map<Id, Run>

    ghost function View(): Rows
      reads this
    {
      Rows(jobs, runs)
    }

    ghost predicate Valid()
      reads this
    {
      Sound(cal, View())
    }

    // The outcome of this transaction, and nothing else.
    twostate predicate Did(t: Transaction, new refusal: Option<Refusal>)
      reads this
    {
      && Valid() && View() == After(cal, old(View()), t)
      && (match Transact(cal, old(View()), t) case Ok(_) => refusal == None case Err(e) => refusal == Some(e))
    }

    twostate lemma StaysValid(t: Transaction)
      requires old(Valid()) && View() == After(cal, old(View()), t)
      ensures Valid()
    {
      TransactionKeepsSound(cal, old(View()), t);
    }

    constructor (calendar: Calendar)
      ensures Valid() && View() == NO_ROWS && cal == calendar
    {
      cal := calendar;
      jobs, runs := map[], map[];
    }

    method Create(
        id: Id, definition: Definition, checked: Option<Checked>, input: ScheduleInput, enabled: bool, acknowledged: bool, now: int)
      returns (refusal: Option<Refusal>)
      requires Valid()
      modifies this
      ensures Did(Transaction.Create(id, definition, checked, input, enabled, acknowledged, now), refusal)
    {
      var admitted := CanonicalForm(definition, checked);
      if !SafeTimestamp(now) || admitted.None? { return Some(Invalid); }
      if (admitted.value.pre.Some? || admitted.value.post.Some?) != acknowledged { return Some(Invalid); }
      var schedule := Establish(cal, input, now);
      if schedule.None? { return Some(Invalid); }
      var next := None;
      if enabled {
        next := FirstOccurrenceAfter(cal, schedule.value, now);
        if next.None? { return Some(Invalid); }
      }
      if id in jobs { return Some(Conflict); }
      jobs := jobs[id := Job(admitted.value, schedule.value, enabled, next, now, now)];
      StaysValid(Transaction.Create(id, definition, checked, input, enabled, acknowledged, now));
      refusal := None;
    }

    method Update(id: Id, c: Changes, checked: Option<Checked>, now: int) returns (refusal: Option<Refusal>)
      requires Valid()
      modifies this
      ensures Did(Transaction.Update(id, c, checked, now), refusal)
    {
      if c.Empty() || !SafeTimestamp(now) { return Some(Invalid); }
      if id !in jobs { return Some(NotFound); }
      var current := jobs[id];
      var active := HasActive(Rows(jobs, runs), id);
      if active && !c.OnlyDisables() { return Some(Busy); }
      if active {
        if c.acknowledged { return Some(Invalid); }
        jobs := jobs[id := current.(enabled := false, nextRunAt := None, updatedAt := now)];
        StaysValid(Transaction.Update(id, c, checked, now));
        return None;
      }
      var admitted := CanonicalForm(Merged(current.definition, c), checked);
      if admitted.None? || AuthorityChanged(current.definition, admitted.value, c) != c.acknowledged { return Some(Invalid); }
      var ok, schedule, next := Reschedule(current, c, now);
      if !ok { return Some(Invalid); }
      jobs := jobs[id := Job(admitted.value, schedule, Or(c.enabled, current.enabled), next, current.createdAt, now)];
      StaysValid(Transaction.Update(id, c, checked, now));
      refusal := None;
    }

    /** A new schedule starts over from now; an unchanged one keeps its next occurrence,
        unless the job was disabled until now. */
    method Reschedule(current: Job, c: Changes, now: int) returns (ok: bool, schedule: Schedule, next: Option<int>)
      ensures ok <==> Rescheduled(cal, current, c, now).Some?
      ensures ok ==> (schedule, next) == Rescheduled(cal, current, c, now).value
    {
      var enabled := Or(c.enabled, current.enabled);
      ok, schedule, next := true, current.schedule, None;
      if c.schedule.Some? {
        var established := Establish(cal, c.schedule.value, now);
        if established.None? { return false, schedule, None; }
        schedule := established.value;
        if enabled { next := FirstOccurrenceAfter(cal, schedule, now); }
      } else if enabled {
        next := current.nextRunAt;
        if !current.enabled { next := FirstOccurrenceAfter(cal, schedule, now); }
      }
      ok := !enabled || next.Some?;
    }

    method Delete(id: Id) returns (refusal: Option<Refusal>)
      requires Valid()
      modifies this
      ensures Did(Transaction.Delete(id), refusal)
    {
      if id !in jobs { return Some(NotFound); }
      if HasActive(Rows(jobs, runs), id) { return Some(Busy); }
      jobs := jobs - {id};
      runs := RunsOfOthers(runs, id);
      StaysValid(Transaction.Delete(id));
      refusal := None;
    }

    method ClaimManual(id: Id, run: Id, now: int) returns (refusal: Option<Refusal>)
      requires Valid()
      modifies this`runs
      ensures Did(Manually(id, run, now), refusal)
    {
      if !SafeTimestamp(now) { return Some(Invalid); }
      if id !in jobs { return Some(NotFound); }
      if !jobs[id].enabled { return Some(Disabled); }
      if HasActive(Rows(jobs, runs), id) { return Some(RunActive); }
      if run in runs { return Some(Conflict); }
      runs := runs[run := QueuedRun(id, Manual, now, now)];
      StaysValid(Manually(id, run, now));
      refusal := None;
    }

    /** A scheduled claim first moves the job on to its following occurrence, and then
        records the claimed one: queued, or skipped when the job is still running. */
    method ClaimScheduled(id: Id, run: Id, trigger: Trigger, now: int) returns (refusal: Option<Refusal>)
      requires Valid() && trigger != Manual
      modifies this
      ensures Did(OnTime(id, run, trigger, now), refusal)
    {
      if !SafeTimestamp(now) { return Some(Invalid); }
      if id !in jobs { return Some(NotFound); }
      var job := jobs[id];
      if !job.enabled || job.nextRunAt.None? || job.nextRunAt.value > now { return Some(NotDue); }
      var scheduledFor := job.nextRunAt.value;
      var following := AdvanceOccurrence(cal, job.schedule, scheduledFor, now);
      if following.None? { return Some(Invalid); }
      if run in runs { return Some(Conflict); }
      jobs := jobs[id := job.(nextRunAt := following, updatedAt := now)];
      if HasActive(Rows(jobs, runs), id) {
        runs := runs[run := SkippedRun(id, trigger, scheduledFor, now)];
      } else {
        runs := runs[run := QueuedRun(id, trigger, scheduledFor, now)];
      }
      StaysValid(OnTime(id, run, trigger, now));
      refusal := None;
    }

    /** `#mutateRun`, with the conditions of the statement that it runs. */
    method Mutate(id: Id, run: Id, expected: Option<nat>, c: Change, now: int) returns (refusal: Option<Refusal>)
      requires Valid()
      modifies this`runs
      ensures Did(Transaction.Mutate(id, run, expected, c, now), refusal)
    {
      if !SafeTimestamp(now) || !c.WellFormed() { return Some(Invalid); }
      if run !in runs || runs[run].job != id { return Some(NotFound); }
      var row := runs[run];
      if !c.Expects(row.status) { return Some(Busy); }
      if expected.Some? && expected.value != row.revision { return Some(Busy); }
      if !c.Fits(row) { return Some(Busy); }
      runs := runs[run := Changed(row, c, now)];
      StaysValid(Transaction.Mutate(id, run, expected, c, now));
      refusal := None;
    }

    method InterruptRows(active: set<Id>, at: int)
      requires active <= runs.Keys
      modifies this`runs
      ensures runs == InterruptedIn(old(runs), active, at)
    {
      var rest := active;
      while rest != {}
        invariant rest <= active && runs == InterruptedIn(old(runs), active - rest, at)
        decreases rest
      {
        var r :| r in rest;
        runs := runs[r := InterruptedRun(runs[r], at)];
        rest := rest - {r};
      }
      assert active - rest == active;
    }

    /** Every queued or running run, one row at a time. */
    method MarkAllInterrupted(at: int) returns (refusal: Option<Refusal>, interrupted: set<Id>)
      requires Valid()
      modifies this`runs
      ensures Did(Interrupt(at), refusal)
      ensures refusal == None ==> interrupted == old(set r | r in runs && runs[r].status.Active())
      ensures refusal == None ==> forall r :: r in runs ==> !runs[r].status.Active()
    {
      hide Sound;
      if !SafeTimestamp(at) { return Some(Invalid), {}; }
      interrupted := set r | r in runs && runs[r].status.Active();
      InterruptRows(interrupted, at);
      assert runs == After(cal, old(View()), Interrupt(at)).runs;
      StaysValid(Interrupt(at));
      refusal := None;
    }
  }
}
