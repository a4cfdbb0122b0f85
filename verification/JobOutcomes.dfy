/** Why runs end as they do, and which never begin: facts about whole runs of the
    scheduled-job runtime, read off the history of its steps. */
module JobOutcomes {
  import opened Text
  import opened JobSchedule
  import opened JobRows
  import opened JobExecution
  import opened JobRuntime

  // ---------------------------------------------------------------------- the history

  /** What the steps so far may have done to runs: a shutdown, a recovery at a start, and
      requests to abort. */
  datatype History = History(shutdown: bool, recovery: bool, aborts: set<Id>)

  function Noted(h: History, l: Step): History {
    match l
    case BeginShutdown => h.(shutdown := true)
    case Starting(_, _) => h.(recovery := true)
    case RequestAbort(run) => h.(aborts := h.aborts + {run})
    case _ => h
  }

  function Past(steps: seq<Step>): History {
    if steps == [] then History(false, false, {}) else Noted(Past(steps[..|steps| - 1]), steps[|steps| - 1])
  }

  predicate AnyStart(steps: seq<Step>) { exists k :: 0 <= k < |steps| && steps[k].Starting? }

  lemma {:induction false} PastExactly(steps: seq<Step>)
    ensures var h := Past(steps);
      && (h.shutdown <==> BeginShutdown in steps) && (h.recovery <==> AnyStart(steps))
      && forall r :: r in h.aborts <==> RequestAbort(r) in steps
  {
    if steps != [] {
      hide AnyStart;
      var front, last := steps[..|steps| - 1], steps[|steps| - 1];
      PastExactly(front);
      assert steps == front + [last];
      StartsSoFar(steps);
    }
  }

  lemma StartsSoFar(steps: seq<Step>)
    requires steps != []
    ensures AnyStart(steps) <==> AnyStart(steps[..|steps| - 1]) || steps[|steps| - 1].Starting?
  {
    var front := steps[..|steps| - 1];
    if AnyStart(steps) {
      var k :| 0 <= k < |steps| && steps[k].Starting?;
      assert k == |front| || front[k].Starting?;
    }
    if AnyStart(front) {
      var k :| 0 <= k < |front| && front[k].Starting?;
      assert steps[k].Starting?;
    }
  }

  // --------------------------------------------------------------- what is kept by steps

  predicate HeardStop(heard: seq<Answer>, stop: Stop) { exists k :: 0 <= k < |heard| && Tells(heard[k], stop) }

  /** A stop has a cause: a step outside, or an answer. */
  predicate StopExplained(h: History, x: Execution) {
    && (x.stop == ShutdownStop ==> h.shutdown || HeardStop(x.heard, ShutdownStop))
    && (x.stop == AbortStop ==> x.run in h.aborts || HeardStop(x.heard, AbortStop))
  }

  predicate InterruptedBy(h: History, executions: map<Id, Execution>, r: Id) {
    h.shutdown || h.recovery || (r in executions && HeardStop(executions[r].heard, ShutdownStop))
  }

  predicate AbortedBy(h: History, executions: map<Id, Execution>, r: Id) {
    r in executions &&
    (r in h.aborts || HeardStop(executions[r].heard, AbortStop) || CapacityRefused(Some(ShuttingDown)) in executions[r].heard)
  }

  predicate EndExplained(h: History, executions: map<Id, Execution>, r: Id, status: Status) {
    (status == Interrupted ==> InterruptedBy(h, executions, r)) && (status == Aborted ==> AbortedBy(h, executions, r))
  }

  ghost predicate Explained(h: History, s: System) {
    && (forall r :: r in s.executions ==> StopExplained(h, s.executions[r]))
    && (forall r :: r in s.rows.runs ==> EndExplained(h, s.executions, r, s.rows.runs[r].status))
  }

  /** The run was told to stop before it succeeded. */
  predicate StoppedInTime(s: System, r: Id) {
    r in s.executions && s.executions[r].stop != NoStop && (r in s.rows.runs ==> s.rows.runs[r].status != Succeeded)
  }

  predicate Deferring(s: System, r: Id) { exists k :: 0 <= k < |s.sched.deferred| && s.sched.deferred[k].run == r }

  /** The run is queued or running, but nothing is left that would begin or end it: it has no
      execution, or one that does not touch its row any more, and no dispatch to come. */
  predicate Stranded(s: System, r: Id) {
    && r in s.rows.runs && s.rows.runs[r].status.Active() && !Deferring(s, r)
    && (r in s.executions ==> s.executions[r].at == AtRelease || s.executions[r].at == Over)
  }

  // It stays so, with the row as it is.
  ghost predicate StaysStranded(s: System, t: System, r: Id) {
    Stranded(s, r) ==> Stranded(t, r) && t.rows.runs[r] == s.rows.runs[r]
  }

  ghost predicate Keeps(h: History, s: System, t: System) {
    (Explained(h, s) ==> Explained(h, t)) && (forall r :: StoppedInTime(s, r) ==> StoppedInTime(t, r))
  }

  ghost predicate Leaves(s: System, t: System, but: set<Id>) { forall r :: r !in but ==> StaysStranded(s, t, r) }

  lemma KeepsTwice(h: History, s: System, t: System, u: System)
    requires Keeps(h, s, t) && Keeps(h, t, u)
    ensures Keeps(h, s, u)
  {
  }

  lemma LeavesTwice(s: System, t: System, u: System, but: set<Id>)
    requires Leaves(s, t, but) && Leaves(t, u, {})
    ensures Leaves(s, u, but)
  {
    forall r | r !in but ensures StaysStranded(s, u, r) {
      assert StaysStranded(s, t, r) && StaysStranded(t, u, r);
    }
  }

  // ------------------------------------------------------------------------- executions

  // The same execution, having heard more.
  predicate HeardOn(x: Execution, y: Execution) { y.run == x.run && y.stop == x.stop && x.heard <= y.heard }

  lemma HeardMore(heard: seq<Answer>, more: seq<Answer>)
    requires heard <= more
    ensures forall stop :: HeardStop(heard, stop) ==> HeardStop(more, stop)
    ensures forall a :: a in heard ==> a in more
  {
    forall stop | HeardStop(heard, stop) ensures HeardStop(more, stop) {
      var k :| 0 <= k < |heard| && Tells(heard[k], stop);
      assert Tells(more[k], stop);
    }
    forall a | a in heard ensures a in more {
      var k :| 0 <= k < |heard| && heard[k] == a;
      assert more[k] == a;
    }
  }

  lemma StopStaysExplained(h: History, x: Execution, y: Execution)
    requires StopExplained(h, x) && y.run == x.run && y.heard == x.heard && StopHeard(x, y)
    ensures StopExplained(h, y)
  {
    if y.stop != x.stop { assert Tells(y.heard[|y.heard| - 1], y.stop); }
  }

  lemma HeardOnExplained(h: History, x: Execution, y: Execution)
    requires StopExplained(h, x) && HeardOn(x, y)
    ensures StopExplained(h, y)
  {
    HeardMore(x.heard, y.heard);
  }

  // What a verdict says about the end of a run.
  lemma VerdictExplained(h: History, executions: map<Id, Execution>, x: Execution, status: Status)
    requires status in Verdicts(x) && StopExplained(h, x) && x.run in executions && executions[x.run] == x
    ensures EndExplained(h, executions, x.run, status)
    ensures x.stop != NoStop ==> status != Succeeded
  {
    if x.stop == NoStop && status == Aborted { assert x.heard[|x.heard| - 1] == CapacityRefused(Some(ShuttingDown)); }
  }

  // Only the own row and the own entry of the table change.
  lemma StretchExplained(cal: Calendar, h: History, s: System, w: World, v: World)
    requires Explained(h, s) && Judged(cal, w, v) && StopHeard(w.x, v.x) && w.rows == s.rows
    requires w.x.run in s.executions ==> HeardOn(s.executions[w.x.run], w.x)
    requires w.x.run !in s.executions ==> w.x.stop == NoStop
    ensures Explained(h, WithStretch(s, v))
  {
    var t := WithStretch(s, v);
    var run := w.x.run;
    if run in s.executions { HeardOnExplained(h, s.executions[run], w.x); HeardMore(s.executions[run].heard, w.x.heard); }
    StopStaysExplained(h, w.x, v.x);
    forall r | r in t.rows.runs ensures EndExplained(h, t.executions, r, t.rows.runs[r].status) {
      if r != run {
        assert EndExplained(h, s.executions, r, s.rows.runs[r].status);
      } else if Terminal(w) {
        assert EndExplained(h, s.executions, r, s.rows.runs[r].status);
      } else if Terminal(v) {
        VerdictExplained(h, t.executions, v.x, t.rows.runs[r].status);
      }
    }
  }

  lemma StretchKeepsStops(cal: Calendar, s: System, w: World, v: World, r: Id)
    requires Judged(cal, w, v) && w.rows == s.rows && StoppedInTime(s, r)
    requires w.x.run in s.executions ==> w.x.stop == s.executions[w.x.run].stop
    ensures StoppedInTime(WithStretch(s, v), r)
  {
    if r == w.x.run && r in v.rows.runs && !Terminal(w) && Terminal(v) {
      assert StatusIn(v).value in Verdicts(v.x);
      assert v.x.stop == w.x.stop;
    }
  }

  lemma StretchKeeps(cal: Calendar, h: History, s: System, w: World, v: World)
    requires Judged(cal, w, v) && StopHeard(w.x, v.x) && w.rows == s.rows
    requires w.x.run in s.executions ==> HeardOn(s.executions[w.x.run], w.x)
    requires w.x.run !in s.executions ==> w.x.stop == NoStop
    ensures Keeps(h, s, WithStretch(s, v)) && Leaves(s, WithStretch(s, v), {w.x.run})
  {
    hide StoppedInTime, Explained, HeardOn, StopHeard;
    if Explained(h, s) { StretchExplained(cal, h, s, w, v); }
    forall r | StoppedInTime(s, r) ensures StoppedInTime(WithStretch(s, v), r) {
      SameStop(s.executions, w.x);
      StretchKeepsStops(cal, s, w, v, r);
    }
    StretchLeaves(cal, s, w, v);
  }

  lemma SameStop(executions: map<Id, Execution>, x: Execution)
    requires x.run in executions ==> HeardOn(executions[x.run], x)
    ensures x.run in executions ==> x.stop == executions[x.run].stop
  {
  }

  lemma StretchLeaves(cal: Calendar, s: System, w: World, v: World)
    requires Judged(cal, w, v) && w.rows == s.rows
    ensures Leaves(s, WithStretch(s, v), {w.x.run})
  {
  }

  // -------------------------------------------------------------------------- dispatches

  lemma DispatchKeeps(cal: Calendar, o: Oracle, h: History, s: System, c: Claim)
    ensures Keeps(h, s, Dispatch(o, s, c)) && Leaves(s, Dispatch(o, s, c), {c.run})
  {
    hide Keeps, Leaves, Judged, Begun;
    if Dispatchable(s, c) {
      var x := Launched(c.job, c.run, c.hasPre, c.hasPost);
      BeginningFacts(cal, o, s.rows, c.job, c.run, c.hasPre, c.hasPost, s.calls, s.sealed);
      BeginningStops(o, s.rows, x, s.calls, s.sealed);
      StretchKeeps(cal, h, s, World(s.rows, x, s.calls), Begun(o, s.rows, x, s.calls, s.sealed));
      JudgedSameRun(cal, World(s.rows, x, s.calls), Begun(o, s.rows, x, s.calls, s.sealed));
    } else {
      NothingKeeps(h, s, s.calls, s.sched);
    }
  }

  lemma JudgedSameRun(cal: Calendar, w: World, v: World)
    requires Judged(cal, w, v)
    ensures v.x.run == w.x.run
  {
  }

  // The scheduler's flags and the number of calls make no difference.
  lemma NothingKeeps(h: History, s: System, calls: nat, sched: Scheduler)
    requires sched.deferred == s.sched.deferred
    ensures var t := s.(calls := calls, sched := sched); Keeps(h, s, t) && Leaves(s, t, {})
    ensures Keeps(h, s, s) && forall but :: Leaves(s, s, but)
  {
  }

  // Everything that a dispatch needs.
  predicate CanRun(o: Oracle, s: System, c: Claim) { !s.closed && !Unfinished(s, c.job) && Works(o, s.calls) }

  // A queued claim as it was made.
  predicate Awaiting(s: System, c: Claim) {
    && c.run in s.rows.runs && s.rows.runs[c.run].status == Queued && s.rows.runs[c.run].job == c.job
    && RunSound(s.rows.runs[c.run]) && c.run !in s.executions
  }

  /** The moment of truth for a queued claim, however it was made: its row is running after
      the dispatch if and only if the runner is open, no execution of its job is unfinished
      and its start can be recorded; otherwise the rows stay as they are, and the run is
      stranded. */
  lemma DispatchRunsExactlyWhen(o: Oracle, s: System, c: Claim)
    requires Awaiting(s, c) && !Deferring(s, c.run) && FlagsAgree(s)
    ensures var t := Dispatch(o, s, c);
      && c.run in t.rows.runs && (t.rows.runs[c.run].status == Running <==> CanRun(o, s, c))
      && (!CanRun(o, s, c) ==> t.rows == s.rows) && (Stranded(t, c.run) <==> !CanRun(o, s, c))
  {
    hide Begun;
    BeginningExactly(o, s.rows, Launched(c.job, c.run, c.hasPre, c.hasPost), s.calls);
  }

  // ------------------------------------------------------------------------------ claims

  // A claim adds one run, which waits or was skipped.
  predicate OneRunAdded(before: map<Id, Run>, after: map<Id, Run>, run: Id) {
    && run !in before && after.Keys == before.Keys + {run} && (after[run].status == Queued || after[run].status == Skipped)
    && forall r :: r in before ==> after[r] == before[r]
  }

  lemma ClaimKeeps(h: History, s: System, rows: Rows, calls: nat, run: Id)
    requires OneRunAdded(s.rows.runs, rows.runs, run)
    ensures var t := s.(rows := rows, calls := calls); Keeps(h, s, t) && Leaves(s, t, {})
  {
    var t := s.(rows := rows, calls := calls);
    if Explained(h, s) {
      forall r | r in t.rows.runs ensures EndExplained(h, t.executions, r, t.rows.runs[r].status) {
        if r != run { assert EndExplained(h, s.executions, r, s.rows.runs[r].status); }
      }
    }
  }

  lemma ClaimsAddOne(cal: Calendar, rows: Rows, job: Id, run: Id, trigger: Trigger, now: int)
    ensures var c := ClaimManual(rows, job, run, now); c.Ok? ==> job in c.value.jobs && OneRunAdded(rows.runs, c.value.runs, run)
    ensures var c := ClaimScheduled(cal, rows, job, run, trigger, now); c.Ok? ==> job in c.value.jobs && OneRunAdded(rows.runs, c.value.runs, run)
  {
  }

  lemma LeavesVia(s: System, t: System, u: System, run: Id)
    requires run !in s.rows.runs && Leaves(s, t, {}) && Leaves(t, u, {run})
    ensures Leaves(s, u, {})
  {
    forall r ensures StaysStranded(s, u, r) {
      assert StaysStranded(s, t, r) && (r != run ==> StaysStranded(t, u, r));
    }
  }

  lemma SweepOneKeeps(cal: Calendar, o: Oracle, h: History, listed: Rows, s: System, job: Id, run: Id, trigger: Trigger, now: int)
    ensures var t := SweepOne(cal, o, listed, s, job, run, trigger, now).system; Keeps(h, s, t) && Leaves(s, t, {})
  {
    hide Keeps, Leaves, Dispatch, ClaimScheduled, OneRunAdded, ClaimOf;
    NothingKeeps(h, s, s.calls + 1, s.sched);
    var claim := ClaimScheduled(cal, s.rows, job, run, trigger, now);
    ClaimsAddOne(cal, s.rows, job, run, trigger, now);
    if Due(listed, job, now) && !o.fails(s.calls) && claim.Ok? {
      ClaimedKeeps(cal, o, h, s, job, run, claim.value);
    }
  }

  lemma ClaimedKeeps(cal: Calendar, o: Oracle, h: History, s: System, job: Id, run: Id, rows: Rows)
    requires OneRunAdded(s.rows.runs, rows.runs, run) && job in rows.jobs
    ensures var t := s.(rows := rows, calls := s.calls + 1);
      && Keeps(h, s, DispatchIfQueued(o, t, job, run)) && Leaves(s, DispatchIfQueued(o, t, job, run), {})
      && Keeps(h, s, Dispatch(o, t, ClaimOf(rows, job, run))) && Leaves(s, Dispatch(o, t, ClaimOf(rows, job, run)), {})
  {
    hide Keeps, Leaves, Dispatch;
    var t := s.(rows := rows, calls := s.calls + 1);
    var c := ClaimOf(rows, job, run);
    ClaimKeeps(h, s, rows, s.calls + 1, run);
    DispatchKeeps(cal, o, h, t, c);
    KeepsTwice(h, s, t, Dispatch(o, t, c));
    LeavesVia(s, t, Dispatch(o, t, c), run);
  }

  lemma {:induction false} SweepKeeps(cal: Calendar, o: Oracle, h: History, listed: Rows, s: System, jobs: seq<(Id, Id)>, trigger: Trigger, now: int)
    ensures var t := Sweep(cal, o, listed, s, jobs, trigger, now).system; Keeps(h, s, t) && Leaves(s, t, {})
    decreases |jobs|
  {
    hide Keeps, Leaves, SweepOne;
    if jobs == [] {
      NothingKeeps(h, s, s.calls, s.sched);
    } else {
      var first := SweepOne(cal, o, listed, s, jobs[0].0, jobs[0].1, trigger, now);
      SweepOneKeeps(cal, o, h, listed, s, jobs[0].0, jobs[0].1, trigger, now);
      if first.goesOn {
        SweepKeeps(cal, o, h, listed, first.system, jobs[1..], trigger, now);
        var t := Sweep(cal, o, listed, first.system, jobs[1..], trigger, now).system;
        KeepsTwice(h, s, first.system, t);
        LeavesTwice(s, first.system, t, {});
      }
    }
  }

  // ------------------------------------------------------------------ turns of the scheduler

  // Same runs and executions, and the same deferred dispatches.
  predicate SameRuns(s: System, t: System) {
    t.rows == s.rows && t.executions == s.executions && t.sched.deferred == s.sched.deferred
  }

  lemma SameRunsKeep(h: History, s: System, t: System)
    requires SameRuns(s, t)
    ensures Keeps(h, s, t) && Leaves(s, t, {})
  {
  }

  lemma ThenSame(h: History, s: System, t: System, u: System)
    requires Keeps(h, s, t) && SameRuns(t, u)
    ensures Keeps(h, s, u) && (Leaves(s, t, {}) ==> Leaves(s, u, {}))
  {
  }

  lemma ArmedSame(o: Oracle, s: System)
    ensures SameRuns(s, Armed(o, s).system)
  {
  }

  lemma ClaimDueKeeps(cal: Calendar, o: Oracle, h: History, s: System, jobs: seq<(Id, Id)>)
    ensures var t := ClaimDue(cal, o, s, jobs).system; Keeps(h, s, t) && Leaves(s, t, {})
  {
    hide Keeps, Leaves, Sweep;
    var counted := s.(calls := s.calls + 1);
    SameRunsKeep(h, s, s);
    SameRunsKeep(h, s, counted);
    SweepKeeps(cal, o, h, s.rows, counted, jobs, Scheduled, o.clock(s.calls));
    KeepsTwice(h, s, counted, Sweep(cal, o, s.rows, counted, jobs, Scheduled, o.clock(s.calls)).system);
    LeavesTwice(s, counted, Sweep(cal, o, s.rows, counted, jobs, Scheduled, o.clock(s.calls)).system, {});
  }

  // Every active run is interrupted, for a reason that is on record.
  lemma InterruptionKeeps(h: History, s: System, t: System, now: int)
    requires (h.shutdown || h.recovery) && SafeTimestamp(now) && t.rows == InterruptAll(s.rows, now).value && t.executions == s.executions
    ensures Keeps(h, s, t)
  {
    if Explained(h, s) {
      forall r | r in t.rows.runs ensures EndExplained(h, t.executions, r, t.rows.runs[r].status) {
        assert EndExplained(h, s.executions, r, s.rows.runs[r].status);
      }
    }
  }

  lemma RecoverKeeps(cal: Calendar, o: Oracle, h: History, s: System, jobs: seq<(Id, Id)>)
    requires h.recovery
    ensures Keeps(h, s, Recover(cal, o, s, jobs).system)
  {
    hide Keeps, Sweep;
    var now := o.clock(s.calls);
    SameRunsKeep(h, s, s);
    SameRunsKeep(h, s, s.(calls := s.calls + 1));
    if SafeTimestamp(now) {
      var t := s.(rows := InterruptAll(s.rows, now).value, calls := s.calls + 2);
      InterruptionKeeps(h, s, t, now);
      SweepKeeps(cal, o, h, t.rows, t, jobs, CatchUp, now);
      var u := Sweep(cal, o, t.rows, t, jobs, CatchUp, now).system;
      KeepsTwice(h, s, t, u);
      ThenSame(h, s, u, u.(sched := u.sched.(initialized := true)));
    }
  }

  lemma ArmedOrStoppedSame(o: Oracle, p: Piece)
    ensures SameRuns(p.system, ArmedOrStopped(o, p))
  {
    ArmedSame(o, p.system);
  }

  lemma StartTurnKeeps(cal: Calendar, o: Oracle, h: History, s: System, g: nat, jobs: seq<(Id, Id)>)
    requires h.recovery
    ensures Keeps(h, s, StartTurn(cal, o, s, g, jobs))
    ensures s.sched.initialized ==> Leaves(s, StartTurn(cal, o, s, g, jobs), {})
  {
    hide Keeps, Leaves, ClaimDue, Recover, ArmedOrStopped;
    var t := s.(sched := s.sched.(starting := s.sched.starting - {g}));
    SameRunsKeep(h, s, t);
    if t.sched.Accepting() && g == t.sched.generation {
      ClaimDueKeeps(cal, o, h, t, jobs);
      RecoverKeeps(cal, o, h, t, jobs);
      var claimed := if t.sched.initialized then ClaimDue(cal, o, t, jobs) else Recover(cal, o, t, jobs);
      KeepsTwice(h, s, t, claimed.system);
      if s.sched.initialized { LeavesTwice(s, t, claimed.system, {}); }
      ArmedOrStoppedSame(o, claimed);
      ThenSame(h, s, claimed.system, ArmedOrStopped(o, claimed));
    }
  }

  lemma WakeTurnKeeps(cal: Calendar, o: Oracle, h: History, s: System, g: nat, jobs: seq<(Id, Id)>)
    ensures var t := WakeTurn(cal, o, s, g, jobs); Keeps(h, s, t) && Leaves(s, t, {})
  {
    hide Keeps, Leaves, ClaimDue, Armed;
    var t := s.(sched := s.sched.(timer := None));
    SameRunsKeep(h, s, s);
    SameRunsKeep(h, s, t);
    ClaimDueKeeps(cal, o, h, t, jobs);
    var u := ClaimDue(cal, o, t, jobs).system;
    KeepsTwice(h, s, t, u);
    LeavesTwice(s, t, u, {});
    ArmedSame(o, u);
    ThenSame(h, s, u, Armed(o, u).system);
  }

  lemma RunNowKeeps(cal: Calendar, o: Oracle, h: History, s: System, job: Id, run: Id)
    ensures Keeps(h, s, RunNowTurn(o, s, job, run)) && Leaves(s, RunNowTurn(o, s, job, run), {})
    ensures Keeps(h, s, RunNowAcceptedTurn(o, s, job, run)) && Leaves(s, RunNowAcceptedTurn(o, s, job, run), {})
  {
    hide Keeps, Leaves, Dispatch, ClaimManual, OneRunAdded;
    var claim := ClaimManual(s.rows, job, run, o.clock(s.calls));
    SameRunsKeep(h, s, s);
    SameRunsKeep(h, s, s.(calls := s.calls + 1));
    ClaimsAddOne(cal, s.rows, job, run, Manual, o.clock(s.calls));
    var t := ManualClaim(o, s, job, run);
    if t.goesOn {
      assert claim.Ok? && t.system == s.(rows := claim.value, calls := s.calls + 1);
      ClaimedKeeps(cal, o, h, s, job, run, claim.value);
      ClaimKeeps(h, s, claim.value, s.calls + 1, run);
      DeferralKeeps(h, s, t.system, ClaimOf(t.system.rows, job, run), run);
    }
  }

  lemma DeferralKeeps(h: History, s: System, t: System, c: Claim, run: Id)
    requires Keeps(h, s, t) && Leaves(s, t, {}) && OneRunAdded(s.rows.runs, t.rows.runs, run) && c.run == run
    ensures Keeps(h, s, Deferred(t, c)) && Leaves(s, Deferred(t, c), {})
  {
  }

  lemma DeferredKeeps(cal: Calendar, o: Oracle, h: History, s: System)
    requires s.sched.deferred != []
    ensures Keeps(h, s, DeferredTurn(o, s)) && Leaves(s, DeferredTurn(o, s), {})
  {
    hide Keeps, Leaves, Dispatch;
    var t := s.(sched := s.sched.(deferred := s.sched.deferred[1..]));
    TakenKeeps(h, s, t);
    DispatchKeeps(cal, o, h, t, s.sched.deferred[0]);
    KeepsTwice(h, s, t, Dispatch(o, t, s.sched.deferred[0]));
    TakenLeaves(s, t, Dispatch(o, t, s.sched.deferred[0]));
  }

  lemma TakenKeeps(h: History, s: System, t: System)
    requires t.rows == s.rows && t.executions == s.executions
    ensures Keeps(h, s, t)
  {
  }

  lemma TakenLeaves(s: System, t: System, u: System)
    requires s.sched.deferred != [] && t == s.(sched := s.sched.(deferred := s.sched.deferred[1..]))
    requires Leaves(t, u, {s.sched.deferred[0].run})
    ensures Leaves(s, u, {})
  {
    forall r ensures StaysStranded(s, u, r) {
      if Stranded(s, r) {
        assert Deferring(s, s.sched.deferred[0].run);
        assert StaysStranded(t, u, r);
        assert forall k :: 0 <= k < |t.sched.deferred| ==> t.sched.deferred[k] == s.sched.deferred[k + 1];
      }
    }
  }

  // ------------------------------------------------------------------------- other steps

  lemma AnswerKeeps(cal: Calendar, o: Oracle, h: History, s: System, run: Id, a: Answer)
    requires Inv(cal, s) && run in s.executions && Answers(s.executions[run].at, a)
    ensures Keeps(h, s, AnsweredTurn(o, s, run, a)) && Leaves(s, AnsweredTurn(o, s, run, a), {})
  {
    hide Keeps, Leaves, Judged, JobExecution.Resumed, StopHeard;
    var x := s.executions[run];
    var w := World(s.rows, Hearing(x, a), s.calls);
    var v := Resumed(o, s.rows, x, s.calls, s.sealed, a);
    StretchFacts(cal, o, s.rows, x, s.calls, s.sealed, a);
    StretchStops(o, s.rows, x, s.calls, s.sealed, a);
    JudgedSameRun(cal, w, v);
    StretchKeeps(cal, h, s, w, v);
    assert AnsweredTurn(o, s, run, a) == WithStretch(s, v);
    AnsweredLeaves(o, s, run, a);
  }

  // Only the answer to a release comes to a stranded run, and it changes no row.
  lemma AnsweredLeaves(o: Oracle, s: System, run: Id, a: Answer)
    requires run in s.executions && Answers(s.executions[run].at, a) && Leaves(s, AnsweredTurn(o, s, run, a), {run})
    ensures Leaves(s, AnsweredTurn(o, s, run, a), {})
  {
    hide JobExecution.Body, Conclude;
    var t := AnsweredTurn(o, s, run, a);
    if Stranded(s, run) { assert t.rows == s.rows && t.executions[run].at == Over; }
    forall r ensures StaysStranded(s, t, r) { }
  }

  lemma EditKeeps(cal: Calendar, h: History, s: System, t: Transaction)
    requires t.Create? || t.Update? || t.Delete?
    ensures var u := s.(rows := After(cal, s.rows, t)); Keeps(h, s, u) && Leaves(s, u, {})
  {
    var u := s.(rows := After(cal, s.rows, t));
    assert forall r :: r in u.rows.runs ==> r in s.rows.runs && u.rows.runs[r] == s.rows.runs[r];
    if Explained(h, s) {
      forall r | r in u.rows.runs ensures EndExplained(h, u.executions, r, u.rows.runs[r].status) {
        assert EndExplained(h, s.executions, r, s.rows.runs[r].status);
      }
    }
    forall r ensures StaysStranded(s, u, r) {
      if Stranded(s, r) { assert HasActive(s.rows, s.rows.runs[r].job); }
    }
  }

  // Executions are told to stop, for a reason that is on record.
  lemma StopRequestKeeps(h: History, s: System, t: System)
    requires t.rows == s.rows && t.sched.deferred == s.sched.deferred && t.executions.Keys == s.executions.Keys
    requires forall r :: r in s.executions ==> MayStop(h, s.executions[r], t.executions[r])
    ensures Keeps(h, s, t) && Leaves(s, t, {})
  {
    if Explained(h, s) {
      forall r | r in t.executions ensures StopExplained(h, t.executions[r]) {
        assert MayStop(h, s.executions[r], t.executions[r]) && StopExplained(h, s.executions[r]);
      }
      forall r | r in t.rows.runs ensures EndExplained(h, t.executions, r, t.rows.runs[r].status) {
        assert EndExplained(h, s.executions, r, s.rows.runs[r].status);
        assert r in s.executions ==> MayStop(h, s.executions[r], t.executions[r]);
      }
    }
    forall r | StoppedInTime(s, r) ensures StoppedInTime(t, r) {
      assert MayStop(h, s.executions[r], t.executions[r]);
    }
  }

  // Only the stop changes, and the copy of the row.
  predicate MayStop(h: History, x: Execution, y: Execution) {
    && y.run == x.run && y.heard == x.heard && y.at == x.at
    && (y.stop == x.stop || (y.stop == ShutdownStop && h.shutdown) || (y.stop == AbortStop && x.stop == NoStop && x.run in h.aborts))
  }

  lemma AbortKeeps(cal: Calendar, h: History, s: System, run: Id)
    requires Inv(cal, s) && run in h.aborts
    ensures Keeps(h, s, AbortRequested(s, run)) && Leaves(s, AbortRequested(s, run), {})
  {
    hide Keeps, Leaves;
    StopRequestKeeps(h, s, AbortRequested(s, run));
  }

  lemma ShutdownKeeps(o: Oracle, h: History, s: System)
    requires h.shutdown
    ensures Keeps(h, s, Shutdown(o, s))
  {
    hide Keeps, Leaves, InterruptAll;
    var t := Shutdown(o, s);
    SameRunsKeep(h, s, s);
    if !s.shutdownStarted {
      var u := t.(rows := s.rows);
      assert forall r :: r in s.executions ==> MayStop(h, s.executions[r], t.executions[r]);
      StopRequestKeeps(h, s, u);
      if InterruptionCommits(o, s) {
        InterruptionKeeps(h, u, t, o.clock(s.calls));
        KeepsTwice(h, s, u, t);
      }
    }
  }

  /** A step that interrupts every active run. */
  predicate Interrupting(s: System, l: Step) { l.BeginShutdown? || (l.Starting? && !s.sched.initialized) }

  lemma StepKeeps(cal: Calendar, o: Oracle, h: History, s: System, l: Step)
    requires Inv(cal, s) && Possible(s, l) && Noted(h, l) == h
    ensures Keeps(h, s, Next(cal, o, s, l)) && (!Interrupting(s, l) ==> Leaves(s, Next(cal, o, s, l), {}))
  {
    hide Keeps, Leaves, Inv;
    match l
    case Edit(t) => EditKeeps(cal, h, s, t);
    case StartScheduler => SameRunsKeep(h, s, StartRequested(s));
    case Starting(g, jobs) => StartTurnKeeps(cal, o, h, s, g, jobs);
    case Wake(g, jobs) => WakeTurnKeeps(cal, o, h, s, g, jobs);
    case Refresh =>
      ArmedSame(o, s);
      SameRunsKeep(h, s, s);
      SameRunsKeep(h, s, Armed(o, s).system);
    case RunNow(job, run) => RunNowKeeps(cal, o, h, s, job, run);
    case RunNowAccepted(job, run) => RunNowKeeps(cal, o, h, s, job, run);
    case DispatchDeferred => DeferredKeeps(cal, o, h, s);
    case Answered(run, a) => AnswerKeeps(cal, o, h, s, run, a);
    case RequestAbort(run) => AbortNoted(cal, h, s, run);
    case StopScheduler => SameRunsKeep(h, s, s.(sched := StopSched(s.sched)));
    case BeginShutdown => ShutdownKeeps(o, h, s);
  }

  lemma AbortNoted(cal: Calendar, h: History, s: System, run: Id)
    requires Inv(cal, s) && Noted(h, RequestAbort(run)) == h
    ensures Keeps(h, s, AbortRequested(s, run)) && Leaves(s, AbortRequested(s, run), {})
  {
    assert run in Noted(h, RequestAbort(run)).aborts;
    AbortKeeps(cal, h, s, run);
  }

  // -------------------------------------------------------------------------- whole runs

  lemma MoreIsKnown(h: History, l: Step, s: System)
    requires Explained(h, s)
    ensures Explained(Noted(h, l), s) && Noted(Noted(h, l), l) == Noted(h, l)
  {
    var more := Noted(h, l);
    forall r | r in s.executions ensures StopExplained(more, s.executions[r]) { assert StopExplained(h, s.executions[r]); }
    forall r | r in s.rows.runs ensures EndExplained(more, s.executions, r, s.rows.runs[r].status) {
      assert EndExplained(h, s.executions, r, s.rows.runs[r].status);
    }
  }

  lemma {:induction false} RunIsExplained(cal: Calendar, o: Oracle, states: seq<System>, steps: seq<Step>, i: nat)
    requires IsRun(cal, o, states, steps) && i <= |steps|
    ensures Explained(Past(steps[..i]), states[i])
  {
    hide Explained, Inv;
    if i == 0 {
      FreshIsExplained();
    } else {
      var before, l := Past(steps[..i - 1]), steps[i - 1];
      RunIsExplained(cal, o, states, steps, i - 1);
      RunKeepsInv(cal, o, states, steps, i - 1);
      MoreIsKnown(before, l, states[i - 1]);
      StepKeeps(cal, o, Noted(before, l), states[i - 1], l);
      assert steps[..i][..i - 1] == steps[..i - 1];
    }
  }

  lemma FreshIsExplained()
    ensures Explained(Past([]), FRESH)
  {
  }

  /** Why a run ended as it did. At every moment of every run: an interrupted row had a
      shutdown, a recovery at a start, or a hook that was interrupted before it; an
      aborted one a request to abort it, a hook or a prompt that was aborted, or a refusal
      of capacity because of the shutdown. */
  lemma EndingsHaveCauses(cal: Calendar, o: Oracle, states: seq<System>, steps: seq<Step>, i: nat, r: Id)
    requires IsRun(cal, o, states, steps) && i <= |steps| && r in states[i].rows.runs
    ensures var s, past := states[i], steps[..i];
      && (s.rows.runs[r].status == Interrupted ==>
            BeginShutdown in past || AnyStart(past) || (r in s.executions && HeardStop(s.executions[r].heard, ShutdownStop)))
      && (s.rows.runs[r].status == Aborted ==>
            && r in s.executions
            && (RequestAbort(r) in past || HeardStop(s.executions[r].heard, AbortStop) ||
                CapacityRefused(Some(ShuttingDown)) in s.executions[r].heard))
  {
    hide HeardStop, AnyStart;
    RunIsExplained(cal, o, states, steps, i);
    PastExactly(steps[..i]);
    assert EndExplained(Past(steps[..i]), states[i].executions, r, states[i].rows.runs[r].status);
  }

  lemma {:induction false} StopsStay(cal: Calendar, o: Oracle, states: seq<System>, steps: seq<Step>, i: nat, n: nat, r: Id)
    requires IsRun(cal, o, states, steps) && i + n <= |steps| && StoppedInTime(states[i], r)
    ensures StoppedInTime(states[i + n], r)
    decreases n
  {
    hide StoppedInTime, Inv;
    if n > 0 {
      var h := Noted(Past([]), steps[i]);
      RunKeepsInv(cal, o, states, steps, i);
      StepKeeps(cal, o, h, states[i], steps[i]);
      StopsStay(cal, o, states, steps, i + 1, n - 1, r);
    }
  }

  // The step tells this run to stop, while it has an execution that is not over.
  predicate Stops(s: System, l: Step, r: Id) {
    && r in s.executions && s.executions[r].at != Over
    && (l == RequestAbort(r) || (l == BeginShutdown && !s.shutdownStarted))
  }

  /** A run that was told to stop before it had succeeded never succeeds, over every
      continuation; so a run that has succeeded had not been told to stop before. */
  lemma StoppedNeverSucceeds(cal: Calendar, o: Oracle, states: seq<System>, steps: seq<Step>, i: nat, j: nat, r: Id)
    requires IsRun(cal, o, states, steps) && i < j <= |steps| && Stops(states[i], steps[i], r)
    requires r in states[i].rows.runs ==> states[i].rows.runs[r].status != Succeeded
    ensures r in states[j].rows.runs ==> states[j].rows.runs[r].status != Succeeded
  {
    hide StoppedInTime, Inv;
    RunKeepsInv(cal, o, states, steps, i);
    StoppedAtOnce(cal, o, states[i], steps[i], r);
    assert StoppedInTime(states[i + 1], r);
    StopsStay(cal, o, states, steps, i + 1, j - i - 1, r);
    InTimeMeans(states[j], r);
  }

  lemma InTimeMeans(s: System, r: Id)
    requires StoppedInTime(s, r)
    ensures r in s.rows.runs ==> s.rows.runs[r].status != Succeeded
  {
  }

  lemma StoppedAtOnce(cal: Calendar, o: Oracle, s: System, l: Step, r: Id)
    requires Inv(cal, s) && Stops(s, l, r) && Possible(s, l) && (r in s.rows.runs ==> s.rows.runs[r].status != Succeeded)
    ensures StoppedInTime(Next(cal, o, s, l), r)
  {
    hide Sound;
    if l == BeginShutdown { ShutdownStops(o, s, r); }
  }

  lemma ShutdownStops(o: Oracle, s: System, r: Id)
    requires !s.shutdownStarted && !s.closed && r in s.executions && s.executions[r].at != Over
    requires r in s.rows.runs ==> s.rows.runs[r].status != Succeeded
    ensures StoppedInTime(Shutdown(o, s), r)
  {
    assert AllStopped(s.executions)[r].stop == ShutdownStop;
    assert Shutdown(o, s).executions[r].stop == ShutdownStop;
  }

  // -------------------------------------------------------------------- stranded claims

  /** A run that is stranded stays so, with its row unchanged, whatever happens, until a
      shutdown or a first start interrupts it. */
  lemma {:induction false} StrandedStays(cal: Calendar, o: Oracle, states: seq<System>, steps: seq<Step>, i: nat, n: nat, r: Id)
    requires IsRun(cal, o, states, steps) && i + n <= |steps| && Stranded(states[i], r)
    requires forall k :: i <= k < i + n ==> !Interrupting(states[k], steps[k])
    ensures Stranded(states[i + n], r) && states[i + n].rows.runs[r] == states[i].rows.runs[r]
    decreases n
  {
    hide Stranded, Inv;
    if n > 0 {
      var h := Noted(Past([]), steps[i]);
      RunKeepsInv(cal, o, states, steps, i);
      StepKeeps(cal, o, h, states[i], steps[i]);
      assert StaysStranded(states[i], states[i + 1], r);
      StrandedStays(cal, o, states, steps, i + 1, n - 1, r);
    }
  }

  /** An occurrence claimed by a sweep, scheduled or to catch up, runs or is stranded. */
  lemma SweptClaimRunsExactlyWhen(cal: Calendar, o: Oracle, listed: Rows, s: System, job: Id, run: Id, trigger: Trigger, now: int)
    requires Due(listed, job, now) && !o.fails(s.calls) && run !in s.executions && !Deferring(s, run) && FlagsAgree(s)
    requires var claim := ClaimScheduled(cal, s.rows, job, run, trigger, now);
      claim.Ok? && run in claim.value.runs && claim.value.runs[run].status == Queued
    ensures var t := SweepOne(cal, o, listed, s, job, run, trigger, now).system;
      && run in t.rows.runs && (t.rows.runs[run].status == Running <==> !s.closed && !Unfinished(s, job) && Works(o, s.calls + 1))
      && (Stranded(t, run) <==> t.rows.runs[run].status != Running)
  {
    hide Dispatch;
    var rows := ClaimScheduled(cal, s.rows, job, run, trigger, now).value;
    var u := s.(rows := rows, calls := s.calls + 1);
    assert Unfinished(u, job) == Unfinished(s, job) && Deferring(u, run) == Deferring(s, run);
    DispatchRunsExactlyWhen(o, u, ClaimOf(rows, job, run));
  }

  /** So does a manual claim whose dispatch was deferred to a later turn. */
  lemma DeferredClaimRunsExactlyWhen(o: Oracle, s: System)
    requires s.sched.deferred != [] && Awaiting(s, s.sched.deferred[0]) && FlagsAgree(s)
    requires forall k :: 1 <= k < |s.sched.deferred| ==> s.sched.deferred[k].run != s.sched.deferred[0].run
    ensures var c, t := s.sched.deferred[0], DeferredTurn(o, s);
      && c.run in t.rows.runs && (t.rows.runs[c.run].status == Running <==> CanRun(o, s, c))
      && (Stranded(t, c.run) <==> !CanRun(o, s, c))
  {
    hide Dispatch;
    var u := s.(sched := s.sched.(deferred := s.sched.deferred[1..]));
    assert Unfinished(u, s.sched.deferred[0].job) == Unfinished(s, s.sched.deferred[0].job);
    DispatchRunsExactlyWhen(o, u, s.sched.deferred[0]);
  }

  /** While a run is stranded, its job never runs: manual claims are refused, and occurrences skipped. */
  lemma StrandedBlocksItsJob(cal: Calendar, s: System, r: Id, run: Id, trigger: Trigger, now: int)
    requires Stranded(s, r)
    ensures var job := s.rows.runs[r].job;
      && ClaimManual(s.rows, job, run, now).Err?
      && (var claim := ClaimScheduled(cal, s.rows, job, run, trigger, now);
          claim.Ok? ==> run in claim.value.runs && claim.value.runs[run].status == Skipped)
  {
    assert HasActive(s.rows, s.rows.runs[r].job);
  }

  /** A run in which the start of a claim cannot be recorded: the runner is open and has no
      other execution, but the run is stranded, with its execution over. */
  lemma FailedStartIsStranded(cal: Calendar) returns (o: Oracle, states: seq<System>, steps: seq<Step>)
    ensures IsRun(cal, o, states, steps)
    ensures var s := states[|steps|]; !s.closed && Stranded(s, "r") && "r" in s.executions && s.executions["r"].at == Over
  {
    hide Begun;
    o := Oracle(SecondFails, AlwaysZero);
    states, steps := JobCreated(cal, o);
    var s := states[|steps|];
    assert !HasActive(s.rows, "j");
    var rows := s.rows.(runs := map["r" := QueuedRun("j", Manual, 0, 0)]);
    assert ClaimManual(s.rows, "j", "r", 0) == Ok(rows);
    BeginningExactly(o, rows, Launched("j", "r", false, false), 1);
    Continued(cal, o, states, steps, RunNow("j", "r"));
    states, steps := states + [RunNowTurn(o, s, "j", "r")], steps + [RunNow("j", "r")];
  }
}
