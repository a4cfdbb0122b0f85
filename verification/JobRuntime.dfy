/** The scheduled-job runtime as one transition system: the rows, the scheduler with its
    timer and deferred dispatches, the runner with its suspended executions, and the
    coordinator's shutdown. Each step is one stretch of the program between awaits. */
module JobRuntime {
  import opened Text
  import opened JobSchedule
  import opened JobRows
  import opened JobExecution

  datatype Claim = Claim(job: Id, run: Id, hasPre: bool, hasPost: bool)

  /** `starting` holds the generations whose start is still to be carried out; a timer is
      known by the generation that armed it. */
  datatype Scheduler = Scheduler(
    running: bool, closed: bool, initialized: bool, generation: nat, timer: Option<nat>,
    starting: set<nat>, deferred: seq<Claim>)
  {
    predicate Accepting() { running && !closed }
  }

  /** `calls` counts the repository calls of runner, scheduler and coordinator. Finished
      executions stay in the table, so that identifiers are never reused. */
  datatype System = System(
    rows: Rows, executions: map<Id, Execution>, calls: nat, sealed: bool, closed: bool, sched: Scheduler,
    shutdownStarted: bool)

  const IDLE := Scheduler(false, false, false, 0, None, {}, [])
  const FRESH := System(NO_ROWS, map[], 0, false, false, IDLE, false)

  // ------------------------------------------------------------------------- dispatch

  predicate Unfinished(s: System, job: Id) { exists r :: r in s.executions && s.executions[r].job == job && s.executions[r].at != Over }

  predicate Dispatchable(s: System, c: Claim) { !s.closed && !Unfinished(s, c.job) && c.run !in s.executions }

  // `run` of the runner, on a claim that is queued.
  function Dispatch(o: Oracle, s: System, c: Claim): System {
    if !Dispatchable(s, c) then s
    else
      var w := Begun(o, s.rows, Launched(c.job, c.run, c.hasPre, c.hasPost), s.calls, s.sealed);
      s.(rows := w.rows, executions := s.executions[c.run := w.x], calls := w.calls)
  }

  function ClaimOf(rows: Rows, job: Id, run: Id): Claim
    requires job in rows.jobs
  {
    Claim(job, run, rows.jobs[job].definition.pre.Some?, rows.jobs[job].definition.post.Some?)
  }

  // ------------------------------------------------------------------------ scheduler

  // Every job is listed once, with the identifier its run would get.
  predicate Lists(rows: Rows, jobs: seq<(Id, Id)>) {
    && (forall j :: j in rows.jobs ==> exists k :: 0 <= k < |jobs| && jobs[k].0 == j)
    && (forall k, m :: 0 <= k < m < |jobs| ==> jobs[k].0 != jobs[m].0)
  }

  predicate Due(rows: Rows, job: Id, now: int) {
    job in rows.jobs && rows.jobs[job].enabled && rows.jobs[job].nextRunAt.Some? && rows.jobs[job].nextRunAt.value <= now
  }

  /** What a piece of a turn leaves, and whether the turn goes on after it. */
  datatype Piece = Piece(system: System, goesOn: bool)

  function DispatchIfQueued(o: Oracle, s: System, job: Id, run: Id): System
    requires job in s.rows.jobs && run in s.rows.runs
  {
    if s.rows.runs[run].status.Queued? then Dispatch(o, s, ClaimOf(s.rows, job, run)) else s
  }

  // What follows a claim. Only the sweep at startup gives up on an unexpected error.
  function AfterClaim(o: Oracle, s: System, job: Id, run: Id, trigger: Trigger, claim: Result<Rows>): Piece
    requires claim.Ok? ==> job in claim.value.jobs && run in claim.value.runs
  {
    match claim
    case Err(refusal) => Piece(s, trigger != CatchUp || refusal == Invalid || refusal == NotDue)
    case Ok(rows) => Piece(DispatchIfQueued(o, s.(rows := rows), job, run), true)
  }

  /** One job of a sweep: what was not due when the jobs were listed is passed over. */
  function SweepOne(cal: Calendar, o: Oracle, listed: Rows, s: System, job: Id, run: Id, trigger: Trigger, now: int): Piece {
    var counted := s.(calls := s.calls + 1);
    if !Due(listed, job, now) then Piece(s, true)
    else if o.fails(s.calls) then Piece(counted, trigger != CatchUp)
    else AfterClaim(o, counted, job, run, trigger, ClaimScheduled(cal, s.rows, job, run, trigger, now))
  }

  function Sweep(cal: Calendar, o: Oracle, listed: Rows, s: System, jobs: seq<(Id, Id)>, trigger: Trigger, now: int): Piece
    decreases |jobs|
  {
    if jobs == [] then Piece(s, true)
    else
      var first := SweepOne(cal, o, listed, s, jobs[0].0, jobs[0].1, trigger, now);
      if first.goesOn then Sweep(cal, o, listed, first.system, jobs[1..], trigger, now) else first
  }

  predicate AnyEnabled(rows: Rows) { exists j :: j in rows.jobs && rows.jobs[j].enabled }

  // `#arm`: cancel, list, and set the timer for the nearest occurrence.
  function Armed(o: Oracle, s: System): Piece {
    var t := s.(sched := s.sched.(timer := None), calls := s.calls + 1);
    if o.fails(s.calls) then Piece(t, false)
    else if !AnyEnabled(s.rows) then Piece(t, true)
    else if !SafeTimestamp(o.clock(s.calls)) then Piece(t, false)
    else Piece(t.(sched := t.sched.(timer := Some(t.sched.generation))), true)
  }

  // `#claimDue`: list what is due, and claim it.
  function ClaimDue(cal: Calendar, o: Oracle, s: System, jobs: seq<(Id, Id)>): Piece {
    var now := o.clock(s.calls);
    if !SafeTimestamp(now) then Piece(s, false)
    else if o.fails(s.calls) then Piece(s.(calls := s.calls + 1), false)
    else Sweep(cal, o, s.rows, s.(calls := s.calls + 1), jobs, Scheduled, now)
  }

  // The first start: recover, and catch up.
  function Recover(cal: Calendar, o: Oracle, s: System, jobs: seq<(Id, Id)>): Piece {
    var now := o.clock(s.calls);
    if !SafeTimestamp(now) then Piece(s, false)
    else if o.fails(s.calls) then Piece(s.(calls := s.calls + 1), false)
    else
      var t := s.(rows := InterruptAll(s.rows, now).value, calls := s.calls + 2);
      if o.fails(s.calls + 1) then Piece(t, false)
      else
        var swept := Sweep(cal, o, t.rows, t, jobs, CatchUp, now);
        if swept.goesOn then swept.(system := swept.system.(sched := swept.system.sched.(initialized := true))) else swept
  }

  // `start` only marks the scheduler as running; the rest of it is a turn of its own.
  function StartRequested(s: System): System {
    if s.sched.closed || s.sched.running then s
    else s.(sched := s.sched.(running := true, generation := s.sched.generation + 1, starting := s.sched.starting + {s.sched.generation + 1}))
  }

  function StopSched(c: Scheduler): Scheduler {
    if c.running then c.(running := false, generation := c.generation + 1, timer := None) else c
  }

  function StartTurn(cal: Calendar, o: Oracle, s: System, g: nat, jobs: seq<(Id, Id)>): System {
    var t := s.(sched := s.sched.(starting := s.sched.starting - {g}));
    if !t.sched.Accepting() || g != t.sched.generation then t
    else
      var claimed := if t.sched.initialized then ClaimDue(cal, o, t, jobs) else Recover(cal, o, t, jobs);
      ArmedOrStopped(o, claimed)
  }

  function ArmedOrStopped(o: Oracle, claimed: Piece): System {
    var armed := if claimed.goesOn then Armed(o, claimed.system) else claimed;
    if armed.goesOn then armed.system else armed.system.(sched := armed.system.sched.(running := false, timer := None))
  }

  function WakeTurn(cal: Calendar, o: Oracle, s: System, g: nat, jobs: seq<(Id, Id)>): System {
    if !s.sched.Accepting() || g != s.sched.generation then s
    else Armed(o, ClaimDue(cal, o, s.(sched := s.sched.(timer := None)), jobs).system).system
  }

  // A manual claim, if the scheduler accepts any, and whether there is something to run.
  function ManualClaim(o: Oracle, s: System, job: Id, run: Id): (r: Piece)
    ensures r.goesOn ==> job in r.system.rows.jobs
  {
    var now := o.clock(s.calls);
    var counted := s.(calls := s.calls + 1);
    if !s.sched.Accepting() || !SafeTimestamp(now) then Piece(s, false)
    else if o.fails(s.calls) then Piece(counted, false)
    else
      match ClaimManual(s.rows, job, run, now)
      case Err(_) => Piece(counted, false)
      case Ok(rows) => Piece(counted.(rows := rows), true)
  }

  function Deferred(s: System, c: Claim): System { s.(sched := s.sched.(deferred := s.sched.deferred + [c])) }

  function RunNowTurn(o: Oracle, s: System, job: Id, run: Id): System {
    var t := ManualClaim(o, s, job, run);
    if t.goesOn then Dispatch(o, t.system, ClaimOf(t.system.rows, job, run)) else t.system
  }

  function RunNowAcceptedTurn(o: Oracle, s: System, job: Id, run: Id): System {
    var t := ManualClaim(o, s, job, run);
    if t.goesOn then Deferred(t.system, ClaimOf(t.system.rows, job, run)) else t.system
  }

  function DeferredTurn(o: Oracle, s: System): System
    requires s.sched.deferred != []
  {
    Dispatch(o, s.(sched := s.sched.(deferred := s.sched.deferred[1..])), s.sched.deferred[0])
  }

  // A suspended execution hears the answer it waits for.
  function AnsweredTurn(o: Oracle, s: System, run: Id, a: Answer): System
    requires run in s.executions && Answers(s.executions[run].at, a)
  {
    var w := Resumed(o, s.rows, s.executions[run], s.calls, s.sealed, a);
    s.(rows := w.rows, executions := s.executions[run := w.x], calls := w.calls)
  }

  // ----------------------------------------------------------------------------- stops

  // `#requestStop`: a shutdown overrides an abort, and nothing overrides a shutdown.
  function Stopped(x: Execution, why: Stop): Execution {
    if x.at == Over || x.stop == ShutdownStop || x.stop == why then x else x.(stop := why)
  }

  function AllStopped(executions: map<Id, Execution>): map<Id, Execution> {
    map r | r in executions :: Stopped(executions[r], ShutdownStop)
  }

  // `sealPersistence`: the executions take over their interrupted rows.
  function AllAdopted(executions: map<Id, Execution>, before: Rows, after: Rows): map<Id, Execution> {
    map r | r in executions ::
      if executions[r].at != Over && r in before.runs && before.runs[r].status.Active() && r in after.runs
      then Adopted(executions[r], after.runs[r]) else executions[r]
  }

  function AbortRequested(s: System, run: Id): System {
    if run in s.executions then s.(executions := s.executions[run := Stopped(s.executions[run], AbortStop)]) else s
  }

  // Whether the interruption transaction of a shutdown would commit.
  predicate InterruptionCommits(o: Oracle, s: System) { !o.fails(s.calls) && SafeTimestamp(o.clock(s.calls)) }

  function Shutdown(o: Oracle, s: System): System {
    if s.shutdownStarted then s
    else
      var stopped := if s.closed then s.executions else AllStopped(s.executions);
      var sched := StopSched(s.sched).(closed := true);
      if !InterruptionCommits(o, s) then System(s.rows, stopped, s.calls + 1, true, true, sched, true)
      else
        var rows := InterruptAll(s.rows, o.clock(s.calls)).value;
        System(rows, AllAdopted(stopped, s.rows, rows), s.calls + 1, true, true, sched, true)
  }

  // ----------------------------------------------------------------------------- steps

  datatype Step =
    | Edit(t: Transaction)
    | StartScheduler
    | Starting(generation: nat, jobs: seq<(Id, Id)>)
    | Wake(generation: nat, jobs: seq<(Id, Id)>)
    | Refresh
    | RunNow(job: Id, run: Id)
    | RunNowAccepted(job: Id, run: Id)
    | DispatchDeferred
    | Answered(run: Id, a: Answer)
    | RequestAbort(run: Id)
    | StopScheduler
    | BeginShutdown

  // What may happen: definitions are edited from outside, and only what was deferred,
  // started or awaited can come back.
  predicate Possible(s: System, l: Step) {
    match l
    case Edit(t) => t.Create? || t.Update? || t.Delete?
    case Starting(g, jobs) => g in s.sched.starting && Lists(s.rows, jobs)
    case Wake(_, jobs) => Lists(s.rows, jobs)
    case DispatchDeferred => s.sched.deferred != []
    case Answered(run, a) => run in s.executions && Answers(s.executions[run].at, a)
    case _ => true
  }

  function Next(cal: Calendar, o: Oracle, s: System, l: Step): System
    requires Possible(s, l)
  {
    match l
    case Edit(t) => s.(rows := After(cal, s.rows, t))
    case StartScheduler => StartRequested(s)
    case Starting(g, jobs) => StartTurn(cal, o, s, g, jobs)
    case Wake(g, jobs) => WakeTurn(cal, o, s, g, jobs)
    case Refresh => if s.sched.Accepting() then Armed(o, s).system else s
    case RunNow(job, run) => RunNowTurn(o, s, job, run)
    case RunNowAccepted(job, run) => RunNowAcceptedTurn(o, s, job, run)
    case DispatchDeferred => DeferredTurn(o, s)
    case Answered(run, a) => AnsweredTurn(o, s, run, a)
    case RequestAbort(run) => AbortRequested(s, run)
    case StopScheduler => s.(sched := StopSched(s.sched))
    case BeginShutdown => Shutdown(o, s)
  }

  // ------------------------------------------------------------------------ invariants

  predicate ExecutionsSound(executions: map<Id, Execution>) {
    forall r :: r in executions ==> executions[r].run == r && ExecutionInv(executions[r])
  }

  predicate BothUnfinished(x: Execution, y: Execution) { x.at != Over && y.at != Over && x.job == y.job }

  // A job has at most one unfinished execution.
  predicate OneExecution(executions: map<Id, Execution>) {
    forall a, b :: a in executions && b in executions && BothUnfinished(executions[a], executions[b]) ==> a == b
  }

  /** A row says succeeded only if its execution went through every stage. */
  predicate SuccessEarned(runs: map<Id, Run>, executions: map<Id, Execution>) {
    forall r :: r in runs && runs[r].status == Succeeded ==> r in executions && Passed(executions[r])
  }

  predicate FlagsAgree(s: System) {
    && (s.shutdownStarted <==> s.sealed) && (s.sealed <==> s.closed) && (s.sealed <==> s.sched.closed)
    && (s.sched.closed ==> !s.sched.running)
  }

  ghost predicate Inv(cal: Calendar, s: System) {
    && Sound(cal, s.rows) && ExecutionsSound(s.executions) && OneExecution(s.executions)
    && SuccessEarned(s.rows.runs, s.executions) && FlagsAgree(s)
  }

  // A stretch of one execution, put back into the system.
  function WithStretch(s: System, w: World): System {
    s.(rows := w.rows, executions := s.executions[w.x.run := w.x], calls := w.calls)
  }

  // Only this run may have become a success, and only by passing.
  lemma SuccessStaysEarned(cal: Calendar, w: World, v: World, executions: map<Id, Execution>)
    requires Judged(cal, w, v) && SuccessEarned(w.rows.runs, executions)
    requires w.x.run in w.rows.runs && w.rows.runs[w.x.run].status == Succeeded ==> Passed(w.x)
    ensures SuccessEarned(v.rows.runs, executions[v.x.run := v.x])
  {
    var after := executions[v.x.run := v.x];
    forall r | r in v.rows.runs && v.rows.runs[r].status == Succeeded ensures r in after && Passed(after[r]) {
      if r == w.x.run {
        if !Terminal(w) { assert Succeeded in Verdicts(v.x); SuccessMeansPassed(v.x); }
      } else {
        assert w.rows.runs[r].status == Succeeded;
      }
    }
  }

  lemma SuccessMeansPassed(x: Execution)
    requires Succeeded in Verdicts(x)
    ensures Passed(x) && x.stop == NoStop
  {
  }

  // An execution begins, or goes on: its entry in the table is the only one that changes.
  lemma StretchKeepsInv(cal: Calendar, s: System, w: World, v: World)
    requires Inv(cal, s) && Judged(cal, w, v) && ExecutionInv(v.x) && w.rows == s.rows
    requires w.x.run in w.rows.runs && w.rows.runs[w.x.run].status == Succeeded ==> Passed(w.x)
    requires w.x.run in s.executions ==> s.executions[w.x.run].job == w.x.job && s.executions[w.x.run].at != Over
    requires w.x.run !in s.executions ==> !Unfinished(s, w.x.job)
    ensures Inv(cal, WithStretch(s, v))
  {
    hide Sound;
    SuccessStaysEarned(cal, w, v, s.executions);
    OneExecutionAfter(s, v.x);
  }

  lemma OneExecutionAfter(s: System, x: Execution)
    requires OneExecution(s.executions)
    requires x.run in s.executions ==> s.executions[x.run].job == x.job && s.executions[x.run].at != Over
    requires x.run !in s.executions ==> !Unfinished(s, x.job)
    ensures OneExecution(s.executions[x.run := x])
  {
  }

  // The scheduler's part is not looked at, except for its flags.
  predicate SameButScheduling(s: System, t: System) {
    && t.sealed == s.sealed && t.closed == s.closed && t.shutdownStarted == s.shutdownStarted && t.sched.closed == s.sched.closed
    && (t.sched.running ==> s.sched.running)
  }

  lemma DispatchKeepsInv(cal: Calendar, o: Oracle, s: System, c: Claim)
    requires Inv(cal, s)
    ensures var t := Dispatch(o, s, c); Inv(cal, t) && SameButScheduling(s, t) && t.sched == s.sched
  {
    if Dispatchable(s, c) {
      var w := World(s.rows, Launched(c.job, c.run, c.hasPre, c.hasPost), s.calls);
      BeginningFacts(cal, o, s.rows, c.job, c.run, c.hasPre, c.hasPost, s.calls, s.sealed);
      StretchKeepsInv(cal, s, w, Begun(o, s.rows, w.x, s.calls, s.sealed));
    }
  }

  lemma ClaimKeepsInv(cal: Calendar, s: System, t: Transaction, calls: nat)
    requires Inv(cal, s) && (t.Manually? || t.OnTime?)
    ensures Inv(cal, s.(rows := After(cal, s.rows, t), calls := calls))
  {
    hide Sound;
    TransactionKeepsSound(cal, s.rows, t);
  }

  lemma SweepOneKeepsInv(cal: Calendar, o: Oracle, listed: Rows, s: System, job: Id, run: Id, trigger: Trigger, now: int, t: Piece)
    requires Inv(cal, s) && t == SweepOne(cal, o, listed, s, job, run, trigger, now)
    ensures Inv(cal, t.system) && SameButScheduling(s, t.system) && t.system.sched == s.sched
  {
    var counted := s.(calls := s.calls + 1);
    if !Due(listed, job, now) {
      assert t.system == s;
    } else if o.fails(s.calls) {
      SchedulingKeepsInv(cal, s, s.sched, s.calls + 1);
      assert t.system == counted;
    } else {
      SweptKeepsInv(cal, o, listed, s, job, run, trigger, now, t);
    }
  }

  lemma SweptKeepsInv(cal: Calendar, o: Oracle, listed: Rows, s: System, job: Id, run: Id, trigger: Trigger, now: int, t: Piece)
    requires Inv(cal, s) && t == SweepOne(cal, o, listed, s, job, run, trigger, now)
    requires Due(listed, job, now) && !o.fails(s.calls)
    ensures Inv(cal, t.system) && SameButScheduling(s, t.system) && t.system.sched == s.sched
  {
    var claim := ClaimScheduled(cal, s.rows, job, run, trigger, now);
    var counted := s.(calls := s.calls + 1);
    SchedulingKeepsInv(cal, s, s.sched, s.calls + 1);
    OnTimeKeepsInv(cal, s, job, run, trigger, now, s.calls + 1);
    AfterClaimKeepsInv(cal, o, counted, job, run, trigger, claim, t);
  }

  lemma OnTimeKeepsInv(cal: Calendar, s: System, job: Id, run: Id, trigger: Trigger, now: int, calls: nat)
    requires Inv(cal, s)
    ensures var claim := ClaimScheduled(cal, s.rows, job, run, trigger, now);
      claim.Ok? ==> job in claim.value.jobs && run in claim.value.runs && Inv(cal, s.(rows := claim.value, calls := calls))
  {
    ClaimKeepsInv(cal, s, OnTime(job, run, trigger, now), calls);
  }

  lemma AfterClaimKeepsInv(cal: Calendar, o: Oracle, s: System, job: Id, run: Id, trigger: Trigger, claim: Result<Rows>, t: Piece)
    requires Inv(cal, s)
    requires claim.Ok? ==> job in claim.value.jobs && run in claim.value.runs && Inv(cal, s.(rows := claim.value))
    requires t == AfterClaim(o, s, job, run, trigger, claim)
    ensures Inv(cal, t.system) && SameButScheduling(s, t.system) && t.system.sched == s.sched
  {
    if claim.Ok? { DispatchIfQueuedKeepsInv(cal, o, s.(rows := claim.value), job, run); }
  }

  lemma DispatchIfQueuedKeepsInv(cal: Calendar, o: Oracle, s: System, job: Id, run: Id)
    requires Inv(cal, s) && job in s.rows.jobs && run in s.rows.runs
    ensures var t := DispatchIfQueued(o, s, job, run); Inv(cal, t) && SameButScheduling(s, t) && t.sched == s.sched
  {
    DispatchKeepsInv(cal, o, s, ClaimOf(s.rows, job, run));
  }

  lemma {:induction false} SweepKeepsInv(cal: Calendar, o: Oracle, listed: Rows, s: System, jobs: seq<(Id, Id)>, trigger: Trigger, now: int)
    requires Inv(cal, s)
    ensures var t := Sweep(cal, o, listed, s, jobs, trigger, now).system;
      Inv(cal, t) && SameButScheduling(s, t) && t.sched == s.sched
    decreases |jobs|
  {
    if jobs != [] {
      var first := SweepOne(cal, o, listed, s, jobs[0].0, jobs[0].1, trigger, now);
      SweepOneKeepsInv(cal, o, listed, s, jobs[0].0, jobs[0].1, trigger, now, first);
      if first.goesOn { SweepKeepsInv(cal, o, listed, first.system, jobs[1..], trigger, now); }
    }
  }

  lemma SchedulingKeepsInv(cal: Calendar, s: System, sched: Scheduler, calls: nat)
    requires Inv(cal, s) && sched.closed == s.sched.closed && (sched.running ==> s.sched.running)
    ensures var t := s.(sched := sched, calls := calls); Inv(cal, t) && SameButScheduling(s, t)
  {
  }

  lemma ArmedKeepsInv(cal: Calendar, o: Oracle, s: System)
    requires Inv(cal, s)
    ensures var t := Armed(o, s).system; Inv(cal, t) && SameButScheduling(s, t)
  {
    var t := Armed(o, s).system;
    SchedulingKeepsInv(cal, s, t.sched, t.calls);
  }

  lemma ClaimDueKeepsInv(cal: Calendar, o: Oracle, s: System, jobs: seq<(Id, Id)>)
    requires Inv(cal, s)
    ensures var t := ClaimDue(cal, o, s, jobs).system; Inv(cal, t) && SameButScheduling(s, t) && t.sched == s.sched
  {
    SchedulingKeepsInv(cal, s, s.sched, s.calls + 1);
    SweepKeepsInv(cal, o, s.rows, s.(calls := s.calls + 1), jobs, Scheduled, o.clock(s.calls));
  }

  lemma InterruptionKeepsInv(cal: Calendar, s: System, now: int, calls: nat)
    requires Inv(cal, s) && SafeTimestamp(now)
    ensures Inv(cal, s.(rows := InterruptAll(s.rows, now).value, calls := calls))
  {
    hide Sound;
    TransactionKeepsSound(cal, s.rows, Interrupt(now));
  }

  lemma RecoverKeepsInv(cal: Calendar, o: Oracle, s: System, jobs: seq<(Id, Id)>)
    requires Inv(cal, s)
    ensures var t := Recover(cal, o, s, jobs).system; Inv(cal, t) && SameButScheduling(s, t)
  {
    var now := o.clock(s.calls);
    SchedulingKeepsInv(cal, s, s.sched, s.calls + 1);
    if SafeTimestamp(now) {
      var t := s.(rows := InterruptAll(s.rows, now).value, calls := s.calls + 2);
      InterruptionKeepsInv(cal, s, now, s.calls + 2);
      SweepKeepsInv(cal, o, t.rows, t, jobs, CatchUp, now);
      var u := Sweep(cal, o, t.rows, t, jobs, CatchUp, now).system;
      SchedulingKeepsInv(cal, u, u.sched.(initialized := true), u.calls);
    }
  }

  lemma StartTurnKeepsInv(cal: Calendar, o: Oracle, s: System, g: nat, jobs: seq<(Id, Id)>)
    requires Inv(cal, s)
    ensures var t := StartTurn(cal, o, s, g, jobs); Inv(cal, t)
  {
    var t := s.(sched := s.sched.(starting := s.sched.starting - {g}));
    SchedulingKeepsInv(cal, s, t.sched, s.calls);
    if t.sched.Accepting() && g == t.sched.generation {
      ClaimDueKeepsInv(cal, o, t, jobs);
      RecoverKeepsInv(cal, o, t, jobs);
      var claimed := if t.sched.initialized then ClaimDue(cal, o, t, jobs) else Recover(cal, o, t, jobs);
      ArmedKeepsInv(cal, o, claimed.system);
      var armed := if claimed.goesOn then Armed(o, claimed.system) else claimed;
      SchedulingKeepsInv(cal, armed.system, armed.system.sched.(running := false, timer := None), armed.system.calls);
    }
  }

  lemma WakeTurnKeepsInv(cal: Calendar, o: Oracle, s: System, g: nat, jobs: seq<(Id, Id)>)
    requires Inv(cal, s)
    ensures Inv(cal, WakeTurn(cal, o, s, g, jobs))
  {
    var t := s.(sched := s.sched.(timer := None));
    SchedulingKeepsInv(cal, s, t.sched, s.calls);
    ClaimDueKeepsInv(cal, o, t, jobs);
    ArmedKeepsInv(cal, o, ClaimDue(cal, o, t, jobs).system);
  }

  lemma ManualClaimKeepsInv(cal: Calendar, o: Oracle, s: System, job: Id, run: Id)
    requires Inv(cal, s)
    ensures var t := ManualClaim(o, s, job, run).system; Inv(cal, t)
  {
    ClaimKeepsInv(cal, s, Manually(job, run, o.clock(s.calls)), s.calls + 1);
    SchedulingKeepsInv(cal, s, s.sched, s.calls + 1);
  }

  // A success is not undone by a late answer: its execution is not waiting for one.
  lemma HearingKeepsSuccess(s: System, run: Id, a: Answer)
    requires SuccessEarned(s.rows.runs, s.executions) && ExecutionsSound(s.executions) && run in s.executions
    requires Answers(s.executions[run].at, a)
    ensures run in s.rows.runs && s.rows.runs[run].status == Succeeded ==> Passed(Hearing(s.executions[run], a))
  {
    var x := s.executions[run];
    if run in s.rows.runs && s.rows.runs[run].status == Succeeded {
      assert Passed(x);
      assert !Suspended(x);
    }
  }

  lemma AnswerKeepsInv(cal: Calendar, o: Oracle, s: System, run: Id, a: Answer)
    requires Inv(cal, s) && run in s.executions && Answers(s.executions[run].at, a)
    ensures Inv(cal, AnsweredTurn(o, s, run, a))
  {
    var x := s.executions[run];
    var w := World(s.rows, Hearing(x, a), s.calls);
    var v := Resumed(o, s.rows, x, s.calls, s.sealed, a);
    StretchFacts(cal, o, s.rows, x, s.calls, s.sealed, a);
    assert v.x.run == run;
    assert AnsweredTurn(o, s, run, a) == WithStretch(s, v);
    HearingKeepsSuccess(s, run, a);
    assert w.x.run == run && w.x.job == x.job && x.at != Over;
    StretchKeepsInv(cal, s, w, v);
  }

  lemma EditKeepsInv(cal: Calendar, s: System, t: Transaction)
    requires Inv(cal, s) && (t.Create? || t.Update? || t.Delete?)
    ensures Inv(cal, s.(rows := After(cal, s.rows, t)))
  {
    hide Sound, CanonicalForm, Rescheduled;
    TransactionKeepsSound(cal, s.rows, t);
    assert forall r :: r in After(cal, s.rows, t).runs ==> r in s.rows.runs && After(cal, s.rows, t).runs[r] == s.rows.runs[r];
  }

  predicate TableSound(runs: map<Id, Run>, executions: map<Id, Execution>) {
    ExecutionsSound(executions) && OneExecution(executions) && SuccessEarned(runs, executions)
  }

  // Executions may differ in their copy of the row and in the stop that they know of.
  predicate Alike(x: Execution, y: Execution) { y == x.(stop := y.stop, revision := y.revision, phase := y.phase) }

  lemma AlikeTableSound(runs: map<Id, Run>, before: map<Id, Execution>, after: map<Id, Execution>)
    requires TableSound(runs, before) && before.Keys == after.Keys && forall r :: r in before ==> Alike(before[r], after[r])
    ensures TableSound(runs, after)
  {
    forall r | r in after ensures after[r].run == r && ExecutionInv(after[r]) {
      assert Alike(before[r], after[r]);
      assert ExecutionInv(before[r]);
    }
    forall a, b | a in after && b in after && BothUnfinished(after[a], after[b]) ensures a == b {
      assert Alike(before[a], after[a]) && Alike(before[b], after[b]);
      assert BothUnfinished(before[a], before[b]);
    }
    forall r | r in runs && runs[r].status == Succeeded ensures r in after && Passed(after[r]) {
      assert Alike(before[r], after[r]) && Passed(before[r]);
    }
  }

  lemma ShutdownKeepsInv(cal: Calendar, o: Oracle, s: System)
    requires Inv(cal, s)
    ensures Inv(cal, Shutdown(o, s))
  {
    if !s.shutdownStarted {
      AlikeTableSound(s.rows.runs, s.executions, AllStopped(s.executions));
      if InterruptionCommits(o, s) { CommitKeepsInv(cal, s, AllStopped(s.executions), o.clock(s.calls)); }
    }
  }

  lemma CommitKeepsInv(cal: Calendar, s: System, stopped: map<Id, Execution>, now: int)
    requires Inv(cal, s) && SafeTimestamp(now) && TableSound(s.rows.runs, stopped)
    ensures var rows := InterruptAll(s.rows, now).value; Sound(cal, rows) && TableSound(rows.runs, AllAdopted(stopped, s.rows, rows))
  {
    var rows := InterruptAll(s.rows, now).value;
    InterruptionKeepsInv(cal, s, now, s.calls);
    AlikeTableSound(s.rows.runs, stopped, AllAdopted(stopped, s.rows, rows));
    AdoptionEarns(s.rows.runs, rows.runs, AllAdopted(stopped, s.rows, rows));
  }

  lemma AdoptionEarns(before: map<Id, Run>, after: map<Id, Run>, executions: map<Id, Execution>)
    requires SuccessEarned(before, executions)
    requires forall r :: r in after ==> r in before && (after[r].status == Succeeded ==> before[r].status == Succeeded)
    ensures SuccessEarned(after, executions)
  {
  }

  lemma RunNowKeepsInv(cal: Calendar, o: Oracle, s: System, job: Id, run: Id)
    requires Inv(cal, s)
    ensures Inv(cal, RunNowTurn(o, s, job, run)) && Inv(cal, RunNowAcceptedTurn(o, s, job, run))
  {
    ManualClaimKeepsInv(cal, o, s, job, run);
    var t := ManualClaim(o, s, job, run);
    if t.goesOn {
      var c := ClaimOf(t.system.rows, job, run);
      DispatchKeepsInv(cal, o, t.system, c);
      SchedulingKeepsInv(cal, t.system, Deferred(t.system, c).sched, t.system.calls);
    }
  }

  lemma DeferredKeepsInv(cal: Calendar, o: Oracle, s: System)
    requires Inv(cal, s) && s.sched.deferred != []
    ensures Inv(cal, DeferredTurn(o, s))
  {
    var t := s.(sched := s.sched.(deferred := s.sched.deferred[1..]));
    SchedulingKeepsInv(cal, s, t.sched, s.calls);
    DispatchKeepsInv(cal, o, t, s.sched.deferred[0]);
  }

  lemma StartKeepsInv(cal: Calendar, s: System)
    requires Inv(cal, s)
    ensures Inv(cal, StartRequested(s))
  {
  }

  lemma AbortKeepsInv(cal: Calendar, s: System, run: Id)
    requires Inv(cal, s)
    ensures Inv(cal, AbortRequested(s, run))
  {
    AlikeTableSound(s.rows.runs, s.executions, AbortRequested(s, run).executions);
  }

  lemma StepKeepsInv(cal: Calendar, o: Oracle, s: System, l: Step)
    requires Inv(cal, s) && Possible(s, l)
    ensures Inv(cal, Next(cal, o, s, l))
  {
    match l
    case Edit(t) => EditKeepsInv(cal, s, t);
    case StartScheduler => StartKeepsInv(cal, s);
    case Starting(g, jobs) => StartTurnKeepsInv(cal, o, s, g, jobs);
    case Wake(g, jobs) => WakeTurnKeepsInv(cal, o, s, g, jobs);
    case Refresh => ArmedKeepsInv(cal, o, s);
    case RunNow(job, run) => RunNowKeepsInv(cal, o, s, job, run);
    case RunNowAccepted(job, run) => RunNowKeepsInv(cal, o, s, job, run);
    case DispatchDeferred => DeferredKeepsInv(cal, o, s);
    case Answered(run, a) => AnswerKeepsInv(cal, o, s, run, a);
    case RequestAbort(run) => AbortKeepsInv(cal, s, run);
    case StopScheduler => SchedulingKeepsInv(cal, s, StopSched(s.sched), s.calls);
    case BeginShutdown => ShutdownKeepsInv(cal, o, s);
  }

  // -------------------------------------------------------------------------- whole runs

  ghost predicate IsRun(cal: Calendar, o: Oracle, states: seq<System>, steps: seq<Step>) {
    && |states| == |steps| + 1 && states[0] == FRESH
    && forall i :: 0 <= i < |steps| ==> Possible(states[i], steps[i]) && states[i + 1] == Next(cal, o, states[i], steps[i])
  }

  lemma {:induction false} RunKeepsInv(cal: Calendar, o: Oracle, states: seq<System>, steps: seq<Step>, i: nat)
    requires IsRun(cal, o, states, steps) && i <= |steps|
    ensures Inv(cal, states[i])
  {
    if i > 0 {
      RunKeepsInv(cal, o, states, steps, i - 1);
      StepKeepsInv(cal, o, states[i - 1], steps[i - 1]);
    }
  }

  /** At every moment of every run: the rows are sound; no job has two unfinished
      executions; an execution that is over has settled its lease once, if it ever got
      one, and released its conversation once, if it ever had one; and a row says
      succeeded only if each configured hook and the prompt succeeded, in order. */
  lemma RuntimeSafety(cal: Calendar, o: Oracle, states: seq<System>, steps: seq<Step>, i: nat)
    requires IsRun(cal, o, states, steps) && i <= |steps|
    ensures var s := states[i];
      && Sound(cal, s.rows) && OneExecution(s.executions)
      && (forall r :: r in s.executions && s.executions[r].at == Over ==>
            var x := s.executions[r];
            x.settlements == (if x.lease == NoLease then 0 else 1) && x.lease != Held &&
            x.releases == (if x.conversation.Some? then 1 else 0))
      && (forall r :: r in s.rows.runs && s.rows.runs[r].status == Succeeded ==>
            r in s.executions && Passed(s.executions[r]))
  {
    RunKeepsInv(cal, o, states, steps, i);
  }

  /** The status a stretch records is the one its stop demands: interrupted after a
      shutdown, aborted after an abort, and succeeded only with no stop and every stage
      passed. A run that has ended is not touched. */
  lemma StopsAreObeyed(cal: Calendar, o: Oracle, s: System, run: Id, a: Answer)
    requires Inv(cal, s) && run in s.executions && Answers(s.executions[run].at, a) && run in s.rows.runs
    ensures var x, v := s.executions[run], Resumed(o, s.rows, s.executions[run], s.calls, s.sealed, a);
      && run in v.rows.runs
      && (!s.rows.runs[run].status.Active() ==> v.rows == s.rows)
      && (s.rows.runs[run].status.Active() && !v.rows.runs[run].status.Active() ==>
            var status := v.rows.runs[run].status;
            && (x.stop == ShutdownStop ==> status == Interrupted)
            && (x.stop == AbortStop ==> status == Aborted)
            && (status == Succeeded ==> x.stop == NoStop && Passed(v.x)))
  {
    var x := s.executions[run];
    StretchFacts(cal, o, s.rows, x, s.calls, s.sealed, a);
    JudgedVerdict(cal, World(s.rows, Hearing(x, a), s.calls), Resumed(o, s.rows, x, s.calls, s.sealed, a));
  }

  lemma JudgedVerdict(cal: Calendar, w: World, v: World)
    requires Judged(cal, w, v) && w.x.run in w.rows.runs
    ensures w.x.run in v.rows.runs && (!w.rows.runs[w.x.run].status.Active() ==> v.rows == w.rows)
    ensures w.rows.runs[w.x.run].status.Active() && !v.rows.runs[w.x.run].status.Active() ==>
      var status, stop := v.rows.runs[w.x.run].status, w.x.stop;
      && (stop == ShutdownStop ==> status == Interrupted)
      && (stop == AbortStop ==> status == Aborted)
      && (status == Succeeded ==> stop == NoStop && Passed(v.x))
  {
    if Terminal(v) && StatusIn(v).value == Succeeded && !Terminal(w) { SuccessMeansPassed(v.x); }
  }

  // ------------------------------------------------------------------------- shutdown

  predicate NoneActive(rows: Rows) { forall r :: r in rows.runs ==> !rows.runs[r].status.Active() }

  predicate ShutDown(s: System) { s.shutdownStarted && s.sealed && s.closed && s.sched.closed && !s.sched.running }

  // After the shutdown a step changes no run, except that definitions can still be
  // deleted together with their finished runs, and makes no repository call.
  lemma ShutDownStepIsSilent(cal: Calendar, o: Oracle, s: System, l: Step)
    requires ShutDown(s) && Possible(s, l)
    ensures var t := Next(cal, o, s, l);
      && ShutDown(t) && t.calls == s.calls && (l.Edit? || t.rows == s.rows)
      && t.rows.runs.Keys <= s.rows.runs.Keys
      && (forall r :: r in t.rows.runs ==> t.rows.runs[r] == s.rows.runs[r])
      && (forall r :: r in s.rows.runs && s.rows.runs[r].status.Active() ==> r in t.rows.runs)
  {
    match l
    case Answered(run, a) => SealedStretchIsSilent(o, s.rows, s.executions[run], s.calls, a);
    case _ =>
  }

  lemma {:induction false} ShutDownStaysSilent(cal: Calendar, o: Oracle, states: seq<System>, steps: seq<Step>, i: nat, n: nat)
    requires IsRun(cal, o, states, steps) && i + n <= |steps| && ShutDown(states[i])
    ensures var s, t := states[i], states[i + n];
      && ShutDown(t) && t.calls == s.calls && (NoneActive(t.rows) <==> NoneActive(s.rows))
    decreases n
  {
    if n > 0 {
      ShutDownStepIsSilent(cal, o, states[i], steps[i]);
      ShutDownStaysSilent(cal, o, states, steps, i + 1, n - 1);
    }
  }

  /** Once a shutdown whose interruption commits has begun, no run row is ever again
      queued or running, and no suspended execution, timer wake, start or deferred
      dispatch makes another repository call -- over every continuation. */
  lemma ShutdownIsFinal(cal: Calendar, o: Oracle, states: seq<System>, steps: seq<Step>, i: nat, j: nat)
    requires IsRun(cal, o, states, steps) && i < j <= |steps|
    requires steps[i] == BeginShutdown && !states[i].shutdownStarted && InterruptionCommits(o, states[i])
    ensures NoneActive(states[j].rows) && states[j].calls == states[i + 1].calls
  {
    RunKeepsInv(cal, o, states, steps, i + 1);
    ShutDownStaysSilent(cal, o, states, steps, i + 1, j - i - 1);
  }

  /** The guarantee is lost exactly when the interruption of the first call fails while a
      run is active: the shutdown counts as started all the same, so that a repeated call
      returns normally without trying again. */
  lemma ShutdownGuaranteeExactlyWhen(cal: Calendar, o: Oracle, states: seq<System>, steps: seq<Step>, i: nat, j: nat)
    requires IsRun(cal, o, states, steps) && i < j <= |steps|
    requires steps[i] == BeginShutdown && !states[i].shutdownStarted
    ensures NoneActive(states[j].rows) <==> InterruptionCommits(o, states[i]) || NoneActive(states[i].rows)
    ensures states[j].calls == states[i + 1].calls
  {
    hide Sound;
    RunKeepsInv(cal, o, states, steps, i + 1);
    ShutDownStaysSilent(cal, o, states, steps, i + 1, j - i - 1);
  }

  // --------------------------------------------------------------------- lost dispatches

  /** A manual claim runs at once exactly when the runner is open, no execution of its job is
      unfinished, and its start can be recorded; otherwise its row stays queued. */
  lemma ClaimRunsExactlyWhen(o: Oracle, s: System, job: Id, run: Id)
    requires ManualClaim(o, s, job, run).goesOn && run !in s.executions && FlagsAgree(s)
    ensures var t, u := ManualClaim(o, s, job, run).system, RunNowTurn(o, s, job, run);
      && run in u.rows.runs
      && (u.rows.runs[run].status == Running <==> !s.closed && !Unfinished(s, job) && Works(o, s.calls + 1))
      && (u.rows.runs[run].status != Running ==> u.rows == t.rows && u.rows.runs[run].status == Queued)
  {
    hide Begun;
    var t := ManualClaim(o, s, job, run).system;
    var c := ClaimOf(t.rows, job, run);
    assert Unfinished(t, job) == Unfinished(s, job);
    BeginningExactly(o, t.rows, Launched(c.job, c.run, c.hasPre, c.hasPost), t.calls);
  }

  /** The table says that a job is free as soon as its run has ended, but the runner only
      when the conversation of that run has been released as well. A manual claim in
      between is accepted, is not run, and stays queued; and the next occurrence of the
      job is then skipped because of it. */
  lemma ClaimDuringReleaseIsStranded(cal: Calendar, o: Oracle, s: System, job: Id, run: Id, next: Id, now: int)
    requires ManualClaim(o, s, job, run).goesOn && run !in s.executions
    requires exists r :: r in s.executions && s.executions[r].job == job && s.executions[r].at == AtRelease
    ensures var t := RunNowTurn(o, s, job, run);
      && run in t.rows.runs && t.rows.runs[run].status == Queued && run !in t.executions
      && (var claim := ClaimScheduled(cal, t.rows, job, next, Scheduled, now);
          claim.Ok? ==> next in claim.value.runs && claim.value.runs[next].status == Skipped)
  {
    assert Unfinished(s, job);
  }

  // ----------------------------------------------------------------- two concrete runs

  const PLAIN_DEFINITION := Definition("job", "workspace", "prompt", None, None)

  function NeverFails(n: nat): bool { false }
  function SecondFails(n: nat): bool { n == 1 }
  function AlwaysZero(n: nat): int { 0 }

  const CREATE: Step := Edit(Create("j", PLAIN_DEFINITION, Some(Checked("", "")), EveryMinutes(1), true, false, 0))

  // A job exists, nothing runs yet, and the scheduler accepts.
  ghost predicate Ready(s: System) {
    && "j" in s.rows.jobs && s.rows.jobs["j"].enabled && s.rows.jobs["j"].definition == PLAIN_DEFINITION && s.rows.runs == map[]
    && s.executions == map[] && s.calls == 0 && s.sched.Accepting() && s.sched.deferred == [] && !s.sealed && !s.closed && !s.shutdownStarted
  }

  lemma PlainDefinitionIsFine()
    ensures CanonicalForm(PLAIN_DEFINITION, Some(Checked("", ""))) == Some(PLAIN_DEFINITION)
  {
    var d := PLAIN_DEFINITION;
    TrimIdentity(d.name);
    assert !IsSpace(d.prompt[0]);
  }

  lemma JobCreated(cal: Calendar, o: Oracle) returns (states: seq<System>, steps: seq<Step>)
    ensures IsRun(cal, o, states, steps) && Ready(states[|steps|])
  {
    var schedule := Interval(1, 0);
    assert FirstOccurrenceAfter(cal, schedule, 0) == Some(60000) by {
      assert 0 / 60000 == 0;
    }
    PlainDefinitionIsFine();
    var s1 := Next(cal, o, FRESH, CREATE);
    var s2 := StartRequested(s1);
    states, steps := [FRESH, s1, s2], [CREATE, StartScheduler];
  }

  lemma Continued(cal: Calendar, o: Oracle, states: seq<System>, steps: seq<Step>, l: Step)
    requires IsRun(cal, o, states, steps) && Possible(states[|steps|], l)
    ensures IsRun(cal, o, states + [Next(cal, o, states[|steps|], l)], steps + [l])
  {
  }

  /** A run in which the interruption of a shutdown fails, so that the first call throws,
      and a second call, which returns normally, leaves the run active. */
  lemma RepeatedShutdownHidesFailure(cal: Calendar) returns (o: Oracle, states: seq<System>, steps: seq<Step>, n: nat)
    ensures IsRun(cal, o, states, steps) && |steps| == n + 2 && steps[n] == steps[n + 1] == BeginShutdown
    ensures !states[n].shutdownStarted && !InterruptionCommits(o, states[n])
    ensures states[n + 1].shutdownStarted && !NoneActive(states[n + 2].rows)
  {
    o := Oracle(SecondFails, AlwaysZero);
    states, steps := JobCreated(cal, o);
    var s := states[|steps|];
    Continued(cal, o, states, steps, RunNowAccepted("j", "r"));
    var t := Next(cal, o, s, RunNowAccepted("j", "r"));
    assert t.calls == 1 && "r" in t.rows.runs && t.rows.runs["r"].status == Queued && !t.shutdownStarted;
    states, steps := states + [t], steps + [RunNowAccepted("j", "r")];
    n := |steps|;
    Continued(cal, o, states, steps, BeginShutdown);
    var u := Shutdown(o, t);
    assert u.rows == t.rows;
    states, steps := states + [u], steps + [BeginShutdown];
    Continued(cal, o, states, steps, BeginShutdown);
    states, steps := states + [Shutdown(o, u)], steps + [BeginShutdown];
  }

  // The run "r" of the job is at this await, in step with its row; nothing else is going on.
  ghost predicate Underway(cal: Calendar, o: Oracle, s: System, at: Point) {
    && Inv(cal, s) && "j" in s.rows.jobs && s.rows.jobs["j"].enabled && s.sched.Accepting() && s.sched.deferred == [] && !s.sealed && !s.closed
    && s.rows.runs.Keys == {"r"} && s.executions.Keys == {"r"}
    && (var x := s.executions["r"];
        x.job == "j" && x.at == at && !x.hasPre && !x.hasPost && x.stop == NoStop && Synced(World(s.rows, x, s.calls)))
  }

  lemma RunStarted(cal: Calendar, o: Oracle, s: System)
    requires Faultless(o) && Inv(cal, s) && Ready(s)
    ensures Underway(cal, o, RunNowTurn(o, s, "j", "r"), AtPolicy)
  {
    hide Sound, Begun;
    RunNowKeepsInv(cal, o, s, "j", "r");
    var now := o.clock(0);
    assert Works(o, 0) && Works(o, 1);
    assert !HasActive(s.rows, "j");
    assert ClaimManual(s.rows, "j", "r", now) == Ok(s.rows.(runs := map["r" := QueuedRun("j", Manual, now, now)]));
    BeginningExactly(o, ClaimManual(s.rows, "j", "r", now).value, Launched("j", "r", false, false), 1);
  }

  // The stages of a run without hooks.
  function PlainNext(at: Point): Point {
    match at
    case AtPolicy => AtCapacity
    case AtCapacity => AtConversation
    case AtConversation => AtTitle
    case _ => AtPrompt
  }

  lemma StageHeard(cal: Calendar, o: Oracle, s: System, at: Point, a: Answer)
    requires Faultless(o) && Underway(cal, o, s, at) && Answers(at, a) && Good(false, false, at, a)
    requires at.AtPolicy? || at.AtCapacity? || at.AtConversation? || at.AtTitle?
    ensures Underway(cal, o, AnsweredTurn(o, s, "r", a), PlainNext(at))
  {
    hide Inv, JobExecution.Resumed, Synced, Local;
    UnderwayIsSound(cal, o, s, at);
    var x := s.executions["r"];
    AnswerKeepsInv(cal, o, s, "r", a);
    GoodStretchGoesOn(cal, o, s.rows, x, s.calls, a);
    OwnRowOnly(cal, o, s, a);
    var v := Resumed(o, s.rows, x, s.calls, false, a);
    var t := AnsweredTurn(o, s, "r", a);
    assert t.executions["r"] == v.x && World(t.rows, v.x, t.calls) == v && NextPoint(x) == PlainNext(at);
  }

  lemma UnderwayIsSound(cal: Calendar, o: Oracle, s: System, at: Point)
    requires Underway(cal, o, s, at)
    ensures ExecutionInv(s.executions["r"])
  {
  }

  lemma OwnRowOnly(cal: Calendar, o: Oracle, s: System, a: Answer)
    requires "r" in s.executions && ExecutionInv(s.executions["r"]) && Answers(s.executions["r"].at, a)
    ensures var v := Resumed(o, s.rows, s.executions["r"], s.calls, s.sealed, a);
      v.rows.jobs == s.rows.jobs && v.rows.runs.Keys == s.rows.runs.Keys && SameRun(Hearing(s.executions["r"], a), v.x)
  {
    StretchFacts(cal, o, s.rows, s.executions["r"], s.calls, s.sealed, a);
  }

  // The prompt fails, and the conversation is still to be released.
  lemma PromptFailedStretch(o: Oracle, rows: Rows, x: Execution, calls: nat)
    requires Faultless(o) && Matches(World(rows, x, calls)) && x.at == AtPrompt && x.stop == NoStop && x.conversation.Some?
    ensures var v := Resumed(o, rows, x, calls, false, Answer.PromptFailed); v.x.at == AtRelease && StatusIn(v) == Some(Status.Failed)
  {
    hide JobExecution.Change;
    var w := World(rows, x.(heard := x.heard + [Answer.PromptFailed]), calls);
    ChangeWorks(o, w, Finish(Status.Failed, Some(Prompt), Some(Code.PromptFailed)));
  }

  lemma PromptFailedTurn(cal: Calendar, o: Oracle, s: System)
    requires Faultless(o) && Underway(cal, o, s, AtPrompt)
    ensures var t := AnsweredTurn(o, s, "r", Answer.PromptFailed);
      && t.executions.Keys == {"r"} && t.executions["r"].job == "j" && t.executions["r"].at == AtRelease
      && t.rows.jobs == s.rows.jobs && t.rows.runs.Keys == {"r"} && !t.rows.runs["r"].status.Active()
      && t.sched == s.sched && t.closed == s.closed
  {
    hide Sound, JobExecution.Resumed;
    PromptFailedStretch(o, s.rows, s.executions["r"], s.calls);
    OwnRowOnly(cal, o, s, Answer.PromptFailed);
  }

  lemma OneMoreStage(cal: Calendar, o: Oracle, states: seq<System>, steps: seq<Step>, at: Point, a: Answer)
    returns (longer: seq<System>, more: seq<Step>)
    requires Faultless(o) && IsRun(cal, o, states, steps) && Underway(cal, o, states[|steps|], at)
    requires Answers(at, a) && Good(false, false, at, a) && (at.AtPolicy? || at.AtCapacity? || at.AtConversation? || at.AtTitle?)
    ensures IsRun(cal, o, longer, more) && Underway(cal, o, longer[|more|], PlainNext(at))
  {
    hide Underway, AnsweredTurn;
    var s := states[|steps|];
    UnderwayFacts(cal, o, s, at);
    StageHeard(cal, o, s, at, a);
    Continued(cal, o, states, steps, Answered("r", a));
    longer, more := states + [AnsweredTurn(o, s, "r", a)], steps + [Answered("r", a)];
  }

  lemma PromptReached(cal: Calendar, o: Oracle) returns (states: seq<System>, steps: seq<Step>)
    requires Faultless(o)
    ensures IsRun(cal, o, states, steps) && Underway(cal, o, states[|steps|], AtPrompt)
  {
    hide Underway, Inv, RunNowTurn, Next;
    states, steps := RunIsStarted(cal, o);
    states, steps := OneMoreStage(cal, o, states, steps, AtPolicy, PolicyUsable(Admitted, Admitted));
    states, steps := OneMoreStage(cal, o, states, steps, AtCapacity, CapacityGranted(Admitted));
    states, steps := OneMoreStage(cal, o, states, steps, AtConversation, ConversationCreated("c", true));
    states, steps := OneMoreStage(cal, o, states, steps, AtTitle, TitleSet);
  }

  lemma RunIsStarted(cal: Calendar, o: Oracle) returns (states: seq<System>, steps: seq<Step>)
    requires Faultless(o)
    ensures IsRun(cal, o, states, steps) && Underway(cal, o, states[|steps|], AtPolicy)
  {
    hide Underway, Inv, RunNowTurn;
    states, steps := JobCreated(cal, o);
    RunKeepsInv(cal, o, states, steps, |steps|);
    RunStarted(cal, o, states[|steps|]);
    Continued(cal, o, states, steps, RunNow("j", "r"));
    states, steps := states + [RunNowTurn(o, states[|steps|], "j", "r")], steps + [RunNow("j", "r")];
  }

  lemma ClaimedDuringRelease(o: Oracle, s: System)
    requires Faultless(o) && s.executions.Keys == {"r"} && s.executions["r"].job == "j" && s.executions["r"].at == AtRelease
    requires "j" in s.rows.jobs && s.rows.jobs["j"].enabled && s.rows.runs.Keys == {"r"} && !s.rows.runs["r"].status.Active()
    requires s.sched.Accepting() && s.sched.deferred == []
    ensures var t := RunNowTurn(o, s, "j", "q");
      "q" in t.rows.runs && t.rows.runs["q"].status == Queued && "q" !in t.executions && t.sched == s.sched && t.closed == s.closed
  {
    assert !HasActive(s.rows, "j");
    assert Unfinished(s, "j");
    var now := o.clock(s.calls);
    assert Works(o, s.calls);
    assert ClaimManual(s.rows, "j", "q", now) == Ok(s.rows.(runs := s.rows.runs["q" := QueuedRun("j", Manual, now, now)]));
  }

  lemma UnderwayFacts(cal: Calendar, o: Oracle, s: System, at: Point)
    requires Underway(cal, o, s, at)
    ensures "r" in s.executions && s.executions["r"].at == at && "j" in s.rows.jobs && s.rows.jobs["j"].enabled
    ensures s.sched.Accepting() && s.sched.deferred == [] && !s.closed
  {
  }

  /** A run in which a manual claim is accepted while the conversation of the last run is
      being released: the runner is open, but the new row stays queued without any
      execution, and nothing is left that would dispatch it. */
  lemma StrandedRun(cal: Calendar) returns (o: Oracle, states: seq<System>, steps: seq<Step>)
    ensures IsRun(cal, o, states, steps)
    ensures var s := states[|steps|];
      !s.closed && "q" in s.rows.runs && s.rows.runs["q"].status == Queued && "q" !in s.executions && s.sched.deferred == []
  {
    hide Underway, AnsweredTurn, RunNowTurn;
    o := Oracle(NeverFails, AlwaysZero);
    states, steps := PromptReached(cal, o);
    var s := states[|steps|];
    UnderwayFacts(cal, o, s, AtPrompt);
    PromptFailedTurn(cal, o, s);
    Continued(cal, o, states, steps, Answered("r", Answer.PromptFailed));
    var t := AnsweredTurn(o, s, "r", Answer.PromptFailed);
    states, steps := states + [t], steps + [Answered("r", Answer.PromptFailed)];
    ClaimedDuringRelease(o, t);
    Continued(cal, o, states, steps, RunNow("j", "q"));
    states, steps := states + [RunNowTurn(o, t, "j", "q")], steps + [RunNow("j", "q")];
  }
}
