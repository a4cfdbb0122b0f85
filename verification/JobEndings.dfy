/** An execution that has come to its end has recorded it: its row is no longer queued or
    running, unless a repository call failed or persistence was sealed. */
module JobEndings {
  import opened Text
  import opened JobSchedule
  import opened JobRows
  import opened JobExecution
  import opened JobRuntime

  // All repository calls up to this number went through.
  ghost predicate NoFault(o: Oracle, calls: nat) { forall k: nat :: k < calls ==> Works(o, k) }

  // ---------------------------------------------------------------- one stretch

  // It suspends in step with its row, returns with its end recorded, or throws with its end
  // recorded or still to be recorded by the handler.
  predicate Attended(s: Stretch) {
    match s
    case Suspend(v, at) => Synced(v.(x := v.x.(at := at))) && Suspended(v.x.(at := at))
    case Return(v) => Terminal(v)
    case Throw(v, _) => Matches(v) || Terminal(v)
  }

  lemma ChangeCounts(o: Oracle, w: World, c: JobRows.Change)
    ensures JobExecution.Change(o, w, c).world.calls == w.calls + 1
  {
  }

  lemma RecordCounts(o: Oracle, w: World, status: Status, error: Option<Code>, phase: Option<Phase>)
    ensures Record(o, w, false, status, error, phase).world.calls > w.calls
  {
  }

  // With its row in step, an execution can record its end.
  lemma RecordEnds(o: Oracle, w: World, status: Status, error: Option<Code>, phase: Option<Phase>)
    requires Matches(w) && !status.Active() && (status.Succeeded? <==> error.None?)
    requires NoFault(o, Record(o, w, false, status, error, phase).world.calls)
    ensures var r := Record(o, w, false, status, error, phase); r.Went? && Terminal(r.world)
  {
    RecordCounts(o, w, status, error, phase);
    assert Works(o, w.calls);
    ChangeWorks(o, w, Finish(status, phase, error));
  }

  lemma StopEnds(o: Oracle, w: World, phase: Option<Phase>)
    requires Matches(w) && NoFault(o, RecordStopped(o, w, false, phase).world.calls)
    ensures var r := RecordStopped(o, w, false, phase); r.Went? && Terminal(r.world)
  {
    hide Record;
    if w.x.stop.ShutdownStop? { RecordEnds(o, w, Interrupted, Some(JobInterrupted), phase); }
    else { RecordEnds(o, w, Aborted, Some(JobAborted), phase); }
  }

  lemma PolicyAttended(o: Oracle, w: World, a: Answer)
    requires Synced(w) && Answers(AtPolicy, a) && w.x.at == AtPolicy
    requires NoFault(o, AfterPolicy(o, w, false, a).world.calls)
    ensures Attended(AfterPolicy(o, w, false, a))
  {
    hide Record, RecordStopped;
    if w.x.stop != NoStop { StopEnds(o, w, w.x.phase); }
    else if a.PolicyRefused? { RecordEnds(o, w, Blocked, Some(Or(a.code, WorkspaceUnavailable)), None); }
    else if w.x.hasPre && a.pre.Denied? { RecordEnds(o, w, Blocked, Some(Or(a.pre.code, ScriptUnavailable)), Some(PreHook)); }
    else if w.x.hasPost && a.post.Denied? { RecordEnds(o, w, Blocked, Some(Or(a.post.code, ScriptUnavailable)), Some(PostHook)); }
  }

  lemma ToPromptAttended(o: Oracle, w: World)
    requires Matches(w) && (w.x.conversation.None? ==> ConversationIn(w).None?)
    requires NoFault(o, ToPrompt(o, w, false).world.calls)
    ensures Attended(ToPrompt(o, w, false))
  {
    hide Record, RecordStopped;
    var r := JobExecution.Change(o, w, SetPhase(Prompt));
    ChangeCounts(o, w, SetPhase(Prompt));
    StoppedCounts(o, r.world, Some(Prompt));
    assert Works(o, w.calls);
    ChangeWorks(o, w, SetPhase(Prompt));
    if r.world.x.stop != NoStop { StopEnds(o, r.world, Some(Prompt)); }
  }

  lemma StoppedCounts(o: Oracle, w: World, phase: Option<Phase>)
    ensures RecordStopped(o, w, false, phase).world.calls > w.calls
  {
    hide Record;
    RecordCounts(o, w, Interrupted, Some(JobInterrupted), phase);
    RecordCounts(o, w, Aborted, Some(JobAborted), phase);
  }

  // The phase changes, and then the script check may refuse.
  lemma DeniedAttended(o: Oracle, w: World, phase: Phase, admission: Admission)
    requires Matches(w)
    ensures var r := JobExecution.Change(o, w, SetPhase(phase));
      && r.world.calls == w.calls + 1
      && (Works(o, w.calls) ==> r.Went? && Matches(r.world) && r.world.x.phase == Some(phase) && OnlyCopied(w.x, r.world.x) &&
                                ConversationIn(r.world) == ConversationIn(w))
      && (admission.Denied? ==>
            var e := Record(o, r.world, false, Blocked, Some(Or(admission.code, ScriptUnavailable)), Some(phase));
            && e.world.calls > r.world.calls
            && (Works(o, w.calls) && NoFault(o, e.world.calls) ==> e.Went? && Terminal(e.world)))
  {
    hide Record;
    var r := JobExecution.Change(o, w, SetPhase(phase));
    if Works(o, w.calls) { ChangeWorks(o, w, SetPhase(phase)); }
    if admission.Denied? {
      RecordCounts(o, r.world, Blocked, Some(Or(admission.code, ScriptUnavailable)), Some(phase));
      var e := Record(o, r.world, false, Blocked, Some(Or(admission.code, ScriptUnavailable)), Some(phase));
      if Works(o, w.calls) && NoFault(o, e.world.calls) {
        RecordEnds(o, r.world, Blocked, Some(Or(admission.code, ScriptUnavailable)), Some(phase));
      }
    }
  }

  lemma CapacityAttended(o: Oracle, w: World, a: Answer)
    requires Synced(w) && Answers(AtCapacity, a) && w.x.at == AtCapacity
    requires NoFault(o, AfterCapacity(o, w, false, a).world.calls)
    ensures Attended(AfterCapacity(o, w, false, a))
  {
    hide Record, RecordStopped, ToPrompt, JobExecution.Change;
    if a.CapacityRefused? {
      if w.x.stop != NoStop || a.code == Some(ShuttingDown) { StopEnds(o, w, w.x.phase); }
      else {
        RecordEnds(o, w, if a.code == Some(LiveRuntimeLimit) then Skipped else Status.Failed, Some(Or(a.code, LiveRuntimeLimit)), None);
      }
    } else {
      var v := w.(x := w.x.(lease := Held));
      if v.x.stop != NoStop { StopEnds(o, v, v.x.phase); }
      else if v.x.hasPre { PreHookAttended(o, v, a.pre); }
      else { ToPromptAttended(o, v); }
    }
  }

  lemma PreHookAttended(o: Oracle, v: World, pre: Admission)
    requires Matches(v) && (v.x.conversation.None? ==> ConversationIn(v).None?)
    ensures var r := JobExecution.Change(o, v, SetPhase(PreHook));
      var s := if r.Threw? then Throw(r.world, r.code)
               else if pre.Denied? then Ending(Record(o, r.world, false, Blocked, Some(Or(pre.code, ScriptUnavailable)), Some(PreHook)))
               else Suspend(r.world, AtPreHook);
      NoFault(o, s.world.calls) ==> Attended(s)
  {
    hide Record, JobExecution.Change;
    DeniedAttended(o, v, PreHook, pre);
    WorkedBefore(o, v.calls);
  }

  lemma WorkedBefore(o: Oracle, n: nat)
    ensures forall m: nat :: m > n && NoFault(o, m) ==> Works(o, n)
  {
  }

  lemma HoldsFewer(o: Oracle, n: nat)
    ensures forall m: nat :: m >= n && NoFault(o, m) ==> NoFault(o, n)
  {
  }

  lemma HookAttended(o: Oracle, w: World, a: Answer, pre: bool)
    requires Synced(w) && Answers(AtPreHook, a) && w.x.at == (if pre then AtPreHook else AtPostHook)
    requires NoFault(o, AfterHook(o, w, false, a, pre).world.calls)
    ensures Attended(AfterHook(o, w, false, a, pre))
  {
    hide Record, RecordStopped, ToPrompt;
    if a.HookRan? {
      ChangeCounts(o, w, RecordHook(pre, a.output));
      var r := JobExecution.Change(o, w, RecordHook(pre, a.output));
      var u := r.world.(x := WithHookStop(r.world.x, a.code));
      var phase := Some(if pre then PreHook else PostHook);
      StoppedCounts(o, u, phase);
      RecordCounts(o, u, Status.Failed, Some(Or(a.code, if pre then PreRunFailed else PostRunFailed)), phase);
      RecordCounts(o, u, Succeeded, None, phase);
      PromptCounts(o, u);
      assert Works(o, w.calls);
      ChangeWorks(o, w, RecordHook(pre, a.output));
      if u.x.stop != NoStop { StopEnds(o, u, phase); }
      else if !a.succeeded { RecordEnds(o, u, Status.Failed, Some(Or(a.code, if pre then PreRunFailed else PostRunFailed)), phase); }
      else if pre { ToPromptAttended(o, u); }
      else { RecordEnds(o, u, Succeeded, None, phase); }
    }
  }

  lemma PromptCounts(o: Oracle, w: World)
    ensures ToPrompt(o, w, false).world.calls > w.calls
  {
    hide RecordStopped;
    ChangeCounts(o, w, SetPhase(Prompt));
    StoppedCounts(o, JobExecution.Change(o, w, SetPhase(Prompt)).world, Some(Prompt));
  }

  lemma ConversationAttended(o: Oracle, w: World, a: Answer)
    requires Synced(w) && Answers(AtConversation, a) && w.x.at == AtConversation && w.x.conversation.None?
    requires NoFault(o, AfterConversation(o, w, false, a).world.calls)
    ensures Attended(AfterConversation(o, w, false, a))
  {
    hide Record, RecordStopped;
    if a.ConversationRefused? {
      var v := w.(x := if a.leaseReleased then Settled(w.x, Released) else w.x);
      if v.x.stop != NoStop { StopEnds(o, v, Some(Prompt)); }
      else { RecordEnds(o, v, Status.Failed, Some(Or(a.code, Code.PromptFailed)), Some(Prompt)); }
    } else {
      var v := w.(x := Settled(w.x, Promoted).(conversation := Some(a.id)));
      ChangeCounts(o, v, Attach(a.id));
      assert Works(o, v.calls);
      ChangeWorks(o, v, Attach(a.id));
    }
  }

  lemma TitleAttended(o: Oracle, w: World, a: Answer)
    requires Synced(w) && Answers(AtTitle, a) && w.x.at == AtTitle
    requires NoFault(o, AfterTitle(o, w, false, a).world.calls)
    ensures Attended(AfterTitle(o, w, false, a))
  {
    hide Record, RecordStopped;
    if a.TitleSet? && w.x.stop != NoStop { StopEnds(o, w, Some(Prompt)); }
  }

  lemma PromptAttended(o: Oracle, w: World, a: Answer)
    requires Synced(w) && Answers(AtPrompt, a) && w.x.at == AtPrompt
    requires NoFault(o, AfterPrompt(o, w, false, a).world.calls)
    ensures Attended(AfterPrompt(o, w, false, a))
  {
    hide Record, RecordStopped, JobExecution.Change;
    if a.PromptThrew? {
    } else if w.x.stop != NoStop || a.PromptAborted? {
      StopEnds(o, w.(x := w.x.(stop := if w.x.stop == NoStop then AbortStop else w.x.stop)), Some(Prompt));
    } else if a.PromptFailed? {
      RecordEnds(o, w, Status.Failed, Some(Code.PromptFailed), Some(Prompt));
    } else if a.PromptBroke? {
      RecordEnds(o, w, Status.Failed, Some(a.error), Some(Prompt));
    } else if !w.x.hasPost {
      RecordEnds(o, w, Succeeded, None, Some(Prompt));
    } else {
      PostHookAttended(o, w, a.post);
    }
  }

  lemma PostHookAttended(o: Oracle, w: World, post: Admission)
    requires Matches(w) && (w.x.conversation.None? ==> ConversationIn(w).None?)
    ensures var r := JobExecution.Change(o, w, SetPhase(PostHook));
      var s := if r.Threw? then Throw(r.world, r.code)
               else if post.Denied? then Ending(Record(o, r.world, false, Blocked, Some(Or(post.code, ScriptUnavailable)), Some(PostHook)))
               else Suspend(r.world, AtPostHook);
      NoFault(o, s.world.calls) ==> Attended(s)
  {
    hide Record, JobExecution.Change;
    DeniedAttended(o, w, PostHook, post);
    WorkedBefore(o, w.calls);
  }

  lemma BodyAttended(o: Oracle, w: World, a: Answer, x: Execution)
    requires ExecutionInv(x) && Suspended(x) && Answers(x.at, a) && w.x == x.(heard := x.heard + [a]) && Synced(w)
    requires NoFault(o, Body(o, w, false, a).world.calls)
    ensures Attended(Body(o, w, false, a))
  {
    hide Synced;
    match x.at
    case AtPolicy => PolicyAttended(o, w, a);
    case AtCapacity => CapacityAttended(o, w, a);
    case AtPreHook => HookAttended(o, w, a, true);
    case AtConversation => ConversationAttended(o, w, a);
    case AtTitle => TitleAttended(o, w, a);
    case AtPrompt => PromptAttended(o, w, a);
    case AtPostHook => HookAttended(o, w, a, false);
  }

  // The handler records what is still to be recorded.
  lemma CaughtEnds(o: Oracle, w: World, code: Option<Code>)
    requires Matches(w) && NoFault(o, Caught(o, w, false, code).calls)
    ensures Terminal(Caught(o, w, false, code))
  {
    hide Record, RecordStopped;
    if w.x.stop != NoStop {
      StoppedCounts(o, w, w.x.phase);
      HoldsFewer(o, RecordStopped(o, w, false, w.x.phase).world.calls);
      StopEnds(o, w, w.x.phase);
    } else {
      HoldsFewer(o, Record(o, w, false, Status.Failed, Some(Or(code, Code.PromptFailed)), w.x.phase).world.calls);
      RecordEnds(o, w, Status.Failed, Some(Or(code, Code.PromptFailed)), w.x.phase);
    }
  }

  // In step with its row, or done with it.
  predicate InStep(v: World) { (Suspended(v.x) && Synced(v)) || Terminal(v) }

  lemma ConcludeInStep(cal: Calendar, o: Oracle, s: Stretch)
    requires Attended(s) && NoFault(o, Conclude(o, s, false).calls)
    ensures InStep(Conclude(o, s, false))
  {
    hide Synced, Caught;
    match s
    case Suspend(v, at) =>
    case Return(v) =>
    case Throw(v, code) =>
      CaughtFacts(cal, o, v, false, code);
      if !Terminal(v) { CaughtEnds(o, v, code); } else { TerminalStays(cal, v, Caught(o, v, false, code)); }
  }

  lemma TerminalStays(cal: Calendar, w: World, v: World)
    requires Terminal(w) && SameRun(w.x, v.x) && v.rows == w.rows
    ensures Terminal(v)
  {
  }

  lemma ConcludeCounts(cal: Calendar, o: Oracle, s: Stretch)
    ensures Conclude(o, s, false).calls >= s.world.calls
  {
    if s.Throw? { CaughtFacts(cal, o, s.world, false, s.code); }
  }

  /** A stretch of an execution in step with its row leaves it in step, or with its end
      recorded, if its repository calls go through. */
  lemma StretchInStep(cal: Calendar, o: Oracle, rows: Rows, x: Execution, calls: nat, a: Answer)
    requires ExecutionInv(x) && Suspended(x) && Answers(x.at, a) && Synced(World(rows, x, calls))
    requires NoFault(o, Resumed(o, rows, x, calls, false, a).calls)
    ensures InStep(Resumed(o, rows, x, calls, false, a))
  {
    hide JobExecution.Body, Conclude;
    var w := World(rows, x.(heard := x.heard + [a]), calls);
    ConcludeCounts(cal, o, Body(o, w, false, a));
    BodyAttended(o, w, a, x);
    ConcludeInStep(cal, o, Body(o, w, false, a));
  }

  // ---------------------------------------------------------------- all executions

  // This execution is in step with its row, if that is still queued or running.
  predicate InStepOf(rows: Rows, x: Execution) {
    x.run in rows.runs && rows.runs[x.run].status.Active() ==> Suspended(x) && Synced(World(rows, x, 0))
  }

  predicate AllInStep(rows: Rows, executions: map<Id, Execution>) { forall r :: r in executions ==> InStepOf(rows, executions[r]) }

  // A claim to be dispatched has no execution yet, and its row, if it is still there to be
  // run, is as it was claimed.
  predicate ClaimFits(rows: Rows, executions: map<Id, Execution>, c: Claim) {
    && c.run !in executions
    && (c.run in rows.runs && rows.runs[c.run].status.Active() ==>
          rows.runs[c.run].status == Queued && rows.runs[c.run].job == c.job)
  }

  predicate DeferredFit(rows: Rows, executions: map<Id, Execution>, deferred: seq<Claim>) {
    && (forall k :: 0 <= k < |deferred| ==> ClaimFits(rows, executions, deferred[k]))
    && (forall k, m :: 0 <= k < m < |deferred| ==> deferred[k].run != deferred[m].run)
  }

  ghost predicate Tended(o: Oracle, s: System) {
    && DeferredFit(s.rows, s.executions, s.sched.deferred)
    && (!s.sealed && NoFault(o, s.calls) ==> AllInStep(s.rows, s.executions))
  }

  // Later, with as many calls or more.
  predicate Later(s: System, t: System) { s.calls <= t.calls && (s.sealed ==> t.sealed) }

  ghost predicate Tends(o: Oracle, s: System, t: System) { Later(s, t) && (Tended(o, s) ==> Tended(o, t)) }

  lemma TendsTwice(o: Oracle, s: System, t: System, u: System)
    requires Tends(o, s, t) && Tends(o, t, u)
    ensures Tends(o, s, u)
  {
  }

  lemma NoFaultBefore(o: Oracle, s: System, t: System)
    requires Later(s, t)
    ensures NoFault(o, t.calls) ==> NoFault(o, s.calls)
  {
  }

  // An identifier that no execution and no deferred claim has, unless a row has it as well.
  predicate Fresh(s: System, run: Id) {
    run in s.rows.runs || (run !in s.executions && forall k :: 0 <= k < |s.sched.deferred| ==> s.sched.deferred[k].run != run)
  }

  // Rows of runs that have an execution, or wait for one, are as they were.
  predicate RowsAlike(before: Rows, after: Rows) {
    forall r :: r in after.runs && after.runs[r].status.Active() ==> r in before.runs && after.runs[r] == before.runs[r]
  }

  lemma RowsAlikeTends(o: Oracle, s: System, t: System)
    requires RowsAlike(s.rows, t.rows) && t.executions == s.executions && t.sched.deferred == s.sched.deferred && Later(s, t)
    ensures Tends(o, s, t)
  {
    NoFaultBefore(o, s, t);
    if Tended(o, s) {
      forall k | 0 <= k < |t.sched.deferred| ensures ClaimFits(t.rows, t.executions, t.sched.deferred[k]) {
        assert ClaimFits(s.rows, s.executions, s.sched.deferred[k]);
      }
      if AllInStep(s.rows, s.executions) {
        forall r | r in t.executions ensures InStepOf(t.rows, t.executions[r]) { assert InStepOf(s.rows, s.executions[r]); }
      }
    }
  }

  // A stretch of one execution, or its beginning.
  lemma StretchTends(cal: Calendar, o: Oracle, s: System, w: World, v: World)
    requires Local(cal, w, v) && w.rows == s.rows && s.calls <= v.calls && ExecutionsSound(s.executions)
    requires forall k :: 0 <= k < |s.sched.deferred| ==> s.sched.deferred[k].run != w.x.run
    requires Tended(o, s) && !s.sealed && NoFault(o, v.calls) ==> InStepOf(v.rows, v.x)
    ensures Tends(o, s, WithStretch(s, v))
  {
    var t := WithStretch(s, v);
    NoFaultBefore(o, s, t);
    if Tended(o, s) {
      forall k | 0 <= k < |t.sched.deferred| ensures ClaimFits(t.rows, t.executions, t.sched.deferred[k]) {
        assert ClaimFits(s.rows, s.executions, s.sched.deferred[k]);
      }
      if !t.sealed && NoFault(o, t.calls) {
        forall r | r in t.executions ensures InStepOf(t.rows, t.executions[r]) {
          if r != v.x.run { assert InStepOf(s.rows, s.executions[r]) && s.executions[r].run == r; }
        }
      }
    }
  }

  // Being in step is a matter of the execution and its row.
  lemma InStepAgain(v: World)
    requires InStep(v)
    ensures InStepOf(v.rows, v.x)
  {
  }

  lemma AnswerTends(cal: Calendar, o: Oracle, s: System, run: Id, a: Answer)
    requires Inv(cal, s) && run in s.executions && Answers(s.executions[run].at, a)
    ensures Tends(o, s, AnsweredTurn(o, s, run, a))
  {
    hide Tends, JobExecution.Resumed, InStep;
    var x := s.executions[run];
    var w := World(s.rows, Hearing(x, a), s.calls);
    var v := Resumed(o, s.rows, x, s.calls, s.sealed, a);
    assert ExecutionInv(x) && x.run == run;
    StretchFacts(cal, o, s.rows, x, s.calls, s.sealed, a);
    assert AnsweredTurn(o, s, run, a) == WithStretch(s, v);
    if Tended(o, s) && !s.sealed && NoFault(o, v.calls) { HeardInStep(cal, o, s, run, a); }
    if Tended(o, s) {
      forall k | 0 <= k < |s.sched.deferred| ensures s.sched.deferred[k].run != run {
        assert ClaimFits(s.rows, s.executions, s.sched.deferred[k]);
      }
      StretchTends(cal, o, s, w, v);
    } else {
      NotTended(cal, o, s, w, v);
    }
  }

  lemma NotTended(cal: Calendar, o: Oracle, s: System, w: World, v: World)
    requires !Tended(o, s) && Local(cal, w, v) && w.calls == s.calls
    ensures Tends(o, s, WithStretch(s, v))
  {
  }

  lemma HeardInStep(cal: Calendar, o: Oracle, s: System, run: Id, a: Answer)
    requires Inv(cal, s) && run in s.executions && Answers(s.executions[run].at, a) && !s.sealed
    requires Tended(o, s) && NoFault(o, AnsweredTurn(o, s, run, a).calls)
    ensures var v := Resumed(o, s.rows, s.executions[run], s.calls, false, a); InStepOf(v.rows, v.x)
  {
    hide JobExecution.Resumed, Sound;
    var x := s.executions[run];
    var w := World(s.rows, Hearing(x, a), s.calls);
    var v := Resumed(o, s.rows, x, s.calls, false, a);
    StretchFacts(cal, o, s.rows, x, s.calls, false, a);
    assert s.calls <= v.calls;
    assert InStepOf(s.rows, x);
    if run in s.rows.runs && s.rows.runs[run].status.Active() {
      StretchInStep(cal, o, s.rows, x, s.calls, a);
      InStepAgain(v);
    } else {
      EndedStays(cal, w, v);
    }
  }

  // A row that has ended, or is gone, is not brought back.
  lemma EndedStays(cal: Calendar, w: World, v: World)
    requires Judged(cal, w, v) && !(w.x.run in w.rows.runs && w.rows.runs[w.x.run].status.Active())
    ensures InStepOf(v.rows, v.x)
  {
  }

  lemma DispatchTends(cal: Calendar, o: Oracle, s: System, c: Claim)
    requires Inv(cal, s) && ClaimFits(s.rows, s.executions, c)
    requires forall k :: 0 <= k < |s.sched.deferred| ==> s.sched.deferred[k].run != c.run
    ensures Tends(o, s, Dispatch(o, s, c))
  {
    hide Tends, Begun, Sound, InStep;
    if Dispatchable(s, c) {
      var x := Launched(c.job, c.run, c.hasPre, c.hasPost);
      var w, v := World(s.rows, x, s.calls), Begun(o, s.rows, x, s.calls, s.sealed);
      BeginningFacts(cal, o, s.rows, c.job, c.run, c.hasPre, c.hasPost, s.calls, s.sealed);
      if !s.sealed && NoFault(o, v.calls) { BegunInStep(cal, o, s, c); }
      StretchTends(cal, o, s, w, v);
      assert Dispatch(o, s, c) == WithStretch(s, v);
    } else {
      RowsAlikeTends(o, s, s);
    }
  }

  lemma BegunInStep(cal: Calendar, o: Oracle, s: System, c: Claim)
    requires Inv(cal, s) && ClaimFits(s.rows, s.executions, c) && !s.sealed
    requires NoFault(o, Begun(o, s.rows, Launched(c.job, c.run, c.hasPre, c.hasPost), s.calls, false).calls)
    ensures var v := Begun(o, s.rows, Launched(c.job, c.run, c.hasPre, c.hasPost), s.calls, false); InStepOf(v.rows, v.x)
  {
    hide Begun, Inv, Sound, Synced;
    var x := Launched(c.job, c.run, c.hasPre, c.hasPost);
    var w, v := World(s.rows, x, s.calls), Begun(o, s.rows, x, s.calls, false);
    BeginningFacts(cal, o, s.rows, c.job, c.run, c.hasPre, c.hasPost, s.calls, false);
    if c.run in s.rows.runs && s.rows.runs[c.run].status.Active() {
      QueuedIsSound(cal, s, c.run);
      BegunCounts(o, s.rows, x, s.calls);
      assert Works(o, s.calls);
      BeginningExactly(o, s.rows, x, s.calls);
      InStepAgain(v);
    } else {
      EndedStays(cal, w, v);
    }
  }

  lemma QueuedIsSound(cal: Calendar, s: System, run: Id)
    requires Inv(cal, s) && run in s.rows.runs
    ensures RunSound(s.rows.runs[run])
  {
  }

  lemma BegunCounts(o: Oracle, rows: Rows, x: Execution, calls: nat)
    ensures Begun(o, rows, x, calls, false).calls > calls
  {
    hide Record, RecordStopped;
    var w := World(rows, x, calls);
    ChangeCounts(o, w, JobRows.Start(None));
    var s := JobExecution.Start(o, w, false);
    StoppedCounts(o, s.world, s.world.x.phase);
    if s.Throw? { RecordCounts(o, s.world, Status.Failed, Some(Or(s.code, Code.PromptFailed)), s.world.x.phase); }
  }

  // ------------------------------------------------------------------------------ turns

  lemma ClaimTends(o: Oracle, s: System, rows: Rows, calls: nat, run: Id)
    requires run !in s.rows.runs && Fresh(s, run) && s.calls <= calls && ExecutionsSound(s.executions)
    requires rows.runs.Keys == s.rows.runs.Keys + {run} && forall r :: r in s.rows.runs ==> rows.runs[r] == s.rows.runs[r]
    ensures Tends(o, s, s.(rows := rows, calls := calls))
  {
    var t := s.(rows := rows, calls := calls);
    NoFaultBefore(o, s, t);
    if Tended(o, s) {
      forall k | 0 <= k < |t.sched.deferred| ensures ClaimFits(t.rows, t.executions, t.sched.deferred[k]) {
        assert ClaimFits(s.rows, s.executions, s.sched.deferred[k]);
      }
      if AllInStep(s.rows, s.executions) {
        forall r | r in t.executions ensures InStepOf(t.rows, t.executions[r]) {
          assert InStepOf(s.rows, s.executions[r]) && s.executions[r].run == r && r != run;
        }
      }
    }
  }

  // Other identifiers stay fresh while one is claimed and dispatched.
  ghost predicate StaysFresh(s: System, t: System) { forall r :: Fresh(s, r) ==> Fresh(t, r) }

  lemma SweepOneTends(cal: Calendar, o: Oracle, listed: Rows, s: System, job: Id, run: Id, trigger: Trigger, now: int)
    requires Inv(cal, s) && Fresh(s, run)
    ensures var t := SweepOne(cal, o, listed, s, job, run, trigger, now).system; Tends(o, s, t) && StaysFresh(s, t)
  {
    hide Tends, Dispatch, ClaimScheduled, Inv;
    RowsAlikeTends(o, s, s);
    RowsAlikeTends(o, s, s.(calls := s.calls + 1));
    var claim := ClaimScheduled(cal, s.rows, job, run, trigger, now);
    if Due(listed, job, now) && !o.fails(s.calls) && claim.Ok? {
      OnTimeKeepsInv(cal, s, job, run, trigger, now, s.calls + 1);
      ScheduledAddsOne(cal, s.rows, job, run, trigger, now);
      ClaimedTends(cal, o, s, job, run, claim.value);
    }
  }

  lemma ScheduledAddsOne(cal: Calendar, rows: Rows, job: Id, run: Id, trigger: Trigger, now: int)
    ensures var c := ClaimScheduled(cal, rows, job, run, trigger, now); c.Ok? ==> AddedFor(rows, c.value, job, run)
  {
  }

  // One row was added, for this job, and it is queued if it is to be run.
  predicate AddedFor(before: Rows, after: Rows, job: Id, run: Id) {
    && run !in before.runs && after.runs.Keys == before.runs.Keys + {run} && job in after.jobs
    && (forall r :: r in before.runs ==> after.runs[r] == before.runs[r])
    && after.runs[run].job == job && (after.runs[run].status == Queued || !after.runs[run].status.Active())
  }

  lemma ClaimedTends(cal: Calendar, o: Oracle, s: System, job: Id, run: Id, rows: Rows)
    requires Inv(cal, s) && Fresh(s, run) && AddedFor(s.rows, rows, job, run)
    requires Inv(cal, s.(rows := rows, calls := s.calls + 1))
    ensures var t := s.(rows := rows, calls := s.calls + 1); var c := ClaimOf(rows, job, run);
      && Tends(o, s, t) && StaysFresh(s, t) && ClaimFits(t.rows, t.executions, c) && c.run == run
      && Tends(o, s, Dispatch(o, t, c)) && StaysFresh(s, Dispatch(o, t, c))
      && Tends(o, s, DispatchIfQueued(o, t, job, run)) && StaysFresh(s, DispatchIfQueued(o, t, job, run))
  {
    hide Tends, Begun, Sound;
    var t := s.(rows := rows, calls := s.calls + 1);
    var c := ClaimOf(rows, job, run);
    ClaimTends(o, s, rows, s.calls + 1, run);
    DispatchTends(cal, o, t, c);
    TendsTwice(o, s, t, Dispatch(o, t, c));
    DispatchKeepsFresh(cal, o, t, c);
  }

  lemma DispatchKeepsFresh(cal: Calendar, o: Oracle, s: System, c: Claim)
    requires c.run in s.rows.runs
    ensures StaysFresh(s, Dispatch(o, s, c))
  {
    hide Begun;
    if Dispatchable(s, c) { BeginningFacts(cal, o, s.rows, c.job, c.run, c.hasPre, c.hasPost, s.calls, s.sealed); }
  }

  lemma {:induction false} SweepTends(cal: Calendar, o: Oracle, listed: Rows, s: System, jobs: seq<(Id, Id)>, trigger: Trigger, now: int)
    requires Inv(cal, s) && forall k :: 0 <= k < |jobs| ==> Fresh(s, jobs[k].1)
    ensures Tends(o, s, Sweep(cal, o, listed, s, jobs, trigger, now).system)
    decreases |jobs|
  {
    hide Tends, SweepOne, Inv, Fresh;
    if jobs == [] {
      RowsAlikeTends(o, s, s);
    } else {
      var first := SweepOne(cal, o, listed, s, jobs[0].0, jobs[0].1, trigger, now);
      SweepOneTends(cal, o, listed, s, jobs[0].0, jobs[0].1, trigger, now);
      SweepOneKeepsInv(cal, o, listed, s, jobs[0].0, jobs[0].1, trigger, now, first);
      if first.goesOn {
        SweepTends(cal, o, listed, first.system, jobs[1..], trigger, now);
        TendsTwice(o, s, first.system, Sweep(cal, o, listed, first.system, jobs[1..], trigger, now).system);
      }
    }
  }

  // Nothing of the runs changes, and calls only increase.
  predicate Beside(s: System, t: System) {
    t.rows == s.rows && t.executions == s.executions && t.sched.deferred == s.sched.deferred && Later(s, t)
  }

  lemma BesideTends(o: Oracle, s: System, t: System)
    requires Beside(s, t)
    ensures Tends(o, s, t)
  {
    RowsAlikeTends(o, s, t);
  }

  lemma ArmedBeside(o: Oracle, s: System)
    ensures Beside(s, Armed(o, s).system)
  {
  }

  lemma ClaimDueTends(cal: Calendar, o: Oracle, s: System, jobs: seq<(Id, Id)>)
    requires Inv(cal, s) && forall k :: 0 <= k < |jobs| ==> Fresh(s, jobs[k].1)
    ensures Tends(o, s, ClaimDue(cal, o, s, jobs).system)
  {
    hide Tends, Sweep, Inv;
    var counted := s.(calls := s.calls + 1);
    BesideTends(o, s, s);
    BesideTends(o, s, counted);
    SchedulingKeepsInv(cal, s, s.sched, s.calls + 1);
    SweepTends(cal, o, s.rows, counted, jobs, Scheduled, o.clock(s.calls));
    TendsTwice(o, s, counted, Sweep(cal, o, s.rows, counted, jobs, Scheduled, o.clock(s.calls)).system);
  }

  lemma RecoverTends(cal: Calendar, o: Oracle, s: System, jobs: seq<(Id, Id)>)
    requires Inv(cal, s) && forall k :: 0 <= k < |jobs| ==> Fresh(s, jobs[k].1)
    ensures Tends(o, s, Recover(cal, o, s, jobs).system)
  {
    hide Tends, Sweep, Inv;
    var now := o.clock(s.calls);
    BesideTends(o, s, s);
    BesideTends(o, s, s.(calls := s.calls + 1));
    if SafeTimestamp(now) {
      var t := s.(rows := InterruptAll(s.rows, now).value, calls := s.calls + 2);
      RowsAlikeTends(o, s, t);
      InterruptionKeepsInv(cal, s, now, s.calls + 2);
      SweepTends(cal, o, t.rows, t, jobs, CatchUp, now);
      var u := Sweep(cal, o, t.rows, t, jobs, CatchUp, now).system;
      TendsTwice(o, s, t, u);
      BesideTends(o, u, u.(sched := u.sched.(initialized := true)));
      TendsTwice(o, s, u, u.(sched := u.sched.(initialized := true)));
    }
  }

  lemma ArmedOrStoppedBeside(o: Oracle, p: Piece)
    ensures Beside(p.system, ArmedOrStopped(o, p))
  {
    ArmedBeside(o, p.system);
  }

  lemma StartTurnTends(cal: Calendar, o: Oracle, s: System, g: nat, jobs: seq<(Id, Id)>)
    requires Inv(cal, s) && forall k :: 0 <= k < |jobs| ==> Fresh(s, jobs[k].1)
    ensures Tends(o, s, StartTurn(cal, o, s, g, jobs))
  {
    hide Tends, ClaimDue, Recover, ArmedOrStopped, Inv;
    var t := s.(sched := s.sched.(starting := s.sched.starting - {g}));
    BesideTends(o, s, t);
    SchedulingKeepsInv(cal, s, t.sched, s.calls);
    if t.sched.Accepting() && g == t.sched.generation {
      ClaimDueTends(cal, o, t, jobs);
      RecoverTends(cal, o, t, jobs);
      var claimed := if t.sched.initialized then ClaimDue(cal, o, t, jobs) else Recover(cal, o, t, jobs);
      TendsTwice(o, s, t, claimed.system);
      ArmedOrStoppedBeside(o, claimed);
      BesideTends(o, claimed.system, ArmedOrStopped(o, claimed));
      TendsTwice(o, s, claimed.system, ArmedOrStopped(o, claimed));
    }
  }

  lemma WakeTurnTends(cal: Calendar, o: Oracle, s: System, g: nat, jobs: seq<(Id, Id)>)
    requires Inv(cal, s) && forall k :: 0 <= k < |jobs| ==> Fresh(s, jobs[k].1)
    ensures Tends(o, s, WakeTurn(cal, o, s, g, jobs))
  {
    hide Tends, ClaimDue, Armed, Inv;
    var t := s.(sched := s.sched.(timer := None));
    BesideTends(o, s, s);
    BesideTends(o, s, t);
    SchedulingKeepsInv(cal, s, t.sched, s.calls);
    ClaimDueTends(cal, o, t, jobs);
    var u := ClaimDue(cal, o, t, jobs).system;
    TendsTwice(o, s, t, u);
    ArmedBeside(o, u);
    BesideTends(o, u, Armed(o, u).system);
    TendsTwice(o, s, u, Armed(o, u).system);
  }

  lemma ManualAddsOne(rows: Rows, job: Id, run: Id, now: int)
    ensures var c := ClaimManual(rows, job, run, now); c.Ok? ==> AddedFor(rows, c.value, job, run)
  {
  }

  lemma RunNowTends(cal: Calendar, o: Oracle, s: System, job: Id, run: Id)
    requires Inv(cal, s) && Fresh(s, run)
    ensures Tends(o, s, RunNowTurn(o, s, job, run)) && Tends(o, s, RunNowAcceptedTurn(o, s, job, run))
  {
    hide Tends, Dispatch, ClaimManual, Inv, AddedFor;
    BesideTends(o, s, s);
    BesideTends(o, s, s.(calls := s.calls + 1));
    var t := ManualClaim(o, s, job, run);
    if t.goesOn {
      var claim := ClaimManual(s.rows, job, run, o.clock(s.calls));
      ManualAddsOne(s.rows, job, run, o.clock(s.calls));
      ManualClaimKeepsInv(cal, o, s, job, run);
      ClaimedTends(cal, o, s, job, run, claim.value);
      DeferralTends(o, s, t.system, job, run);
    }
  }

  lemma DeferralTends(o: Oracle, s: System, t: System, job: Id, run: Id)
    requires Tends(o, s, t) && Fresh(s, run) && AddedFor(s.rows, t.rows, job, run) && t.sched == s.sched && t.executions == s.executions
    ensures Tends(o, s, Deferred(t, ClaimOf(t.rows, job, run)))
  {
    var c := ClaimOf(t.rows, job, run);
    var u := Deferred(t, c);
    if Tended(o, t) {
      forall k | 0 <= k < |u.sched.deferred| ensures ClaimFits(u.rows, u.executions, u.sched.deferred[k]) {
        if k < |t.sched.deferred| { assert ClaimFits(t.rows, t.executions, t.sched.deferred[k]); }
      }
    }
  }

  lemma DeferredTends(cal: Calendar, o: Oracle, s: System)
    requires Inv(cal, s) && s.sched.deferred != []
    ensures Tends(o, s, DeferredTurn(o, s))
  {
    var t := s.(sched := s.sched.(deferred := s.sched.deferred[1..]));
    if Tended(o, s) {
      assert ClaimFits(s.rows, s.executions, s.sched.deferred[0]);
      assert Tended(o, t);
      SchedulingKeepsInv(cal, s, t.sched, s.calls);
      DispatchTends(cal, o, t, s.sched.deferred[0]);
    } else {
      DispatchLater(cal, o, t, s.sched.deferred[0]);
    }
  }

  lemma DispatchLater(cal: Calendar, o: Oracle, s: System, c: Claim)
    ensures Later(s, Dispatch(o, s, c))
  {
    hide Begun;
    if Dispatchable(s, c) { BeginningFacts(cal, o, s.rows, c.job, c.run, c.hasPre, c.hasPost, s.calls, s.sealed); }
  }

  lemma EditTends(cal: Calendar, o: Oracle, s: System, t: Transaction)
    requires t.Create? || t.Update? || t.Delete?
    ensures Tends(o, s, s.(rows := After(cal, s.rows, t)))
  {
    var u := s.(rows := After(cal, s.rows, t));
    assert forall r :: r in u.rows.runs ==> r in s.rows.runs && u.rows.runs[r] == s.rows.runs[r];
    RowsAlikeTends(o, s, u);
  }

  lemma AbortTends(cal: Calendar, o: Oracle, s: System, run: Id)
    requires Inv(cal, s)
    ensures Tends(o, s, AbortRequested(s, run))
  {
    hide Sound, Synced;
    var t := AbortRequested(s, run);
    if Tended(o, s) {
      assert t.executions.Keys == s.executions.Keys;
      forall k | 0 <= k < |t.sched.deferred| ensures ClaimFits(t.rows, t.executions, t.sched.deferred[k]) {
        assert ClaimFits(s.rows, s.executions, s.sched.deferred[k]);
      }
      if AllInStep(s.rows, s.executions) {
        forall r | r in t.executions ensures InStepOf(t.rows, t.executions[r]) { StopOutOfStep(s.rows, s.executions[r], t.executions[r]); }
      }
    }
  }

  // A request to stop is not a matter of the row.
  lemma StopOutOfStep(rows: Rows, x: Execution, y: Execution)
    requires InStepOf(rows, x) && y == x.(stop := y.stop)
    ensures InStepOf(rows, y)
  {
  }

  lemma ShutdownTends(o: Oracle, s: System)
    ensures Tends(o, s, Shutdown(o, s))
  {
    var t := Shutdown(o, s);
    if !s.shutdownStarted {
      assert t.executions.Keys == s.executions.Keys && RowsAlike(s.rows, t.rows);
      if Tended(o, s) {
        forall k | 0 <= k < |t.sched.deferred| ensures ClaimFits(t.rows, t.executions, t.sched.deferred[k]) {
          assert ClaimFits(s.rows, s.executions, s.sched.deferred[k]);
        }
      }
    } else {
      BesideTends(o, s, s);
    }
  }

  /** The run identifiers of a step are new: they are random, and never come twice. */
  predicate UsesFreshIds(s: System, l: Step) {
    match l
    case RunNow(_, run) => Fresh(s, run)
    case RunNowAccepted(_, run) => Fresh(s, run)
    case Starting(_, jobs) => forall k :: 0 <= k < |jobs| ==> Fresh(s, jobs[k].1)
    case Wake(_, jobs) => forall k :: 0 <= k < |jobs| ==> Fresh(s, jobs[k].1)
    case _ => true
  }

  lemma StepTends(cal: Calendar, o: Oracle, s: System, l: Step)
    requires Inv(cal, s) && Possible(s, l) && UsesFreshIds(s, l)
    ensures Tends(o, s, Next(cal, o, s, l))
  {
    hide Tends, Inv, Fresh;
    match l
    case Edit(t) => EditTends(cal, o, s, t);
    case StartScheduler => BesideTends(o, s, StartRequested(s));
    case Starting(g, jobs) => StartTurnTends(cal, o, s, g, jobs);
    case Wake(g, jobs) => WakeTurnTends(cal, o, s, g, jobs);
    case Refresh =>
      ArmedBeside(o, s);
      BesideTends(o, s, s);
      BesideTends(o, s, Armed(o, s).system);
    case RunNow(job, run) => RunNowTends(cal, o, s, job, run);
    case RunNowAccepted(job, run) => RunNowTends(cal, o, s, job, run);
    case DispatchDeferred => DeferredTends(cal, o, s);
    case Answered(run, a) => AnswerTends(cal, o, s, run, a);
    case RequestAbort(run) => AbortTends(cal, o, s, run);
    case StopScheduler => BesideTends(o, s, s.(sched := StopSched(s.sched)));
    case BeginShutdown => ShutdownTends(o, s);
  }

  // -------------------------------------------------------------------------- whole runs

  ghost predicate IdsNeverRepeat(states: seq<System>, steps: seq<Step>) {
    |steps| < |states| && forall k :: 0 <= k < |steps| ==> UsesFreshIds(states[k], steps[k])
  }

  lemma NothingToTend(o: Oracle)
    ensures Tended(o, FRESH)
  {
  }

  lemma {:induction false} RunIsTended(cal: Calendar, o: Oracle, states: seq<System>, steps: seq<Step>, i: nat)
    requires IsRun(cal, o, states, steps) && i <= |steps|
    requires IdsNeverRepeat(states, steps)
    ensures Tended(o, states[i])
  {
    hide Inv, Tended, UsesFreshIds;
    if i == 0 {
      NothingToTend(o);
    } else {
      RunIsTended(cal, o, states, steps, i - 1);
      RunKeepsInv(cal, o, states, steps, i - 1);
      StepTends(cal, o, states[i - 1], steps[i - 1]);
    }
  }

  /** At every moment of every run in which no repository call has failed and persistence is
      not sealed: an execution that is releasing its conversation, or is over, has recorded
      its end; and any other knows its row, as long as that has not been ended for it. */
  lemma EndsAreRecorded(cal: Calendar, o: Oracle, states: seq<System>, steps: seq<Step>, i: nat, r: Id)
    requires IsRun(cal, o, states, steps) && i <= |steps|
    requires IdsNeverRepeat(states, steps)
    requires !states[i].sealed && NoFault(o, states[i].calls)
    requires r in states[i].executions && r in states[i].rows.runs && states[i].rows.runs[r].status.Active()
    ensures var x := states[i].executions[r];
      && x.at != AtRelease && x.at != Over
      && states[i].rows.runs[r].status == Running && states[i].rows.runs[r].revision == x.revision
  {
    hide Sound;
    RunIsTended(cal, o, states, steps, i);
    RunKeepsInv(cal, o, states, steps, i);
    assert InStepOf(states[i].rows, states[i].executions[r]);
  }
}
