/** How an execution ends: for every await, every answer and every request to stop, the
    status and the error that its row gets, or the await it goes on to. */
module JobVerdicts {
  import opened Text
  import opened JobSchedule
  import opened JobRows
  import opened JobExecution
  import opened JobRuntime
  import opened JobEndings

  datatype Verdict = GoesOn(next: Point) | Ends(status: Status, error: Code) | Succeeds

  /** The stop in force once the answer is heard: a hook or a prompt that was itself stopped
      counts as a request, unless there was one before. */
  function StopAfter(x: Execution, a: Answer): Stop {
    if x.stop != NoStop then x.stop
    else if a.HookRan? && a.code == Some(JobInterrupted) then ShutdownStop
    else if (a.HookRan? && a.code == Some(JobAborted)) || a.PromptAborted? then AbortStop
    else NoStop
  }

  // A workspace that is not usable, or a configured script that must not run.
  predicate Refused(x: Execution, a: Answer) {
    || a.PolicyRefused?
    || (a.PolicyUsable? && ((x.hasPre && a.pre.Denied?) || (x.hasPost && a.post.Denied?)))
    || (a.CapacityGranted? && x.hasPre && a.pre.Denied?)
    || (a.PromptSucceeded? && x.hasPost && a.post.Denied?)
  }

  function RefusalCode(x: Execution, a: Answer): Code
    requires Refused(x, a)
  {
    if a.PolicyRefused? then Or(a.code, WorkspaceUnavailable)
    else if a.PromptSucceeded? then Or(a.post.code, ScriptUnavailable)
    else if x.hasPre && a.pre.Denied? then Or(a.pre.code, ScriptUnavailable)
    else assert a.PolicyUsable?; Or(a.post.code, ScriptUnavailable)
  }

  function FailureCode(at: Point, a: Answer): Code {
    match a
    case CapacityRefused(code) => Or(code, LiveRuntimeLimit)
    case HookRan(_, _, code) => Or(code, if at == AtPreHook then PreRunFailed else PostRunFailed)
    case HookThrew(code) => Or(code, Code.PromptFailed)
    case ConversationRefused(code, _) => Or(code, Code.PromptFailed)
    case ConversationCreated(_, _) => JobInvalid
    case TitleRefused(code) => Or(code, Code.PromptFailed)
    case PromptBroke(error) => error
    case PromptThrew(code) => Or(code, Code.PromptFailed)
    case _ => Code.PromptFailed
  }

  /** A good answer leads on -- a stop that comes while the conversation is made is obeyed
      after its title -- and a stop comes before anything else that is wrong. */
  function VerdictOn(x: Execution, a: Answer): Verdict {
    var stop := StopAfter(x, a);
    if Good(x.hasPre, x.hasPost, x.at, a) && NextPoint(x) != Over && (stop == NoStop || x.at == AtConversation) then GoesOn(NextPoint(x))
    else if stop == ShutdownStop then Ends(Interrupted, JobInterrupted)
    else if stop == AbortStop then Ends(Aborted, JobAborted)
    else if Good(x.hasPre, x.hasPost, x.at, a) then Succeeds
    else if Refused(x, a) then Ends(Blocked, RefusalCode(x, a))
    else if a == CapacityRefused(Some(LiveRuntimeLimit)) then Ends(Skipped, LiveRuntimeLimit)
    else if a == CapacityRefused(Some(ShuttingDown)) then Ends(Aborted, JobAborted)
    else Ends(Status.Failed, FailureCode(x.at, a))
  }

  // What the row says about it.
  predicate Shows(r: Run, verdict: Verdict) {
    match verdict
    case GoesOn(_) => r.status == Running
    case Ends(status, error) => r.status == status && r.error == Some(error) && r.finishedAt.Some?
    case Succeeds => r.status == Succeeded && r.error == None && r.finishedAt.Some?
  }

  predicate RowShows(v: World, verdict: Verdict) { v.x.run in v.rows.runs && Shows(v.rows.runs[v.x.run], verdict) }

  // What the handler makes of an exception.
  function Handled(stop: Stop, code: Option<Code>): Verdict {
    match stop
    case ShutdownStop => Ends(Interrupted, JobInterrupted)
    case AbortStop => Ends(Aborted, JobAborted)
    case NoStop => Ends(Status.Failed, Or(code, Code.PromptFailed))
  }

  predicate Decides(s: Stretch, verdict: Verdict) {
    match s
    case Suspend(v, at) => verdict == GoesOn(at) && Matches(v)
    case Return(v) => !verdict.GoesOn? && RowShows(v, verdict)
    case Throw(v, code) => Matches(v) && verdict == Handled(v.x.stop, code)
  }

  // ---------------------------------------------------------------- one stretch

  lemma RecordShows(o: Oracle, w: World, status: Status, error: Option<Code>, phase: Option<Phase>)
    requires Matches(w) && !status.Active() && (status.Succeeded? <==> error.None?)
    requires NoFault(o, Record(o, w, false, status, error, phase).world.calls)
    ensures Record(o, w, false, status, error, phase).Went?
    ensures Decides(Ending(Record(o, w, false, status, error, phase)), if error.None? then Succeeds else Ends(status, error.value))
  {
    RecordCounts(o, w, status, error, phase);
    assert Works(o, w.calls);
  }

  lemma StopShows(o: Oracle, w: World, phase: Option<Phase>)
    requires Matches(w) && NoFault(o, RecordStopped(o, w, false, phase).world.calls)
    ensures RecordStopped(o, w, false, phase).Went?
    ensures Decides(Ending(RecordStopped(o, w, false, phase)),
                    if w.x.stop == ShutdownStop then Ends(Interrupted, JobInterrupted) else Ends(Aborted, JobAborted))
  {
    hide Record;
    if w.x.stop.ShutdownStop? { RecordShows(o, w, Interrupted, Some(JobInterrupted), phase); }
    else { RecordShows(o, w, Aborted, Some(JobAborted), phase); }
  }

  /** An end that finds its row ended already gives way to it: the row stays as it is, and
      the execution takes it over. */
  lemma EndedRowIsAdopted(o: Oracle, w: World, status: Status, error: Option<Code>, phase: Option<Phase>)
    requires w.x.run in w.rows.runs && w.rows.runs[w.x.run].job == w.x.job && w.rows.runs[w.x.run].status !in {Queued, Running}
    requires !status.Active() && (status.Succeeded? <==> error.None?) && Works(o, w.calls) && !o.fails(w.calls + 1)
    ensures Record(o, w, false, status, error, phase) ==
      Went(World(w.rows, w.x.(revision := w.rows.runs[w.x.run].revision, phase := w.rows.runs[w.x.run].phase), w.calls + 2))
  {
  }

  lemma PolicyDecides(o: Oracle, w: World, a: Answer)
    requires Matches(w) && Answers(AtPolicy, a) && w.x.at == AtPolicy
    requires NoFault(o, AfterPolicy(o, w, false, a).world.calls)
    ensures Decides(AfterPolicy(o, w, false, a), VerdictOn(w.x, a))
  {
    hide Record, RecordStopped;
    if w.x.stop != NoStop { StopShows(o, w, w.x.phase); }
    else if a.PolicyRefused? { RecordShows(o, w, Blocked, Some(Or(a.code, WorkspaceUnavailable)), None); }
    else if w.x.hasPre && a.pre.Denied? { RecordShows(o, w, Blocked, Some(Or(a.pre.code, ScriptUnavailable)), Some(PreHook)); }
    else if w.x.hasPost && a.post.Denied? { RecordShows(o, w, Blocked, Some(Or(a.post.code, ScriptUnavailable)), Some(PostHook)); }
  }

  lemma ToPromptDecides(o: Oracle, w: World)
    requires Matches(w) && NoFault(o, ToPrompt(o, w, false).world.calls)
    ensures Decides(ToPrompt(o, w, false), if w.x.stop == NoStop then GoesOn(AtConversation) else Handled(w.x.stop, None))
  {
    hide Record, RecordStopped;
    var r := JobExecution.Change(o, w, SetPhase(Prompt));
    ChangeCounts(o, w, SetPhase(Prompt));
    StoppedCounts(o, r.world, Some(Prompt));
    assert Works(o, w.calls);
    ChangeWorks(o, w, SetPhase(Prompt));
    if r.world.x.stop != NoStop { StopShows(o, r.world, Some(Prompt)); }
  }

  // The phase changes, and then the script check may refuse.
  lemma CheckDecides(o: Oracle, w: World, phase: Phase, admission: Admission, at: Point)
    requires Matches(w)
    ensures var r := JobExecution.Change(o, w, SetPhase(phase));
      var s := if r.Threw? then Throw(r.world, r.code)
               else if admission.Denied? then Ending(Record(o, r.world, false, Blocked, Some(Or(admission.code, ScriptUnavailable)), Some(phase)))
               else Suspend(r.world, at);
      NoFault(o, s.world.calls) ==> Decides(s, if admission.Denied? then Ends(Blocked, Or(admission.code, ScriptUnavailable)) else GoesOn(at))
  {
    hide Record;
    var r := JobExecution.Change(o, w, SetPhase(phase));
    ChangeCounts(o, w, SetPhase(phase));
    WorkedBefore(o, w.calls);
    if Works(o, w.calls) {
      ChangeWorks(o, w, SetPhase(phase));
      if admission.Denied? {
        RecordCounts(o, r.world, Blocked, Some(Or(admission.code, ScriptUnavailable)), Some(phase));
        if NoFault(o, Record(o, r.world, false, Blocked, Some(Or(admission.code, ScriptUnavailable)), Some(phase)).world.calls) {
          RecordShows(o, r.world, Blocked, Some(Or(admission.code, ScriptUnavailable)), Some(phase));
        }
      }
    }
  }

  lemma CapacityDecides(o: Oracle, w: World, a: Answer)
    requires Matches(w) && Answers(AtCapacity, a) && w.x.at == AtCapacity
    requires NoFault(o, AfterCapacity(o, w, false, a).world.calls)
    ensures Decides(AfterCapacity(o, w, false, a), VerdictOn(w.x, a))
  {
    hide Record, RecordStopped, ToPrompt, JobExecution.Change;
    if a.CapacityRefused? {
      if w.x.stop != NoStop || a.code == Some(ShuttingDown) { StopShows(o, w, w.x.phase); }
      else {
        RecordShows(o, w, if a.code == Some(LiveRuntimeLimit) then Skipped else Status.Failed, Some(Or(a.code, LiveRuntimeLimit)), None);
      }
    } else {
      var v := w.(x := w.x.(lease := Held));
      if v.x.stop != NoStop { StopShows(o, v, v.x.phase); }
      else if v.x.hasPre { CheckDecides(o, v, PreHook, a.pre, AtPreHook); }
      else { ToPromptDecides(o, v); }
    }
  }

  // A hook that ran, once its output is recorded.
  lemma HookOutcomeDecides(o: Oracle, u: World, a: Answer, pre: bool, x: Execution)
    requires Matches(u) && a.HookRan? && OnlyCopied(x.(stop := StopAfter(x, a)), u.x) && x.at == (if pre then AtPreHook else AtPostHook)
    ensures var phase := Some(if pre then PreHook else PostHook);
      var s := if u.x.stop != NoStop then Ending(RecordStopped(o, u, false, phase))
               else if !a.succeeded then
                 Ending(Record(o, u, false, Status.Failed, Some(Or(a.code, if pre then PreRunFailed else PostRunFailed)), phase))
               else if pre then ToPrompt(o, u, false)
               else Ending(Record(o, u, false, Succeeded, None, phase));
      s.world.calls > u.calls && (NoFault(o, s.world.calls) ==> Decides(s, VerdictOn(x, a)))
  {
    hide Record, RecordStopped, ToPrompt, Matches, Decides, NoFault;
    var phase := Some(if pre then PreHook else PostHook);
    StoppedCounts(o, u, phase);
    RecordCounts(o, u, Status.Failed, Some(Or(a.code, if pre then PreRunFailed else PostRunFailed)), phase);
    RecordCounts(o, u, Succeeded, None, phase);
    PromptCounts(o, u);
    if u.x.stop != NoStop {
      if NoFault(o, RecordStopped(o, u, false, phase).world.calls) { StopShows(o, u, phase); }
    } else if !a.succeeded {
      var code := Or(a.code, if pre then PreRunFailed else PostRunFailed);
      if NoFault(o, Record(o, u, false, Status.Failed, Some(code), phase).world.calls) { RecordShows(o, u, Status.Failed, Some(code), phase); }
    } else if pre {
      if NoFault(o, ToPrompt(o, u, false).world.calls) { ToPromptDecides(o, u); }
    } else if NoFault(o, Record(o, u, false, Succeeded, None, phase).world.calls) {
      RecordShows(o, u, Succeeded, None, phase);
    }
  }

  lemma NoChangeWithoutWork(o: Oracle, w: World, c: JobRows.Change)
    ensures JobExecution.Change(o, w, c).Went? ==> Works(o, w.calls)
  {
  }

  lemma HookDecides(o: Oracle, w: World, a: Answer, pre: bool)
    requires Synced(w) && Answers(AtPreHook, a) && w.x.at == (if pre then AtPreHook else AtPostHook)
    requires NoFault(o, AfterHook(o, w, false, a, pre).world.calls)
    ensures Decides(AfterHook(o, w, false, a, pre), VerdictOn(w.x, a))
  {
    hide Record, RecordStopped, ToPrompt, JobExecution.Change;
    if a.HookRan? {
      ChangeCounts(o, w, RecordHook(pre, a.output));
      NoChangeWithoutWork(o, w, RecordHook(pre, a.output));
      var v := JobExecution.Change(o, w, RecordHook(pre, a.output)).world;
      if Works(o, w.calls) {
        ChangeWorks(o, w, RecordHook(pre, a.output));
        HookOutcomeDecides(o, v.(x := WithHookStop(v.x, a.code)), a, pre, w.x);
      }
      WorkedBefore(o, w.calls);
    }
  }

  lemma ConversationDecides(o: Oracle, w: World, a: Answer)
    requires Synced(w) && Answers(AtConversation, a) && w.x.at == AtConversation && w.x.conversation.None?
    requires NoFault(o, AfterConversation(o, w, false, a).world.calls)
    ensures Decides(AfterConversation(o, w, false, a), VerdictOn(w.x, a))
  {
    hide Record, RecordStopped, JobExecution.Change;
    if a.ConversationRefused? {
      var v := w.(x := if a.leaseReleased then Settled(w.x, Released) else w.x);
      if v.x.stop != NoStop { StopShows(o, v, Some(Prompt)); }
      else { RecordShows(o, v, Status.Failed, Some(Or(a.code, Code.PromptFailed)), Some(Prompt)); }
    } else {
      var v := w.(x := Settled(w.x, Promoted).(conversation := Some(a.id)));
      ChangeCounts(o, v, Attach(a.id));
      assert Works(o, v.calls);
      ChangeWorks(o, v, Attach(a.id));
    }
  }

  lemma TitleDecides(o: Oracle, w: World, a: Answer)
    requires Matches(w) && Answers(AtTitle, a) && w.x.at == AtTitle
    requires NoFault(o, AfterTitle(o, w, false, a).world.calls)
    ensures Decides(AfterTitle(o, w, false, a), VerdictOn(w.x, a))
  {
    hide Record, RecordStopped;
    if a.TitleSet? && w.x.stop != NoStop { StopShows(o, w, Some(Prompt)); }
  }

  lemma PromptDecides(o: Oracle, w: World, a: Answer)
    requires Matches(w) && Answers(AtPrompt, a) && w.x.at == AtPrompt
    requires NoFault(o, AfterPrompt(o, w, false, a).world.calls)
    ensures Decides(AfterPrompt(o, w, false, a), VerdictOn(w.x, a))
  {
    hide Record, RecordStopped, JobExecution.Change;
    if a.PromptThrew? {
    } else if w.x.stop != NoStop || a.PromptAborted? {
      StopShows(o, w.(x := w.x.(stop := if w.x.stop == NoStop then AbortStop else w.x.stop)), Some(Prompt));
    } else if a.PromptFailed? {
      RecordShows(o, w, Status.Failed, Some(Code.PromptFailed), Some(Prompt));
    } else if a.PromptBroke? {
      RecordShows(o, w, Status.Failed, Some(a.error), Some(Prompt));
    } else if !w.x.hasPost {
      RecordShows(o, w, Succeeded, None, Some(Prompt));
    } else {
      CheckDecides(o, w, PostHook, a.post, AtPostHook);
    }
  }

  lemma BodyDecides(o: Oracle, w: World, a: Answer, x: Execution)
    requires ExecutionInv(x) && Suspended(x) && Answers(x.at, a) && w.x == x.(heard := x.heard + [a]) && Synced(w)
    requires NoFault(o, Body(o, w, false, a).world.calls)
    ensures Decides(Body(o, w, false, a), VerdictOn(x, a))
  {
    hide Synced, Matches, Decides, VerdictOn;
    SyncedMatches(w);
    SameVerdict(x, w.x, a);
    match x.at
    case AtPolicy => PolicyDecides(o, w, a);
    case AtCapacity => CapacityDecides(o, w, a);
    case AtPreHook => HookDecides(o, w, a, true);
    case AtConversation => ConversationDecides(o, w, a);
    case AtTitle => TitleDecides(o, w, a);
    case AtPrompt => PromptDecides(o, w, a);
    case AtPostHook => HookDecides(o, w, a, false);
  }

  lemma SyncedMatches(w: World)
    requires Synced(w)
    ensures Matches(w)
  {
  }

  lemma SameVerdict(x: Execution, y: Execution, a: Answer)
    requires y == x.(heard := y.heard)
    ensures VerdictOn(x, a) == VerdictOn(y, a)
  {
  }

  lemma CaughtShows(o: Oracle, w: World, code: Option<Code>)
    requires Matches(w) && NoFault(o, Caught(o, w, false, code).calls)
    ensures RowShows(Caught(o, w, false, code), Handled(w.x.stop, code))
  {
    hide Record, RecordStopped;
    if w.x.stop != NoStop {
      HoldsFewer(o, RecordStopped(o, w, false, w.x.phase).world.calls);
      StopShows(o, w, w.x.phase);
    } else {
      HoldsFewer(o, Record(o, w, false, Status.Failed, Some(Or(code, Code.PromptFailed)), w.x.phase).world.calls);
      RecordShows(o, w, Status.Failed, Some(Or(code, Code.PromptFailed)), w.x.phase);
    }
  }

  lemma ConcludeShows(cal: Calendar, o: Oracle, s: Stretch, verdict: Verdict)
    requires Decides(s, verdict) && NoFault(o, Conclude(o, s, false).calls)
    ensures var v := Conclude(o, s, false);
      && RowShows(v, verdict)
      && (if verdict.GoesOn? then v.x.at == verdict.next else v.x.at == AtRelease || v.x.at == Over)
  {
    hide Caught;
    if s.Throw? {
      CaughtShows(o, s.world, s.code);
    }
  }

  /** What the next stretch of an execution makes of its row, exactly: it ends with the status
      and the error of the verdict, or stays running and waits at the next point, if its
      repository calls go through and persistence is not sealed. */
  lemma StretchEndsExactly(cal: Calendar, o: Oracle, rows: Rows, x: Execution, calls: nat, a: Answer)
    requires ExecutionInv(x) && Suspended(x) && Answers(x.at, a) && Synced(World(rows, x, calls))
    requires NoFault(o, Resumed(o, rows, x, calls, false, a).calls)
    ensures var v := Resumed(o, rows, x, calls, false, a);
      && v.x.run == x.run && x.run in v.rows.runs && Shows(v.rows.runs[x.run], VerdictOn(x, a))
      && (if VerdictOn(x, a).GoesOn? then v.x.at == VerdictOn(x, a).next else v.x.at == AtRelease || v.x.at == Over)
  {
    hide JobExecution.Body, Conclude, VerdictOn, Shows;
    var w := World(rows, x.(heard := x.heard + [a]), calls);
    ConcludeCounts(cal, o, Body(o, w, false, a));
    BodyDecides(o, w, a, x);
    ConcludeShows(cal, o, Body(o, w, false, a), VerdictOn(x, a));
    StretchFacts(cal, o, rows, x, calls, false, a);
  }

  /** The same at every moment of every run: as long as no repository call has failed and
      persistence is not sealed, an answer to an execution whose row is still queued or
      running has exactly this effect on the row. */
  lemma EveryEndIsItsVerdict(cal: Calendar, o: Oracle, states: seq<System>, steps: seq<Step>, i: nat, r: Id)
    requires IsRun(cal, o, states, steps) && i < |steps| && IdsNeverRepeat(states, steps)
    requires steps[i].Answered? && steps[i].run == r
    requires r in states[i].rows.runs && states[i].rows.runs[r].status.Active()
    requires !states[i].sealed && NoFault(o, states[i + 1].calls)
    ensures r in states[i].executions && r in states[i + 1].executions && r in states[i + 1].rows.runs
    ensures var verdict := VerdictOn(states[i].executions[r], steps[i].a);
      && Shows(states[i + 1].rows.runs[r], verdict)
      && (verdict.GoesOn? ==> states[i + 1].executions[r].at == verdict.next)
  {
    hide Sound, VerdictOn, Shows, Resumed;
    RunIsTended(cal, o, states, steps, i);
    RunKeepsInv(cal, o, states, steps, i);
    var s, x, a := states[i], states[i].executions[r], steps[i].a;
    StretchFacts(cal, o, s.rows, x, s.calls, s.sealed, a);
    assert InStepOf(s.rows, x);
    StretchEndsExactly(cal, o, s.rows, x, s.calls, a);
  }
}
