/** Job definitions and their runs as rows, and every transaction on them. A refused
    transaction changes nothing. */
module JobRows {
  import opened Text
  import opened JobSchedule

  type Id = string

  datatype Definition = Definition(name: string, workspace: string, prompt: string, pre: Option<string>, post: Option<string>)

  datatype Job = Job(definition: Definition, schedule: Schedule, enabled: bool, nextRunAt: Option<int>, createdAt: int, updatedAt: int)

  datatype Trigger = Scheduled | CatchUp | Manual

  datatype Status = Queued | Running | Succeeded | Failed | Blocked | Skipped | Aborted | Interrupted {
    predicate Active() { Queued? || Running? }
  }

  datatype Phase = PreHook | Prompt | PostHook

  /** The error codes that the modelled code tells apart, and all others. */
  datatype Code =
    | JobAlreadyRunning | JobInterrupted | JobAborted | LiveRuntimeLimit | JobBusy | JobNotFound | JobInvalid
    | DatabaseError | ShuttingDown | PreRunFailed | PostRunFailed | PromptFailed | ScriptUnavailable
    | WorkspaceUnavailable | Other(name: string)

  datatype HookOutput = HookOutput(exitCode: Option<int>, stdout: string, stderr: string)

  datatype Run = Run(
    job: Id, trigger: Trigger, scheduledFor: int, status: Status, phase: Option<Phase>,
    startedAt: Option<int>, finishedAt: Option<int>, error: Option<Code>, conversation: Option<Id>,
    pre: Option<HookOutput>, post: Option<HookOutput>, revision: nat, createdAt: int, updatedAt: int)

  datatype Rows = Rows(jobs: map<Id, Job>, runs: map<Id, Run>)

  const NO_ROWS := Rows(map[], map[])

  /** Why a transaction was refused. `NotDue` stands for the null answer of a claim. */
  datatype Refusal = Invalid | NotFound | Busy | Disabled | RunActive | NotDue | Conflict

  datatype Result<T> = Ok(value: T) | Err(refusal: Refusal)

  predicate HasActive(s: Rows, job: Id) {
    exists r :: r in s.runs && s.runs[r].job == job && s.runs[r].status.Active()
  }

  // -------------------------------------------------------------------- definitions

  datatype Changes = Changes(
    name: Option<string>, workspace: Option<string>, prompt: Option<string>,
    pre: Option<Option<string>>, post: Option<Option<string>>,
    schedule: Option<ScheduleInput>, enabled: Option<bool>, acknowledged: bool)
  {
    predicate Empty() {
      name.None? && workspace.None? && prompt.None? && pre.None? && post.None? && schedule.None? && enabled.None?
    }
    predicate OnlyDisables() { this.(enabled := None).Empty() && enabled == Some(false) }
  }

  function Merged(d: Definition, c: Changes): Definition {
    Definition(Or(c.name, d.name), Or(c.workspace, d.workspace), Or(c.prompt, d.prompt), Or(c.pre, d.pre), Or(c.post, d.post))
  }

  const NAME_MAX_LENGTH := 200
  const PROMPT_MAX_LENGTH := 100_000

  function NormalName(name: string): Option<string> {
    var trimmed := Trim(name);
    if 1 <= |trimmed| <= NAME_MAX_LENGTH then Some(trimmed) else None
  }

  predicate ValidPrompt(prompt: string) {
    |prompt| <= PROMPT_MAX_LENGTH && exists k :: 0 <= k < |prompt| && !IsSpace(prompt[k])
  }

  /** What the file system answers for the hooks: their canonical paths. */
  datatype Checked = Checked(pre: string, post: string)

  /** The canonical form of a definition, if it is acceptable; `checked` is missing if its
      workspace or one of its hooks is not. */
  function CanonicalForm(d: Definition, checked: Option<Checked>): Option<Definition> {
    if checked.None? || NormalName(d.name).None? || !ValidPrompt(d.prompt) then None
    else
      Some(d.(name := NormalName(d.name).value,
              pre := if d.pre.Some? then Some(checked.value.pre) else None,
              post := if d.post.Some? then Some(checked.value.post) else None))
  }

  // A name and a prompt as they are stored.
  predicate Canonical(d: Definition) { NormalName(d.name) == Some(d.name) && ValidPrompt(d.prompt) }

  lemma CanonicalFormIsCanonical(d: Definition, checked: Option<Checked>)
    requires CanonicalForm(d, checked).Some?
    ensures Canonical(CanonicalForm(d, checked).value)
  {
    TrimmedEnds(d.name);
    TrimIdentity(Trim(d.name));
  }

  // Whether an edit gives host scripts more to run: only that needs an acknowledgement.
  predicate AuthorityChanged(from: Definition, to: Definition, c: Changes) {
    || (c.pre.Some? && to.pre != from.pre)
    || (c.post.Some? && to.post != from.post)
    || (c.workspace.Some? && to.workspace != from.workspace && (to.pre.Some? || to.post.Some?))
  }

  function CreateJob(cal: Calendar, s: Rows, id: Id, definition: Definition, checked: Option<Checked>, input: ScheduleInput,
                     enabled: bool, acknowledged: bool, now: int): Result<Rows>
  {
    var admitted := CanonicalForm(definition, checked);
    if !SafeTimestamp(now) || admitted.None? then Err(Invalid)
    else if (admitted.value.pre.Some? || admitted.value.post.Some?) != acknowledged then Err(Invalid)
    else
      var schedule := Establish(cal, input, now);
      if schedule.None? then Err(Invalid)
      else
        var next := if enabled then FirstOccurrenceAfter(cal, schedule.value, now) else None;
        if enabled && next.None? then Err(Invalid)
        else if id in s.jobs then Err(Conflict)
        else Ok(s.(jobs := s.jobs[id := Job(admitted.value, schedule.value, enabled, next, now, now)]))
  }

  // The schedule and next occurrence after an edit.
  function Rescheduled(cal: Calendar, job: Job, c: Changes, now: int): Option<(Schedule, Option<int>)> {
    var enabled := Or(c.enabled, job.enabled);
    var schedule := if c.schedule.Some? then Establish(cal, c.schedule.value, now) else Some(job.schedule);
    if schedule.None? then None
    else
      var next :=
        if !enabled then None
        else if c.schedule.Some? || !job.enabled then FirstOccurrenceAfter(cal, schedule.value, now)
        else job.nextRunAt;
      if enabled && next.None? then None else Some((schedule.value, next))
  }

  function UpdateJob(cal: Calendar, s: Rows, id: Id, c: Changes, checked: Option<Checked>, now: int): Result<Rows> {
    if c.Empty() || !SafeTimestamp(now) then Err(Invalid)
    else if id !in s.jobs then Err(NotFound)
    else
      var job := s.jobs[id];
      if HasActive(s, id) then
        if !c.OnlyDisables() then Err(Busy)
        else if c.acknowledged then Err(Invalid)
        else Ok(s.(jobs := s.jobs[id := job.(enabled := false, nextRunAt := None, updatedAt := now)]))
      else
        var admitted := CanonicalForm(Merged(job.definition, c), checked);
        if admitted.None? || AuthorityChanged(job.definition, admitted.value, c) != c.acknowledged then Err(Invalid)
        else
          var timing := Rescheduled(cal, job, c, now);
          if timing.None? then Err(Invalid)
          else Ok(s.(jobs := s.jobs[id := Job(admitted.value, timing.value.0, Or(c.enabled, job.enabled), timing.value.1, job.createdAt, now)]))
  }

  function RunsOfOthers(runs: map<Id, Run>, job: Id): map<Id, Run> { map r | r in runs && runs[r].job != job :: runs[r] }

  function DeleteJob(s: Rows, id: Id): Result<Rows> {
    if id !in s.jobs then Err(NotFound)
    else if HasActive(s, id) then Err(Busy)
    else Ok(Rows(s.jobs - {id}, RunsOfOthers(s.runs, id)))
  }

  // -------------------------------------------------------------------------- claims

  function QueuedRun(job: Id, trigger: Trigger, scheduledFor: int, now: int): Run {
    Run(job, trigger, scheduledFor, Queued, None, None, None, None, None, None, None, 0, now, now)
  }

  // An occurrence that comes while the job is still running is recorded, not run.
  function SkippedRun(job: Id, trigger: Trigger, scheduledFor: int, now: int): Run {
    QueuedRun(job, trigger, scheduledFor, now).(status := Skipped, finishedAt := Some(now), error := Some(JobAlreadyRunning))
  }

  function ClaimManual(s: Rows, id: Id, run: Id, now: int): Result<Rows> {
    if !SafeTimestamp(now) then Err(Invalid)
    else if id !in s.jobs then Err(NotFound)
    else if !s.jobs[id].enabled then Err(Disabled)
    else if HasActive(s, id) then Err(RunActive)
    else if run in s.runs then Err(Conflict)
    else Ok(s.(runs := s.runs[run := QueuedRun(id, Manual, now, now)]))
  }

  function ClaimScheduled(cal: Calendar, s: Rows, id: Id, run: Id, trigger: Trigger, now: int): Result<Rows> {
    if !SafeTimestamp(now) then Err(Invalid)
    else if id !in s.jobs then Err(NotFound)
    else
      var job := s.jobs[id];
      if !job.enabled || job.nextRunAt.None? || job.nextRunAt.value > now then Err(NotDue)
      else
        var following := AdvanceOccurrence(cal, job.schedule, job.nextRunAt.value, now);
        if following.None? then Err(Invalid)
        else if run in s.runs then Err(Conflict)
        else
          var claimed := if HasActive(s, id) then SkippedRun(id, trigger, job.nextRunAt.value, now)
                         else QueuedRun(id, trigger, job.nextRunAt.value, now);
          Ok(Rows(s.jobs[id := job.(nextRunAt := following, updatedAt := now)], s.runs[run := claimed]))
  }

  // ---------------------------------------------------------------- changes to a run

  datatype Change =
    | Start(phase: Option<Phase>)
    | SetPhase(next: Phase)
    | Attach(conversation: Id)
    | RecordHook(pre: bool, output: HookOutput)
    | Finish(status: Status, last: Option<Phase>, error: Option<Code>)
  {
    predicate WellFormed() { Finish? ==> !status.Active() && (status.Succeeded? <==> error.None?) }

    predicate Expects(current: Status) {
      match this
      case Start(_) => current.Queued?
      case Finish(status, _, _) => current.Running? || (current.Queued? && (status.Interrupted? || status.Skipped?))
      case _ => current.Running?
    }

    // What the row must hold besides its status.
    predicate Fits(r: Run) {
      match this
      case Attach(_) => r.conversation.None?
      case RecordHook(pre, _) => r.phase == Some(if pre then PreHook else PostHook)
      case _ => true
    }
  }

  function Changed(r: Run, c: Change, now: int): Run {
    var next := r.(revision := r.revision + 1, updatedAt := now);
    match c
    case Start(phase) => next.(status := Running, phase := phase, startedAt := Some(now))
    case SetPhase(phase) => next.(phase := Some(phase))
    case Attach(conversation) => next.(conversation := Some(conversation))
    case RecordHook(pre, output) => if pre then next.(pre := Some(output)) else next.(post := Some(output))
    case Finish(status, last, error) =>
      next.(status := status, phase := if last.Some? then last else r.phase, error := error, finishedAt := Some(now))
  }

  function ChangeRun(s: Rows, job: Id, run: Id, expected: Option<nat>, c: Change, now: int): Result<Rows> {
    if !SafeTimestamp(now) || !c.WellFormed() then Err(Invalid)
    else if run !in s.runs || s.runs[run].job != job then Err(NotFound)
    else
      var r := s.runs[run];
      if !c.Expects(r.status) || (expected.Some? && expected.value != r.revision) || !c.Fits(r) then Err(Busy)
      else Ok(s.(runs := s.runs[run := Changed(r, c, now)]))
  }

  function InterruptedRun(r: Run, now: int): Run {
    r.(status := Interrupted, error := Some(JobInterrupted), finishedAt := Some(now), revision := r.revision + 1, updatedAt := now)
  }

  function InterruptedIfActive(r: Run, now: int): Run { if r.status.Active() then InterruptedRun(r, now) else r }

  // The interruption of these rows alone.
  function InterruptedIn(runs: map<Id, Run>, these: set<Id>, now: int): map<Id, Run> {
    map r | r in runs :: if r in these then InterruptedRun(runs[r], now) else runs[r]
  }

  function InterruptAll(s: Rows, now: int): Result<Rows> {
    if !SafeTimestamp(now) then Err(Invalid)
    else Ok(s.(runs := map r | r in s.runs :: InterruptedIfActive(s.runs[r], now)))
  }

  // ---------------------------------------------------------------------- transactions

  datatype Transaction =
    | Create(id: Id, definition: Definition, checked: Option<Checked>, input: ScheduleInput, enabled: bool, acknowledged: bool, now: int)
    | Update(id: Id, changes: Changes, checked: Option<Checked>, now: int)
    | Delete(id: Id)
    | Manually(id: Id, run: Id, now: int)
    | OnTime(id: Id, run: Id, trigger: Trigger, now: int)
    | Mutate(id: Id, run: Id, expected: Option<nat>, change: Change, now: int)
    | Interrupt(now: int)
  {
    predicate WellFormed() { OnTime? ==> trigger != Manual }
  }

  function Transact(cal: Calendar, s: Rows, t: Transaction): Result<Rows> {
    match t
    case Create(id, definition, checked, input, enabled, acknowledged, now) => CreateJob(cal, s, id, definition, checked, input, enabled, acknowledged, now)
    case Update(id, changes, checked, now) => UpdateJob(cal, s, id, changes, checked, now)
    case Delete(id) => DeleteJob(s, id)
    case Manually(id, run, now) => ClaimManual(s, id, run, now)
    case OnTime(id, run, trigger, now) => ClaimScheduled(cal, s, id, run, trigger, now)
    case Mutate(id, run, expected, change, now) => ChangeRun(s, id, run, expected, change, now)
    case Interrupt(now) => InterruptAll(s, now)
  }

  function After(cal: Calendar, s: Rows, t: Transaction): Rows {
    var r := Transact(cal, s, t);
    if r.Ok? then r.value else s
  }

  // ------------------------------------------------------------------------ invariants

  predicate JobSound(cal: Calendar, job: Job) {
    && ValidSchedule(cal, job.schedule)
    && (job.enabled <==> job.nextRunAt.Some?)
    && (job.nextRunAt.Some? ==> SafeTimestamp(job.nextRunAt.value))
    && Canonical(job.definition)
  }

  /** The columns of a run agree: finished exactly when terminal, with an error exactly
      when it ended otherwise than in success, started if it ever ran, and untouched as
      long as it is queued. */
  predicate RunSound(r: Run) {
    && (r.finishedAt.Some? <==> !r.status.Active())
    && (r.error.Some? <==> !r.status.Active() && !r.status.Succeeded?)
    && (r.status.Queued? ==> r.startedAt.None? && r.revision == 0 && r.phase.None? && r.conversation.None?)
    && (r.status.Running? || r.status.Succeeded? || r.status.Failed? || r.status.Blocked? || r.status.Aborted? ==> r.startedAt.Some?)
  }

  predicate OneActive(runs: map<Id, Run>) {
    forall a, b :: a in runs && b in runs && runs[a].status.Active() && runs[b].status.Active() && runs[a].job == runs[b].job ==> a == b
  }

  predicate Owned(s: Rows) { forall r :: r in s.runs ==> s.runs[r].job in s.jobs }

  predicate JobsSound(cal: Calendar, jobs: map<Id, Job>) { forall j :: j in jobs ==> JobSound(cal, jobs[j]) }

  predicate RunsSound(runs: map<Id, Run>) { forall r :: r in runs ==> RunSound(runs[r]) }

  predicate Sound(cal: Calendar, s: Rows) {
    JobsSound(cal, s.jobs) && RunsSound(s.runs) && OneActive(s.runs) && Owned(s)
  }

  lemma InsertionKeepsRuns(runs: map<Id, Run>, id: Id, r: Run)
    requires RunsSound(runs) && OneActive(runs) && RunSound(r)
    requires r.status.Active() ==> forall k :: k in runs && k != id && runs[k].job == r.job ==> !runs[k].status.Active()
    ensures RunsSound(runs[id := r]) && OneActive(runs[id := r])
  {
  }

  lemma ChangeIsSound(r: Run, c: Change, now: int)
    requires RunSound(r) && c.WellFormed() && c.Expects(r.status)
    ensures RunSound(Changed(r, c, now))
  {
  }

  lemma TimingIsSound(cal: Calendar, job: Job, c: Changes, now: int)
    requires JobSound(cal, job)
    ensures var t := Rescheduled(cal, job, c, now); t.Some? ==>
      && ValidSchedule(cal, t.value.0) && (Or(c.enabled, job.enabled) <==> t.value.1.Some?)
      && (t.value.1.Some? ==> SafeTimestamp(t.value.1.value))
  {
  }

  /** Every transaction keeps the rows sound; in particular no job ever has two queued or
      running runs. */
  lemma TransactionKeepsSound(cal: Calendar, s: Rows, t: Transaction)
    requires Sound(cal, s)
    ensures Sound(cal, After(cal, s, t))
  {
    hide Sound, CanonicalForm, Canonical;
    match t
    case Create(id, definition, checked, input, enabled, acknowledged, now) => CreationKeepsSound(cal, s, t);
    case Delete(id) => DeletionKeepsSound(cal, s, id);
    case Update(id, changes, checked, now) => UpdateKeepsSound(cal, s, id, changes, checked, now);
    case Mutate(id, run, expected, change, now) => MutationKeepsSound(cal, s, t);
    case OnTime(id, run, trigger, now) => ClaimKeepsSound(cal, s, t);
    case Manually(id, run, now) => ClaimKeepsSound(cal, s, t);
    case Interrupt(now) => InterruptionKeepsSound(cal, s, now);
  }

  lemma CreationKeepsSound(cal: Calendar, s: Rows, t: Transaction)
    requires Sound(cal, s) && t.Create?
    ensures Sound(cal, After(cal, s, t))
  {
    hide CanonicalForm, Canonical;
    if CanonicalForm(t.definition, t.checked).Some? { CanonicalFormIsCanonical(t.definition, t.checked); }
  }

  lemma DeletionKeepsSound(cal: Calendar, s: Rows, id: Id)
    requires Sound(cal, s)
    ensures Sound(cal, After(cal, s, Delete(id)))
  {
    hide Canonical;
  }

  lemma UpdateKeepsSound(cal: Calendar, s: Rows, id: Id, c: Changes, checked: Option<Checked>, now: int)
    requires Sound(cal, s)
    ensures Sound(cal, After(cal, s, Update(id, c, checked, now)))
  {
    hide CanonicalForm, Canonical, Merged, AuthorityChanged;
    if id in s.jobs {
      TimingIsSound(cal, s.jobs[id], c, now);
      var merged := Merged(s.jobs[id].definition, c);
      if CanonicalForm(merged, checked).Some? { CanonicalFormIsCanonical(merged, checked); }
    }
  }

  lemma MutationKeepsSound(cal: Calendar, s: Rows, t: Transaction)
    requires Sound(cal, s) && t.Mutate?
    ensures Sound(cal, After(cal, s, t))
  {
    if Transact(cal, s, t).Ok? {
      var r := s.runs[t.run];
      ChangeIsSound(r, t.change, t.now);
      InsertionKeepsRuns(s.runs, t.run, Changed(r, t.change, t.now));
    }
  }

  lemma ClaimKeepsSound(cal: Calendar, s: Rows, t: Transaction)
    requires Sound(cal, s) && (t.Manually? || t.OnTime?)
    ensures Sound(cal, After(cal, s, t))
  {
    hide Canonical, RunsSound, OneActive;
    if Transact(cal, s, t).Ok? {
      InsertionKeepsRuns(s.runs, t.run, After(cal, s, t).runs[t.run]);
    }
  }

  lemma InterruptionKeepsSound(cal: Calendar, s: Rows, now: int)
    requires Sound(cal, s)
    ensures Sound(cal, After(cal, s, Interrupt(now)))
  {
    hide JobsSound;
  }

  // ---------------------------------------------------------- what one step does to a run

  /** A transaction leaves a run as it is, or was allowed to change it because it was
      still active and then raises its revision by one, or removes it with its job. */
  lemma RunStep(cal: Calendar, s: Rows, t: Transaction, r: Id)
    requires Sound(cal, s) && r in s.runs
    ensures var s' := After(cal, s, t);
      if r in s'.runs then
        s'.runs[r] == s.runs[r] ||
        (s.runs[r].status.Active() && s'.runs[r].revision == s.runs[r].revision + 1 &&
         s'.runs[r].job == s.runs[r].job && s'.runs[r].trigger == s.runs[r].trigger && s'.runs[r].scheduledFor == s.runs[r].scheduledFor)
      else t == Delete(s.runs[r].job) && !s.runs[r].status.Active()
  {
    hide CanonicalForm, Canonical, Merged, AuthorityChanged, Rescheduled, JobsSound;
  }

  /** A job with a queued or running run can be disabled, and nothing else: every other
      edit and the deletion are refused. */
  lemma ActiveJobCanOnlyBeDisabled(cal: Calendar, s: Rows, id: Id, c: Changes, checked: Option<Checked>, now: int)
    requires id in s.jobs && HasActive(s, id) && SafeTimestamp(now) && !c.Empty()
    ensures Transact(cal, s, Delete(id)) == Err(Busy)
    ensures var r := Transact(cal, s, Update(id, c, checked, now));
      && (r.Ok? <==> c == Changes(None, None, None, None, None, None, Some(false), false))
      && (r == Err(Busy) <==> c.(acknowledged := false) != Changes(None, None, None, None, None, None, Some(false), false))
      && (r.Ok? ==> r.value.runs == s.runs && !r.value.jobs[id].enabled && r.value.jobs[id].nextRunAt == None &&
                    r.value.jobs[id].definition == s.jobs[id].definition && r.value.jobs[id].schedule == s.jobs[id].schedule &&
                    r.value.jobs - {id} == s.jobs - {id})
  {
  }

  /** An edit of an idle job changes what it names and nothing else; names are trimmed, and
      hooks replaced by their canonical paths. */
  lemma EditFollowsChanges(cal: Calendar, s: Rows, id: Id, c: Changes, checked: Option<Checked>, now: int)
    requires Sound(cal, s) && id in s.jobs && !HasActive(s, id)
    ensures var r := Transact(cal, s, Update(id, c, checked, now)); r.Ok? ==>
      var d, e := s.jobs[id].definition, r.value.jobs[id].definition;
      && r.value.runs == s.runs && r.value.jobs - {id} == s.jobs - {id}
      && e.workspace == Or(c.workspace, d.workspace) && e.prompt == Or(c.prompt, d.prompt)
      && e.name == (if c.name.Some? then Trim(c.name.value) else d.name)
      && (e.pre.Some? <==> Or(c.pre, d.pre).Some?) && (e.post.Some? <==> Or(c.post, d.post).Some?)
      && r.value.jobs[id].enabled == Or(c.enabled, s.jobs[id].enabled)
  {
    assert JobSound(cal, s.jobs[id]);
  }

  /** A scheduled claim succeeds exactly if the job is enabled and due, has a following
      occurrence, and the identifier is new. Then the job moves on, and the occurrence that
      was due is recorded: queued, or, if the job is still running, skipped for that reason. */
  lemma ScheduledClaimExactly(cal: Calendar, s: Rows, id: Id, run: Id, trigger: Trigger, now: int)
    ensures var r := ClaimScheduled(cal, s, id, run, trigger, now);
      && (r.Ok? <==> SafeTimestamp(now) && id in s.jobs && s.jobs[id].enabled && s.jobs[id].nextRunAt.Some? && s.jobs[id].nextRunAt.value <= now
                     && AdvanceOccurrence(cal, s.jobs[id].schedule, s.jobs[id].nextRunAt.value, now).Some? && run !in s.runs)
      && (r == Err(NotDue) <==> SafeTimestamp(now) && id in s.jobs && !(s.jobs[id].enabled && s.jobs[id].nextRunAt.Some? && s.jobs[id].nextRunAt.value <= now))
      && (r.Ok? ==>
            var due, following := s.jobs[id].nextRunAt.value, AdvanceOccurrence(cal, s.jobs[id].schedule, s.jobs[id].nextRunAt.value, now);
            && r.value.jobs == s.jobs[id := s.jobs[id].(nextRunAt := following, updatedAt := now)]
            && r.value.runs == s.runs[run :=
                 if exists k :: k in s.runs && s.runs[k].job == id && s.runs[k].status in {Queued, Running}
                 then Run(id, trigger, due, Skipped, None, None, Some(now), Some(JobAlreadyRunning), None, None, None, 0, now, now)
                 else Run(id, trigger, due, Queued, None, None, None, None, None, None, None, 0, now, now)])
  {
    hide AdvanceOccurrence;
  }

  /** A manual claim succeeds exactly if the job is enabled and has no queued or running run,
      and the identifier is new; the schedule is left alone. */
  lemma ManualClaimExactly(s: Rows, id: Id, run: Id, now: int)
    ensures var r := ClaimManual(s, id, run, now);
      && (r.Ok? <==> SafeTimestamp(now) && id in s.jobs && s.jobs[id].enabled && run !in s.runs
                     && forall k :: k in s.runs && s.runs[k].job == id ==> s.runs[k].status !in {Queued, Running})
      && (r.Ok? ==> r.value == Rows(s.jobs, s.runs[run := Run(id, Manual, now, Queued, None, None, None, None, None, None, None, 0, now, now)]))
  {
  }

  /** A change of a run succeeds exactly if the run is in the status that the change starts
      from, at the revision that the caller knows, without a conversation if it is to get
      one, and in the phase of the hook whose output it is to get; and a run ends without an
      error exactly in success. Then it writes these columns of the row and no others. */
  lemma ChangeExactly(s: Rows, job: Id, run: Id, expected: Option<nat>, c: Change, now: int)
    ensures var r := ChangeRun(s, job, run, expected, c, now);
      && (r.Ok? <==>
            && SafeTimestamp(now) && run in s.runs && s.runs[run].job == job && (expected.Some? ==> expected.value == s.runs[run].revision)
            && var row := s.runs[run];
               match c
               case Start(_) => row.status == Queued
               case SetPhase(_) => row.status == Running
               case Attach(_) => row.status == Running && row.conversation == None
               case RecordHook(pre, _) => row.status == Running && row.phase == Some(if pre then PreHook else PostHook)
               case Finish(status, _, error) =>
                 && status !in {Queued, Running} && (status == Succeeded <==> error == None)
                 && (row.status == Running || (row.status == Queued && status in {Interrupted, Skipped})))
      && (r.Ok? ==>
            var row := s.runs[run];
            var next := row.(revision := row.revision + 1, updatedAt := now);
            && r.value.jobs == s.jobs
            && r.value.runs == s.runs[run :=
                 match c
                 case Start(phase) => next.(status := Running, phase := phase, startedAt := Some(now))
                 case SetPhase(phase) => next.(phase := Some(phase))
                 case Attach(conversation) => next.(conversation := Some(conversation))
                 case RecordHook(pre, output) => if pre then next.(pre := Some(output)) else next.(post := Some(output))
                 case Finish(status, last, error) =>
                   next.(status := status, error := error, finishedAt := Some(now), phase := if last == None then row.phase else last)])
  {
  }

  /** The interruption ends every queued or running run as interrupted, all at once, and
      touches nothing else. */
  lemma InterruptionExactly(s: Rows, now: int)
    ensures var r := InterruptAll(s, now);
      && (r.Ok? <==> SafeTimestamp(now))
      && (r.Ok? ==>
            && r.value.jobs == s.jobs && r.value.runs.Keys == s.runs.Keys
            && (forall k :: k in s.runs && s.runs[k].status !in {Queued, Running} ==> r.value.runs[k] == s.runs[k])
            && (forall k :: k in s.runs && s.runs[k].status in {Queued, Running} ==>
                  r.value.runs[k] == s.runs[k].(status := Interrupted, error := Some(JobInterrupted), finishedAt := Some(now),
                                                revision := s.runs[k].revision + 1, updatedAt := now)))
  {
  }

  /** A job is created exactly if its name has between 1 and 200 characters once trimmed, its
      prompt at most 100,000 and something to read among them, workspace and hooks pass their
      checks, host scripts are acknowledged if there are any and only then, the schedule is
      one and has a next occurrence if the job is enabled, and the identifier is new. */
  lemma CreatedExactlyWhen(
      cal: Calendar, s: Rows, id: Id, d: Definition, checked: Option<Checked>, input: ScheduleInput, enabled: bool, acknowledged: bool, now: int)
    ensures var r := Transact(cal, s, Create(id, d, checked, input, enabled, acknowledged, now));
      && (r.Ok? <==>
            && SafeTimestamp(now) && checked.Some? && id !in s.jobs
            && 1 <= |Trim(d.name)| <= 200 && |d.prompt| <= 100_000 && (exists k :: 0 <= k < |d.prompt| && !IsSpace(d.prompt[k]))
            && (acknowledged <==> d.pre.Some? || d.post.Some?)
            && Establish(cal, input, now).Some?
            && (enabled ==> FirstOccurrenceAfter(cal, Establish(cal, input, now).value, now).Some?))
      && (r.Ok? ==>
            && r.value.runs == s.runs && r.value.jobs - {id} == s.jobs - {id} && id in r.value.jobs
            && r.value.jobs[id] == Job(
                 Definition(Trim(d.name), d.workspace, d.prompt, if d.pre.Some? then Some(checked.value.pre) else None,
                            if d.post.Some? then Some(checked.value.post) else None),
                 Establish(cal, input, now).value, enabled,
                 if enabled then FirstOccurrenceAfter(cal, Establish(cal, input, now).value, now) else None, now, now))
  {
    hide Trim, IsSpace, Establish, FirstOccurrenceAfter;
  }

  /** An edit of an idle job that is acceptable otherwise is accepted exactly if it
      acknowledges host scripts when it must and only then: when it names a hook that is not
      the stored one, or a workspace that is not the stored one for a job with hooks. So an
      edit without the acknowledgement neither replaces a hook that it names nor moves the
      hooks to another workspace. */
  lemma AcknowledgedExactlyWhen(cal: Calendar, s: Rows, id: Id, c: Changes, checked: Option<Checked>, now: int)
    requires id in s.jobs && !HasActive(s, id) && !c.Empty() && SafeTimestamp(now)
    requires CanonicalForm(Merged(s.jobs[id].definition, c), checked).Some? && Rescheduled(cal, s.jobs[id], c, now).Some?
    ensures var r := Transact(cal, s, Update(id, c, checked, now));
      var d, e := s.jobs[id].definition, CanonicalForm(Merged(s.jobs[id].definition, c), checked).value;
      && (r.Ok? || r == Err(Invalid))
      && (r.Ok? && c.acknowledged ==>
            (c.pre.Some? && e.pre != d.pre) || (c.post.Some? && e.post != d.post) || (c.workspace.Some? && e.workspace != d.workspace))
      && (r.Ok? && !c.acknowledged ==>
            && r.value.jobs[id].definition == e
            && (c.pre.Some? ==> e.pre == d.pre) && (c.post.Some? ==> e.post == d.post)
            && (e.workspace != d.workspace ==> e.pre.None? && e.post.None?))
      && (r.Err? ==> Transact(cal, s, Update(id, c.(acknowledged := !c.acknowledged), checked, now)).Ok?)
  {
    hide CanonicalForm, Rescheduled, HasActive;
    var other := c.(acknowledged := !c.acknowledged);
    AcknowledgementAside(cal, s.jobs[id], c, other, now);
    assert CanonicalForm(Merged(s.jobs[id].definition, other), checked) == CanonicalForm(Merged(s.jobs[id].definition, c), checked);
    if c.workspace.None? { WorkspaceStays(s.jobs[id].definition, c, checked); }
  }

  // The acknowledgement is no part of what an edit changes.
  lemma AcknowledgementAside(cal: Calendar, job: Job, c: Changes, other: Changes, now: int)
    requires other == c.(acknowledged := other.acknowledged)
    ensures Merged(job.definition, other) == Merged(job.definition, c) && Rescheduled(cal, job, other, now) == Rescheduled(cal, job, c, now)
    ensures other.Empty() <==> c.Empty()
  {
  }

  lemma WorkspaceStays(d: Definition, c: Changes, checked: Option<Checked>)
    requires c.workspace.None? && CanonicalForm(Merged(d, c), checked).Some?
    ensures CanonicalForm(Merged(d, c), checked).value.workspace == d.workspace
  {
  }

  // ----------------------------------------------------------------------- whole histories

  /** A history of transactions, from no rows. Clock readings never go back. */
  ghost predicate IsHistory(cal: Calendar, states: seq<Rows>, ts: seq<Transaction>) {
    && |states| == |ts| + 1 && states[0] == NO_ROWS
    && (forall i :: 0 <= i < |ts| ==> ts[i].WellFormed() && states[i + 1] == After(cal, states[i], ts[i]))
  }

  ghost predicate ClockNeverGoesBack(ts: seq<Transaction>) {
    forall i, j :: 0 <= i < j < |ts| && !ts[i].Delete? && !ts[j].Delete? ==> ts[i].now <= ts[j].now
  }

  /** In every history each job has at most one queued or running run, `finished_at` is
      set exactly on terminal rows, and every run belongs to a job. */
  lemma {:induction false} HistoryIsSound(cal: Calendar, states: seq<Rows>, ts: seq<Transaction>, i: nat)
    requires IsHistory(cal, states, ts) && i <= |ts|
    ensures Sound(cal, states[i])
  {
    if i > 0 {
      HistoryIsSound(cal, states, ts, i - 1);
      TransactionKeepsSound(cal, states[i - 1], ts[i - 1]);
    }
  }

  /** A terminal row never changes again while its job exists. */
  lemma {:induction false} TerminalRowsAreFinal(cal: Calendar, states: seq<Rows>, ts: seq<Transaction>, i: nat, n: nat, r: Id)
    requires IsHistory(cal, states, ts) && i + n <= |ts|
    requires r in states[i].runs && !states[i].runs[r].status.Active()
    requires forall k :: i <= k < i + n ==> ts[k] != Delete(states[i].runs[r].job)
    ensures r in states[i + n].runs && states[i + n].runs[r] == states[i].runs[r]
    decreases n
  {
    hide Sound, Transact;
    if n > 0 {
      HistoryIsSound(cal, states, ts, i);
      RunStep(cal, states[i], ts[i], r);
      TerminalRowsAreFinal(cal, states, ts, i + 1, n - 1, r);
    }
  }

  // One step of a history raises the revision of a run exactly if it changes the run.
  lemma RevisionStep(cal: Calendar, states: seq<Rows>, ts: seq<Transaction>, i: nat, r: Id)
    requires IsHistory(cal, states, ts) && i < |ts| && r in states[i].runs && r in states[i + 1].runs
    ensures var before, after := states[i].runs[r], states[i + 1].runs[r];
      after.revision == before.revision + (if before == after then 0 else 1)
  {
    HistoryIsSound(cal, states, ts, i);
    RunStep(cal, states[i], ts[i], r);
  }

  /** Between two moments of its life, the revision of a run counts its changes: each
      raises it by exactly one. */
  lemma {:induction false} RevisionCountsChanges(cal: Calendar, states: seq<Rows>, ts: seq<Transaction>, i: nat, n: nat, r: Id)
    requires IsHistory(cal, states, ts) && i + n <= |ts|
    requires forall k :: i <= k <= i + n ==> r in states[k].runs
    ensures states[i + n].runs[r].revision == states[i].runs[r].revision + ChangesTo(states[i..i + n + 1], r)
    decreases n
  {
    if n > 0 {
      RevisionStep(cal, states, ts, i, r);
      RevisionCountsChanges(cal, states, ts, i + 1, n - 1, r);
      assert states[i..i + n + 1][1..] == states[i + 1..i + n + 1];
    }
  }

  // How many of the consecutive states differ in this run.
  function ChangesTo(states: seq<Rows>, r: Id): nat
    requires forall s :: s in states ==> r in s.runs
  {
    if |states| < 2 then 0
    else (if states[0].runs[r] == states[1].runs[r] then 0 else 1) + ChangesTo(states[1..], r)
  }

  // ------------------------------------------------------------------------- occurrences

  // This transaction claimed an occurrence of the job, scheduled for this instant.
  ghost predicate Claimed(cal: Calendar, s: Rows, t: Transaction, job: Id, scheduledFor: int) {
    && t.OnTime? && t.id == job && Transact(cal, s, t).Ok?
    && After(cal, s, t).runs[t.run].scheduledFor == scheduledFor
  }

  // Whatever is next for the job lies past this instant.
  predicate NextAfter(s: Rows, job: Id, t: int) {
    job in s.jobs && s.jobs[job].nextRunAt.Some? ==> t < s.jobs[job].nextRunAt.value
  }

  lemma TimingLooksAhead(cal: Calendar, job: Job, c: Changes, now: int)
    requires Advancing(cal)
    ensures var t := Rescheduled(cal, job, c, now);
      t.Some? && t.value.1.Some? ==> t.value.1 == job.nextRunAt || now < t.value.1.value
  {
    var schedule := if c.schedule.Some? then Establish(cal, c.schedule.value, now) else Some(job.schedule);
    if schedule.Some? { OccurrenceIsLater(cal, schedule.value, now); }
  }

  lemma StepLooksAhead(cal: Calendar, s: Rows, t: Transaction, job: Id, x: int)
    requires Advancing(cal) && NextAfter(s, job, x) && (!t.Delete? ==> x <= t.now)
    ensures NextAfter(After(cal, s, t), job, x)
  {
    match t
    case Create(id, definition, checked, input, enabled, acknowledged, now) =>
      var schedule := Establish(cal, input, now);
      if schedule.Some? { OccurrenceIsLater(cal, schedule.value, now); }
    case Update(id, c, checked, now) => if id in s.jobs { TimingLooksAhead(cal, s.jobs[id], c, now); }
    case OnTime(id, run, trigger, now) =>
      if id in s.jobs && s.jobs[id].nextRunAt.Some? {
        OccurrenceIsLater(cal, s.jobs[id].schedule, Later(s.jobs[id].nextRunAt.value, now));
      }
    case _ =>
  }

  lemma {:induction false} HistoryLooksAhead(cal: Calendar, states: seq<Rows>, ts: seq<Transaction>, i: nat, n: nat, job: Id, x: int)
    requires Advancing(cal) && IsHistory(cal, states, ts) && i + n <= |ts|
    requires NextAfter(states[i], job, x)
    requires forall k :: i <= k < i + n && !ts[k].Delete? ==> x <= ts[k].now
    ensures NextAfter(states[i + n], job, x)
    decreases n
  {
    if n > 0 {
      StepLooksAhead(cal, states[i], ts[i], job, x);
      HistoryLooksAhead(cal, states, ts, i + 1, n - 1, job, x);
    }
  }

  /** The occurrences claimed for a job strictly increase, through any claims, edits,
      disables, re-enables, and even deletion and re-creation in between: no occurrence
      is claimed twice. */
  lemma OccurrencesIncrease(cal: Calendar, states: seq<Rows>, ts: seq<Transaction>, i: nat, j: nat, job: Id, x: int, y: int)
    requires Advancing(cal) && IsHistory(cal, states, ts) && ClockNeverGoesBack(ts) && i < j < |ts|
    requires Claimed(cal, states[i], ts[i], job, x) && Claimed(cal, states[j], ts[j], job, y)
    ensures x < y
  {
    var next := states[i].jobs[job];
    OccurrenceIsLater(cal, next.schedule, Later(next.nextRunAt.value, ts[i].now));
    assert NextAfter(states[i + 1], job, x);
    HistoryLooksAhead(cal, states, ts, i + 1, j - i - 1, job, x);
  }

  // ---------------------------------------------------------------------------- no drift

  ghost predicate NextOnSchedule(job: Job) { job.nextRunAt.Some? ==> OnSchedule(job.schedule, job.nextRunAt.value) }

  ghost predicate AllOnSchedule(s: Rows) { forall j :: j in s.jobs ==> NextOnSchedule(s.jobs[j]) }

  lemma StepStaysOnSchedule(cal: Calendar, s: Rows, t: Transaction)
    requires AllOnSchedule(s)
    ensures AllOnSchedule(After(cal, s, t))
  {
    match t
    case Create(id, definition, checked, input, enabled, acknowledged, now) =>
      var schedule := Establish(cal, input, now);
      if schedule.Some? { OccurrenceOnSchedule(cal, schedule.value, now); }
    case Update(id, c, checked, now) =>
      if id in s.jobs {
        var job := s.jobs[id];
        var schedule := if c.schedule.Some? then Establish(cal, c.schedule.value, now) else Some(job.schedule);
        if schedule.Some? { OccurrenceOnSchedule(cal, schedule.value, now); }
      }
    case OnTime(id, run, trigger, now) =>
      if id in s.jobs && s.jobs[id].nextRunAt.Some? {
        OccurrenceOnSchedule(cal, s.jobs[id].schedule, Later(s.jobs[id].nextRunAt.value, now));
      }
    case _ =>
  }

  /** However late its claims come and however many periods they miss, an interval job
      never leaves the lattice of its anchor: every claim is for a point of it. */
  lemma {:induction false} ClaimsNeverDrift(cal: Calendar, states: seq<Rows>, ts: seq<Transaction>, i: nat)
    requires IsHistory(cal, states, ts) && i <= |ts|
    ensures AllOnSchedule(states[i])
    ensures i < |ts| ==> forall job, x :: Claimed(cal, states[i], ts[i], job, x) ==> OnSchedule(states[i].jobs[job].schedule, x)
  {
    if i > 0 {
      ClaimsNeverDrift(cal, states, ts, i - 1);
      StepStaysOnSchedule(cal, states[i - 1], ts[i - 1]);
    }
  }
}
