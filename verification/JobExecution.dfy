/** One execution of a claimed run, cut at its awaits. What happens between two awaits is
    one stretch: a function from what the awaited call answered to the rows, the state of
    the execution and the await it stops at next. Every repository call inside a stretch
    may fail. */
module JobExecution {
  import opened Text
  import opened JobSchedule
  import opened JobRows

  datatype Stop = NoStop | AbortStop | ShutdownStop

  /** A capacity lease: settled by promotion or release, once. */
  datatype Lease = NoLease | Held | Promoted | Released

  /** The await an execution is suspended at. */
  datatype Point =
    | AtPolicy | AtCapacity | AtPreHook | AtConversation | AtTitle | AtPrompt | AtPostHook | AtRelease | Over

  datatype Admission = Admitted | Denied(code: Option<Code>)

  // What an awaited call may answer, with the answers of the script checks that follow it.
  datatype Answer =
    | PolicyUsable(pre: Admission, post: Admission)
    | PolicyRefused(code: Option<Code>)
    | CapacityGranted(pre: Admission)
    | CapacityRefused(code: Option<Code>)
    | HookRan(output: HookOutput, succeeded: bool, code: Option<Code>)
    | HookThrew(code: Option<Code>)
    | ConversationCreated(id: Id, titleFormats: bool)
    | ConversationRefused(code: Option<Code>, leaseReleased: bool)
    | TitleSet
    | TitleRefused(code: Option<Code>)
    | PromptSucceeded(post: Admission)
    | PromptAborted
    | PromptFailed
    | PromptBroke(error: Code)
    | PromptThrew(code: Option<Code>)
    | ConversationReleased

  predicate Answers(at: Point, a: Answer) {
    match at
    case AtPolicy => a.PolicyUsable? || a.PolicyRefused?
    case AtCapacity => a.CapacityGranted? || a.CapacityRefused?
    case AtPreHook => a.HookRan? || a.HookThrew?
    case AtConversation => a.ConversationCreated? || a.ConversationRefused?
    case AtTitle => a.TitleSet? || a.TitleRefused?
    case AtPrompt => a.PromptSucceeded? || a.PromptAborted? || a.PromptFailed? || a.PromptBroke? || a.PromptThrew?
    case AtPostHook => a.HookRan? || a.HookThrew?
    case AtRelease => a.ConversationReleased?
    case Over => false
  }

  /** `revision` and `phase` are the execution's own copy of its row. `heard` is the
      history of all answers; `settlements` and `releases` count what was done to the
      lease and to the conversation. */
  datatype Execution = Execution(
    job: Id, run: Id, hasPre: bool, hasPost: bool, at: Point, stop: Stop, revision: nat, phase: Option<Phase>,
    lease: Lease, conversation: Option<Id>, heard: seq<Answer>, settlements: nat, releases: nat)

  function Launched(job: Id, run: Id, hasPre: bool, hasPost: bool): Execution {
    Execution(job, run, hasPre, hasPost, AtPolicy, NoStop, 0, None, NoLease, None, [], 0, 0)
  }

  /** Which repository calls fail, and what the clock reads, by number of the call. */
  datatype Oracle = Oracle(fails: nat -> bool, clock: nat -> int)

  datatype World = World(rows: Rows, x: Execution, calls: nat)

  datatype Outcome = Went(world: World) | Threw(world: World, code: Option<Code>)

  // ---------------------------------------------------------------- repository calls

  function CodeOf(refusal: Refusal): Code {
    match refusal
    case Invalid => JobInvalid
    case NotFound => JobNotFound
    case Busy => JobBusy
    case Disabled => JobInvalid
    case RunActive => JobAlreadyRunning
    case NotDue => JobInvalid
    case Conflict => DatabaseError
  }

  // The execution takes over what its row says.
  function Adopted(x: Execution, r: Run): Execution { x.(revision := r.revision, phase := r.phase) }

  function Change(o: Oracle, w: World, c: JobRows.Change): (r: Outcome) {
    var counted := w.(calls := w.calls + 1);
    if o.fails(w.calls) then Threw(counted, Some(DatabaseError))
    else
      match ChangeRun(w.rows, w.x.job, w.x.run, Some(w.x.revision), c, o.clock(w.calls))
      case Err(refusal) => Threw(counted, Some(CodeOf(refusal)))
      case Ok(rows) => Went(World(rows, Adopted(w.x, rows.runs[w.x.run]), w.calls + 1))
  }

  // `getRun`, adopted only if the run is terminal.
  function Reread(o: Oracle, w: World): Outcome {
    var counted := w.(calls := w.calls + 1);
    if o.fails(w.calls) then Threw(counted, Some(DatabaseError))
    else if w.x.run !in w.rows.runs || w.rows.runs[w.x.run].job != w.x.job then Threw(counted, Some(JobNotFound))
    else if w.rows.runs[w.x.run].status.Active() then Threw(counted, Some(JobBusy))
    else Went(World(w.rows, Adopted(w.x, w.rows.runs[w.x.run]), w.calls + 1))
  }

  function Record(o: Oracle, w: World, sealed: bool, status: Status, error: Option<Code>, phase: Option<Phase>): Outcome {
    if sealed then Went(w)
    else
      var r := Change(o, w, Finish(status, phase, error));
      if r.Threw? && r.code == Some(JobBusy) then Reread(o, r.world) else r
  }

  function RecordStopped(o: Oracle, w: World, sealed: bool, phase: Option<Phase>): Outcome {
    if w.x.stop.ShutdownStop? then Record(o, w, sealed, Interrupted, Some(JobInterrupted), phase)
    else Record(o, w, sealed, Aborted, Some(JobAborted), phase)
  }

  // ------------------------------------------------------------------- how stretches end

  datatype Stretch = Suspend(world: World, at: Point) | Return(world: World) | Throw(world: World, code: Option<Code>)

  function Ending(r: Outcome): Stretch {
    match r
    case Went(w) => Return(w)
    case Threw(w, code) => Throw(w, code)
  }

  function Settled(x: Execution, to: Lease): Execution {
    if x.lease.Held? then x.(lease := to, settlements := x.settlements + 1) else x
  }

  // The handler around the whole execution.
  function Caught(o: Oracle, w: World, sealed: bool, code: Option<Code>): World {
    if sealed then w
    else
      var r := if w.x.stop != NoStop then RecordStopped(o, w, sealed, w.x.phase)
               else Record(o, w, sealed, Status.Failed, Some(Or(code, Code.PromptFailed)), w.x.phase);
      if r.Threw? then r.world.(calls := r.world.calls + 1) else r.world
  }

  // The `finally` around everything: the lease, and then the conversation.
  function Leave(w: World): World {
    var x := Settled(w.x, Released);
    w.(x := if x.conversation.Some? then x.(at := AtRelease, releases := x.releases + 1) else x.(at := Over))
  }

  function Conclude(o: Oracle, s: Stretch, sealed: bool): World {
    match s
    case Suspend(w, at) => w.(x := w.x.(at := at))
    case Return(w) => Leave(w)
    case Throw(w, code) => Leave(Caught(o, w, sealed, code))
  }

  // --------------------------------------------------------------------- the stretches

  function Start(o: Oracle, w: World, sealed: bool): Stretch {
    match Change(o, w, JobRows.Start(None))
    case Threw(v, code) => Throw(v, code)
    case Went(v) => if sealed then Return(v) else Suspend(v, AtPolicy)
  }

  function AfterPolicy(o: Oracle, w: World, sealed: bool, a: Answer): Stretch
    requires Answers(AtPolicy, a)
  {
    if sealed then Return(w)
    else if w.x.stop != NoStop then Ending(RecordStopped(o, w, sealed, w.x.phase))
    else if a.PolicyRefused? then Ending(Record(o, w, sealed, Blocked, Some(Or(a.code, WorkspaceUnavailable)), None))
    else if w.x.hasPre && a.pre.Denied? then
      Ending(Record(o, w, sealed, Blocked, Some(Or(a.pre.code, ScriptUnavailable)), Some(PreHook)))
    else if w.x.hasPost && a.post.Denied? then
      Ending(Record(o, w, sealed, Blocked, Some(Or(a.post.code, ScriptUnavailable)), Some(PostHook)))
    else Suspend(w, AtCapacity)
  }

  function AfterCapacity(o: Oracle, w: World, sealed: bool, a: Answer): Stretch
    requires Answers(AtCapacity, a)
  {
    if a.CapacityRefused? then
      if sealed then Return(w)
      else if w.x.stop != NoStop || a.code == Some(ShuttingDown) then Ending(RecordStopped(o, w, sealed, w.x.phase))
      else
        var status := if a.code == Some(LiveRuntimeLimit) then Skipped else Status.Failed;
        Ending(Record(o, w, sealed, status, Some(Or(a.code, LiveRuntimeLimit)), None))
    else
      var v := w.(x := w.x.(lease := Held));
      if sealed then Return(v)
      else if v.x.stop != NoStop then Ending(RecordStopped(o, v, sealed, v.x.phase))
      else if v.x.hasPre then
        match Change(o, v, SetPhase(PreHook))
        case Threw(u, code) => Throw(u, code)
        case Went(u) =>
          if a.pre.Denied? then Ending(Record(o, u, sealed, Blocked, Some(Or(a.pre.code, ScriptUnavailable)), Some(PreHook)))
          else Suspend(u, AtPreHook)
      else ToPrompt(o, v, sealed)
  }

  function ToPrompt(o: Oracle, w: World, sealed: bool): Stretch {
    match Change(o, w, SetPhase(Prompt))
    case Threw(v, code) => Throw(v, code)
    case Went(v) =>
      if v.x.stop != NoStop then Ending(RecordStopped(o, v, sealed, Some(Prompt))) else Suspend(v, AtConversation)
  }

  // A hook that was itself stopped makes the execution stop for the same reason.
  function WithHookStop(x: Execution, code: Option<Code>): Execution {
    if x.stop != NoStop then x
    else if code == Some(JobInterrupted) then x.(stop := ShutdownStop)
    else if code == Some(JobAborted) then x.(stop := AbortStop)
    else x
  }

  // What both hooks share: record the output, then stop, fail or go on.
  function AfterHook(o: Oracle, w: World, sealed: bool, a: Answer, pre: bool): Stretch
    requires Answers(AtPreHook, a)
  {
    var phase := Some(if pre then PreHook else PostHook);
    if a.HookThrew? then Throw(w, a.code)
    else if sealed then Return(w)
    else
      match Change(o, w, RecordHook(pre, a.output))
      case Threw(v, code) => Throw(v, code)
      case Went(v) =>
        var u := v.(x := WithHookStop(v.x, a.code));
        if u.x.stop != NoStop then Ending(RecordStopped(o, u, sealed, phase))
        else if !a.succeeded then
          Ending(Record(o, u, sealed, Status.Failed, Some(Or(a.code, if pre then PreRunFailed else PostRunFailed)), phase))
        else if pre then ToPrompt(o, u, sealed)
        else Ending(Record(o, u, sealed, Succeeded, None, phase))
  }

  function AfterConversation(o: Oracle, w: World, sealed: bool, a: Answer): Stretch
    requires Answers(AtConversation, a)
  {
    if a.ConversationRefused? then
      var v := w.(x := if a.leaseReleased then Settled(w.x, Released) else w.x);
      if sealed then Return(v)
      else if v.x.stop != NoStop then Ending(RecordStopped(o, v, sealed, Some(Prompt)))
      else Ending(Record(o, v, sealed, Status.Failed, Some(Or(a.code, Code.PromptFailed)), Some(Prompt)))
    else
      var v := w.(x := Settled(w.x, Promoted).(conversation := Some(a.id)));
      if sealed then Return(v)
      else
        match Change(o, v, Attach(a.id))
        case Threw(u, code) => Throw(u, code)
        case Went(u) => if a.titleFormats then Suspend(u, AtTitle) else Throw(u, Some(JobInvalid))
  }

  function AfterTitle(o: Oracle, w: World, sealed: bool, a: Answer): Stretch
    requires Answers(AtTitle, a)
  {
    if a.TitleRefused? then Throw(w, a.code)
    else if sealed then Return(w)
    else if w.x.stop != NoStop then Ending(RecordStopped(o, w, sealed, Some(Prompt)))
    else Suspend(w, AtPrompt)
  }

  function AfterPrompt(o: Oracle, w: World, sealed: bool, a: Answer): Stretch
    requires Answers(AtPrompt, a)
  {
    if a.PromptThrew? then Throw(w, a.code)
    else if sealed then Return(w)
    else if w.x.stop != NoStop || a.PromptAborted? then
      var v := w.(x := w.x.(stop := if w.x.stop == NoStop then AbortStop else w.x.stop));
      Ending(RecordStopped(o, v, sealed, Some(Prompt)))
    else if a.PromptFailed? then Ending(Record(o, w, sealed, Status.Failed, Some(Code.PromptFailed), Some(Prompt)))
    else if a.PromptBroke? then Ending(Record(o, w, sealed, Status.Failed, Some(a.error), Some(Prompt)))
    else if !w.x.hasPost then Ending(Record(o, w, sealed, Succeeded, None, Some(Prompt)))
    else
      match Change(o, w, SetPhase(PostHook))
      case Threw(v, code) => Throw(v, code)
      case Went(v) =>
        if a.post.Denied? then Ending(Record(o, v, sealed, Blocked, Some(Or(a.post.code, ScriptUnavailable)), Some(PostHook)))
        else Suspend(v, AtPostHook)
  }

  function Body(o: Oracle, w: World, sealed: bool, a: Answer): Stretch
    requires Answers(w.x.at, a) && !w.x.at.AtRelease?
  {
    match w.x.at
    case AtPolicy => AfterPolicy(o, w, sealed, a)
    case AtCapacity => AfterCapacity(o, w, sealed, a)
    case AtPreHook => AfterHook(o, w, sealed, a, true)
    case AtConversation => AfterConversation(o, w, sealed, a)
    case AtTitle => AfterTitle(o, w, sealed, a)
    case AtPrompt => AfterPrompt(o, w, sealed, a)
    case AtPostHook => AfterHook(o, w, sealed, a, false)
  }

  /** The dispatch of a claimed run, up to its first await. */
  function Begun(o: Oracle, rows: Rows, x: Execution, calls: nat, sealed: bool): World {
    Conclude(o, Start(o, World(rows, x, calls), sealed), sealed)
  }

  // What the release of the conversation answers makes no difference to anything.
  function Hearing(x: Execution, a: Answer): Execution { if x.at.AtRelease? then x else x.(heard := x.heard + [a]) }

  /** An awaited call answers, and the execution runs on to its next await. */
  function Resumed(o: Oracle, rows: Rows, x: Execution, calls: nat, sealed: bool, a: Answer): World
    requires Answers(x.at, a)
  {
    var w := World(rows, Hearing(x, a), calls);
    if x.at.AtRelease? then w.(x := w.x.(at := Over)) else Conclude(o, Body(o, w, sealed, a), sealed)
  }

  // ------------------------------------------------- the course of a good execution

  predicate Permits(needed: bool, a: Admission) { needed ==> a.Admitted? }

  predicate GoodHook(a: Answer) {
    a.HookRan? && a.succeeded && a.code != Some(JobInterrupted) && a.code != Some(JobAborted)
  }

  /** The answer lets the execution go on. */
  predicate Good(hasPre: bool, hasPost: bool, at: Point, a: Answer) {
    match at
    case AtPolicy => a.PolicyUsable? && Permits(hasPre, a.pre) && Permits(hasPost, a.post)
    case AtCapacity => a.CapacityGranted? && Permits(hasPre, a.pre)
    case AtPreHook => GoodHook(a)
    case AtConversation => a.ConversationCreated? && a.titleFormats
    case AtTitle => a.TitleSet?
    case AtPrompt => a.PromptSucceeded? && Permits(hasPost, a.post)
    case AtPostHook => GoodHook(a)
    case _ => false
  }

  /** Everything a run goes through, in order: a configured hook is never left out. */
  function Course(hasPre: bool, hasPost: bool): seq<Point> {
    [AtPolicy, AtCapacity] + (if hasPre then [AtPreHook] else []) + [AtConversation, AtTitle, AtPrompt] +
    (if hasPost then [AtPostHook] else [])
  }

  predicate AllGood(hasPre: bool, hasPost: bool, heard: seq<Answer>) {
    && |heard| <= |Course(hasPre, hasPost)|
    && forall i :: 0 <= i < |heard| ==> Good(hasPre, hasPost, Course(hasPre, hasPost)[i], heard[i])
  }

  // Every stage of the course has been heard from, and each answer was good.
  predicate Passed(x: Execution) { |x.heard| == |Course(x.hasPre, x.hasPost)| && AllGood(x.hasPre, x.hasPost, x.heard) }

  predicate Suspended(x: Execution) { x.at != AtRelease && x.at != Over }

  predicate OnCourse(x: Execution) {
    |x.heard| < |Course(x.hasPre, x.hasPost)| && Course(x.hasPre, x.hasPost)[|x.heard|] == x.at && AllGood(x.hasPre, x.hasPost, x.heard)
  }

  /** The lease and the conversation, by the await the execution is at: the lease is
      settled once when it is over, and the conversation released once. */
  predicate ResourcesFit(x: Execution) {
    match x.at
    case AtPolicy => x.lease == NoLease && x.settlements == 0 && x.conversation.None? && x.releases == 0
    case AtCapacity => x.lease == NoLease && x.settlements == 0 && x.conversation.None? && x.releases == 0
    case AtPreHook => x.lease == Held && x.settlements == 0 && x.conversation.None? && x.releases == 0
    case AtConversation => x.lease == Held && x.settlements == 0 && x.conversation.None? && x.releases == 0
    case AtRelease => x.lease == Promoted && x.settlements == 1 && x.conversation.Some? && x.releases == 1
    case Over =>
      && x.lease != Held && x.settlements == (if x.lease == NoLease then 0 else 1)
      && (x.lease == Promoted <==> x.conversation.Some?) && x.releases == (if x.conversation.Some? then 1 else 0)
    case _ => x.lease == Promoted && x.settlements == 1 && x.conversation.Some? && x.releases == 0
  }

  predicate ExecutionInv(x: Execution) { (Suspended(x) ==> OnCourse(x)) && ResourcesFit(x) }

  // ------------------------------------------------------------- what a stretch can do

  function StatusIn(w: World): Option<Status> {
    if w.x.run in w.rows.runs then Some(w.rows.runs[w.x.run].status) else None
  }

  predicate Terminal(w: World) { StatusIn(w).Some? && !StatusIn(w).value.Active() }

  // The run ends, if it does, with one of these statuses, and never changes after that.
  predicate EndsIn(w: World, v: World, verdicts: set<Status>) {
    && (Terminal(w) ==> v.rows == w.rows)
    && (!Terminal(w) && Terminal(v) ==> StatusIn(v).value in verdicts)
  }

  predicate SameRun(x: Execution, y: Execution) {
    y.job == x.job && y.run == x.run && y.hasPre == x.hasPre && y.hasPost == x.hasPost && y.heard == x.heard
  }

  // Nothing but the row of this run is touched, and the rows stay sound.
  ghost predicate Local(cal: Calendar, w: World, v: World) {
    && SameRun(w.x, v.x) && w.calls <= v.calls
    && v.rows.jobs == w.rows.jobs && v.rows.runs.Keys == w.rows.runs.Keys
    && (forall r :: r in w.rows.runs && r != w.x.run ==> v.rows.runs[r] == w.rows.runs[r])
    && (Sound(cal, w.rows) ==> Sound(cal, v.rows))
  }

  predicate OnlyCopied(x: Execution, y: Execution) { y == x.(revision := y.revision, phase := y.phase) }

  lemma ChangeFacts(cal: Calendar, o: Oracle, w: World, c: JobRows.Change)
    requires c.WellFormed()
    ensures var v := Change(o, w, c).world;
      Local(cal, w, v) && OnlyCopied(w.x, v.x) && EndsIn(w, v, if c.Finish? then {c.status} else {})
  {
    RowChangeFacts(w.rows, w.x.job, w.x.run, w.x.revision, c, o.clock(w.calls));
    RowChangeKeepsSound(cal, w.rows, w.x.job, w.x.run, w.x.revision, c, o.clock(w.calls));
  }

  lemma RowChangeKeepsSound(cal: Calendar, rows: Rows, job: Id, run: Id, revision: nat, c: JobRows.Change, now: int)
    ensures var r := ChangeRun(rows, job, run, Some(revision), c, now); Sound(cal, rows) && r.Ok? ==> Sound(cal, r.value)
  {
    hide Sound;
    if Sound(cal, rows) { MutationKeepsSound(cal, rows, Mutate(job, run, Some(revision), c, now)); }
  }

  lemma RowChangeFacts(rows: Rows, job: Id, run: Id, revision: nat, c: JobRows.Change, now: int)
    requires c.WellFormed()
    ensures var r := ChangeRun(rows, job, run, Some(revision), c, now); r.Ok? ==>
      && run in rows.runs && rows.runs[run].status.Active() && run in r.value.runs
      && r.value == rows.(runs := rows.runs[run := r.value.runs[run]])
      && (if c.Finish? then r.value.runs[run].status == c.status else r.value.runs[run].status.Active())
  {
  }

  lemma RecordFacts(cal: Calendar, o: Oracle, w: World, sealed: bool, status: Status, error: Option<Code>, phase: Option<Phase>)
    requires !status.Active() && (status.Succeeded? <==> error.None?)
    ensures var v := Record(o, w, sealed, status, error, phase).world;
      Local(cal, w, v) && OnlyCopied(w.x, v.x) && EndsIn(w, v, {status})
  {
    ChangeFacts(cal, o, w, Finish(status, phase, error));
  }

  function StopVerdict(stop: Stop): Status { if stop.ShutdownStop? then Interrupted else Aborted }

  lemma RecordStoppedFacts(cal: Calendar, o: Oracle, w: World, sealed: bool, phase: Option<Phase>)
    ensures var v := RecordStopped(o, w, sealed, phase).world;
      Local(cal, w, v) && OnlyCopied(w.x, v.x) && EndsIn(w, v, {StopVerdict(w.x.stop)})
  {
    if w.x.stop.ShutdownStop? { RecordFacts(cal, o, w, sealed, Interrupted, Some(JobInterrupted), phase); }
    else { RecordFacts(cal, o, w, sealed, Aborted, Some(JobAborted), phase); }
  }

  lemma CaughtFacts(cal: Calendar, o: Oracle, w: World, sealed: bool, code: Option<Code>)
    ensures var v := Caught(o, w, sealed, code);
      && Local(cal, w, v) && OnlyCopied(w.x, v.x)
      && EndsIn(w, v, {if w.x.stop != NoStop then StopVerdict(w.x.stop) else Status.Failed})
  {
    RecordStoppedFacts(cal, o, w, sealed, w.x.phase);
    RecordFacts(cal, o, w, sealed, Status.Failed, Some(Or(code, Code.PromptFailed)), w.x.phase);
  }

  // ------------------------------------------------------------------------- verdicts

  predicate Refusing(a: Answer) {
    a.PolicyRefused? || (a.PolicyUsable? && (a.pre.Denied? || a.post.Denied?)) || (a.CapacityGranted? && a.pre.Denied?) ||
    (a.PromptSucceeded? && a.post.Denied?)
  }

  /** The statuses an execution may record, by what it heard last and whether it was told
      to stop. A stop overrides everything, and success needs every stage. */
  function Verdicts(x: Execution): set<Status> {
    if x.stop != NoStop then {StopVerdict(x.stop)}
    else if x.heard == [] then {Status.Failed}
    else
      var last := x.heard[|x.heard| - 1];
      {Status.Failed} + (if Refusing(last) then {Blocked} else {})
        + (if last == CapacityRefused(Some(LiveRuntimeLimit)) then {Skipped} else {})
        + (if last == CapacityRefused(Some(ShuttingDown)) then {Aborted} else {})
        + (if Passed(x) then {Succeeded} else {})
  }

  // A stretch from `w` stays within the verdicts of the execution it leaves behind.
  ghost predicate Judged(cal: Calendar, w: World, v: World) {
    && Local(cal, w, v) && EndsIn(w, v, Verdicts(v.x))
    && (w.x.stop != NoStop ==> v.x.stop == w.x.stop)
  }

  // A step that ends nothing, and changes the execution only in what it holds.
  ghost predicate Goes(cal: Calendar, w: World, v: World) {
    Local(cal, w, v) && EndsIn(w, v, {}) && (w.x.stop != NoStop ==> v.x.stop == w.x.stop)
  }

  lemma Chained(cal: Calendar, w: World, v: World, u: World)
    requires Goes(cal, w, v) && Judged(cal, v, u)
    ensures Judged(cal, w, u)
  {
  }

  lemma ChangeGoes(cal: Calendar, o: Oracle, w: World, c: JobRows.Change)
    requires !c.Finish?
    ensures var v := Change(o, w, c).world; Goes(cal, w, v) && Judged(cal, w, v) && OnlyCopied(w.x, v.x)
  {
    ChangeFacts(cal, o, w, c);
  }

  lemma RecordJudged(cal: Calendar, o: Oracle, w: World, sealed: bool, status: Status, error: Option<Code>, phase: Option<Phase>)
    requires status in Verdicts(w.x) && !status.Active() && (status.Succeeded? <==> error.None?)
    ensures Judged(cal, w, Record(o, w, sealed, status, error, phase).world)
  {
    RecordFacts(cal, o, w, sealed, status, error, phase);
  }

  lemma StopJudged(cal: Calendar, o: Oracle, w: World, sealed: bool, phase: Option<Phase>)
    requires StopVerdict(w.x.stop) in Verdicts(w.x)
    ensures Judged(cal, w, RecordStopped(o, w, sealed, phase).world)
  {
    RecordStoppedFacts(cal, o, w, sealed, phase);
  }

  predicate Heard(x: Execution, a: Answer) { x.heard != [] && x.heard[|x.heard| - 1] == a }

  lemma PolicyJudged(cal: Calendar, o: Oracle, w: World, sealed: bool, a: Answer)
    requires Answers(AtPolicy, a) && Heard(w.x, a)
    ensures Judged(cal, w, AfterPolicy(o, w, sealed, a).world)
  {
    if sealed {
    } else if w.x.stop != NoStop {
      StopJudged(cal, o, w, sealed, w.x.phase);
    } else if a.PolicyRefused? {
      RecordJudged(cal, o, w, sealed, Blocked, Some(Or(a.code, WorkspaceUnavailable)), None);
    } else if w.x.hasPre && a.pre.Denied? {
      RecordJudged(cal, o, w, sealed, Blocked, Some(Or(a.pre.code, ScriptUnavailable)), Some(PreHook));
    } else if w.x.hasPost && a.post.Denied? {
      RecordJudged(cal, o, w, sealed, Blocked, Some(Or(a.post.code, ScriptUnavailable)), Some(PostHook));
    }
  }

  lemma CapacityJudged(cal: Calendar, o: Oracle, w: World, sealed: bool, a: Answer)
    requires Answers(AtCapacity, a) && Heard(w.x, a)
    ensures Judged(cal, w, AfterCapacity(o, w, sealed, a).world)
  {
    if a.CapacityGranted? {
      CapacityGrantedJudged(cal, o, w, w.(x := w.x.(lease := Held)), sealed, a);
    } else if !sealed {
      if w.x.stop != NoStop || a.code == Some(ShuttingDown) {
        StopJudged(cal, o, w, sealed, w.x.phase);
      } else {
        var status := if a.code == Some(LiveRuntimeLimit) then Skipped else Status.Failed;
        RecordJudged(cal, o, w, sealed, status, Some(Or(a.code, LiveRuntimeLimit)), None);
      }
    }
  }

  lemma CapacityGrantedJudged(cal: Calendar, o: Oracle, w: World, v: World, sealed: bool, a: Answer)
    requires a.CapacityGranted? && Heard(w.x, a) && v == w.(x := w.x.(lease := Held))
    ensures Judged(cal, w, AfterCapacity(o, w, sealed, a).world)
  {
    hide Sound;
    if sealed {
    } else if v.x.stop != NoStop {
      StopJudged(cal, o, v, sealed, v.x.phase);
      Chained(cal, w, v, RecordStopped(o, v, sealed, v.x.phase).world);
    } else if v.x.hasPre {
      ChangeGoes(cal, o, v, SetPhase(PreHook));
      DeniedJudged(cal, o, v, sealed, PreHook, a.pre);
      Chained(cal, w, v, AfterCapacity(o, w, sealed, a).world);
    } else {
      ToPromptJudged(cal, o, v, sealed);
      Chained(cal, w, v, ToPrompt(o, v, sealed).world);
    }
  }

  // The phase changes, and then the script check may refuse.
  lemma DeniedJudged(cal: Calendar, o: Oracle, w: World, sealed: bool, phase: Phase, admission: Admission)
    requires !sealed && w.x.stop == NoStop && w.x.heard != [] && (admission.Denied? ==> Refusing(w.x.heard[|w.x.heard| - 1]))
    ensures var r := Change(o, w, SetPhase(phase)); r.Went? && admission.Denied? ==>
      Judged(cal, w, Record(o, r.world, sealed, Blocked, Some(Or(admission.code, ScriptUnavailable)), Some(phase)).world)
  {
    ChangeGoes(cal, o, w, SetPhase(phase));
    var r := Change(o, w, SetPhase(phase));
    if r.Went? && admission.Denied? {
      RecordJudged(cal, o, r.world, sealed, Blocked, Some(Or(admission.code, ScriptUnavailable)), Some(phase));
      Chained(cal, w, r.world, Record(o, r.world, sealed, Blocked, Some(Or(admission.code, ScriptUnavailable)), Some(phase)).world);
    }
  }

  lemma ToPromptJudged(cal: Calendar, o: Oracle, w: World, sealed: bool)
    ensures Judged(cal, w, ToPrompt(o, w, sealed).world)
  {
    ChangeGoes(cal, o, w, SetPhase(Prompt));
    var v := Change(o, w, SetPhase(Prompt)).world;
    if v.x.stop != NoStop {
      StopJudged(cal, o, v, sealed, Some(Prompt));
      Chained(cal, w, v, RecordStopped(o, v, sealed, Some(Prompt)).world);
    }
  }

  // The output is recorded, and the hook may have been stopped.
  function Recorded(o: Oracle, w: World, a: Answer, pre: bool): World
    requires a.HookRan?
  {
    var v := Change(o, w, RecordHook(pre, a.output)).world;
    v.(x := WithHookStop(v.x, a.code))
  }

  lemma RecordedGoes(cal: Calendar, o: Oracle, w: World, a: Answer, pre: bool)
    requires a.HookRan?
    ensures Goes(cal, w, Recorded(o, w, a, pre)) && SameRun(w.x, Recorded(o, w, a, pre).x)
    ensures Judged(cal, w, Change(o, w, RecordHook(pre, a.output)).world)
  {
    ChangeGoes(cal, o, w, RecordHook(pre, a.output));
  }

  lemma HookJudged(cal: Calendar, o: Oracle, w: World, sealed: bool, a: Answer, pre: bool)
    requires Answers(AtPreHook, a) && Heard(w.x, a)
    requires !pre && GoodHook(a) && w.x.stop == NoStop ==> Passed(w.x)
    ensures Judged(cal, w, AfterHook(o, w, sealed, a, pre).world)
  {
    if a.HookRan? && !sealed {
      RecordedGoes(cal, o, w, a, pre);
      if Change(o, w, RecordHook(pre, a.output)).Went? {
        HookOutcomeJudged(cal, o, Recorded(o, w, a, pre), sealed, a, pre);
        Chained(cal, w, Recorded(o, w, a, pre), AfterHook(o, w, sealed, a, pre).world);
      }
    }
  }

  lemma HookOutcomeJudged(cal: Calendar, o: Oracle, u: World, sealed: bool, a: Answer, pre: bool)
    requires a.HookRan? && Heard(u.x, a)
    requires !pre && a.succeeded && u.x.stop == NoStop ==> Passed(u.x)
    ensures var phase := Some(if pre then PreHook else PostHook);
      if u.x.stop != NoStop then Judged(cal, u, RecordStopped(o, u, sealed, phase).world)
      else if !a.succeeded then
        Judged(cal, u, Record(o, u, sealed, Status.Failed, Some(Or(a.code, if pre then PreRunFailed else PostRunFailed)), phase).world)
      else if pre then Judged(cal, u, ToPrompt(o, u, sealed).world)
      else Judged(cal, u, Record(o, u, sealed, Succeeded, None, phase).world)
  {
    var phase := Some(if pre then PreHook else PostHook);
    if u.x.stop != NoStop { StopJudged(cal, o, u, sealed, phase); }
    else if !a.succeeded {
      RecordJudged(cal, o, u, sealed, Status.Failed, Some(Or(a.code, if pre then PreRunFailed else PostRunFailed)), phase);
    } else if pre { ToPromptJudged(cal, o, u, sealed); }
    else { RecordJudged(cal, o, u, sealed, Succeeded, None, phase); }
  }

  lemma ConversationJudged(cal: Calendar, o: Oracle, w: World, sealed: bool, a: Answer)
    requires Answers(AtConversation, a) && Heard(w.x, a)
    ensures Judged(cal, w, AfterConversation(o, w, sealed, a).world)
  {
    if a.ConversationRefused? {
      var v := w.(x := if a.leaseReleased then Settled(w.x, Released) else w.x);
      ConversationRefusedJudged(cal, o, v, sealed, a);
      Chained(cal, w, v, AfterConversation(o, w, sealed, a).world);
    } else {
      var v := w.(x := Settled(w.x, Promoted).(conversation := Some(a.id)));
      ChangeGoes(cal, o, v, Attach(a.id));
      Chained(cal, w, v, AfterConversation(o, w, sealed, a).world);
    }
  }

  lemma ConversationRefusedJudged(cal: Calendar, o: Oracle, v: World, sealed: bool, a: Answer)
    requires a.ConversationRefused? && Heard(v.x, a)
    ensures if v.x.stop != NoStop then Judged(cal, v, RecordStopped(o, v, sealed, Some(Prompt)).world)
            else Judged(cal, v, Record(o, v, sealed, Status.Failed, Some(Or(a.code, Code.PromptFailed)), Some(Prompt)).world)
  {
    if v.x.stop != NoStop { StopJudged(cal, o, v, sealed, Some(Prompt)); }
    else { RecordJudged(cal, o, v, sealed, Status.Failed, Some(Or(a.code, Code.PromptFailed)), Some(Prompt)); }
  }

  lemma TitleJudged(cal: Calendar, o: Oracle, w: World, sealed: bool, a: Answer)
    requires Answers(AtTitle, a)
    ensures Judged(cal, w, AfterTitle(o, w, sealed, a).world)
  {
    if w.x.stop != NoStop { StopJudged(cal, o, w, sealed, Some(Prompt)); }
  }

  lemma PromptJudged(cal: Calendar, o: Oracle, w: World, sealed: bool, a: Answer)
    requires Answers(AtPrompt, a) && Heard(w.x, a)
    requires !w.x.hasPost && a.PromptSucceeded? ==> Passed(w.x)
    ensures Judged(cal, w, AfterPrompt(o, w, sealed, a).world)
  {
    if a.PromptThrew? || sealed {
    } else if w.x.stop != NoStop || a.PromptAborted? {
      var v := w.(x := w.x.(stop := if w.x.stop == NoStop then AbortStop else w.x.stop));
      StopJudged(cal, o, v, sealed, Some(Prompt));
      Chained(cal, w, v, RecordStopped(o, v, sealed, Some(Prompt)).world);
    } else if a.PromptSucceeded? {
      if w.x.hasPost {
        ChangeGoes(cal, o, w, SetPhase(PostHook));
        DeniedJudged(cal, o, w, sealed, PostHook, a.post);
      } else {
        RecordJudged(cal, o, w, sealed, Succeeded, None, Some(Prompt));
      }
    } else {
      RecordJudged(cal, o, w, sealed, Status.Failed, Some(if a.PromptBroke? then a.error else Code.PromptFailed), Some(Prompt));
    }
  }

  // --------------------------------------------------- course and resources of a stretch

  function NextPoint(x: Execution): Point {
    match x.at
    case AtPolicy => AtCapacity
    case AtCapacity => if x.hasPre then AtPreHook else AtConversation
    case AtPreHook => AtConversation
    case AtConversation => AtTitle
    case AtTitle => AtPrompt
    case AtPrompt => if x.hasPost then AtPostHook else Over
    case _ => Over
  }

  // A good answer moves the execution one stage along its course.
  lemma NextOnCourse(x: Execution, a: Answer)
    requires OnCourse(x) && Good(x.hasPre, x.hasPost, x.at, a)
    ensures var y := x.(heard := x.heard + [a]);
      && AllGood(x.hasPre, x.hasPost, y.heard)
      && (if NextPoint(x) == Over then Passed(y) else OnCourse(y.(at := NextPoint(x))))
  {
    NextInCourse(x.hasPre, x.hasPost, |x.heard|, x);
    OneMoreGood(x.hasPre, x.hasPost, x.heard, a);
  }

  lemma OneMoreGood(hasPre: bool, hasPost: bool, heard: seq<Answer>, a: Answer)
    requires AllGood(hasPre, hasPost, heard) && |heard| < |Course(hasPre, hasPost)|
    requires Good(hasPre, hasPost, Course(hasPre, hasPost)[|heard|], a)
    ensures AllGood(hasPre, hasPost, heard + [a])
  {
  }

  lemma NextInCourse(hasPre: bool, hasPost: bool, i: nat, x: Execution)
    requires x.hasPre == hasPre && x.hasPost == hasPost
    requires i < |Course(hasPre, hasPost)| && Course(hasPre, hasPost)[i] == x.at
    ensures if NextPoint(x) == Over then i + 1 == |Course(hasPre, hasPost)|
            else i + 1 < |Course(hasPre, hasPost)| && Course(hasPre, hasPost)[i + 1] == NextPoint(x)
  {
    if hasPre && hasPost {
      assert Course(true, true) == [AtPolicy, AtCapacity, AtPreHook, AtConversation, AtTitle, AtPrompt, AtPostHook];
    } else if hasPre {
      assert Course(true, false) == [AtPolicy, AtCapacity, AtPreHook, AtConversation, AtTitle, AtPrompt];
    } else if hasPost {
      assert Course(false, true) == [AtPolicy, AtCapacity, AtConversation, AtTitle, AtPrompt, AtPostHook];
    } else {
      assert Course(false, false) == [AtPolicy, AtCapacity, AtConversation, AtTitle, AtPrompt];
    }
  }

  // What an execution may hold when it reaches its `finally`.
  predicate Leavable(x: Execution) {
    && x.settlements == (if x.lease == NoLease || x.lease == Held then 0 else 1)
    && (x.lease == Promoted <==> x.conversation.Some?) && x.releases == 0
  }

  predicate Tidy(s: Stretch) {
    match s
    case Suspend(w, at) => Suspended(w.x.(at := at)) && ExecutionInv(w.x.(at := at))
    case Return(w) => Leavable(w.x)
    case Throw(w, _) => Leavable(w.x)
  }

  lemma ChangeCopies(o: Oracle, w: World, c: JobRows.Change)
    ensures OnlyCopied(w.x, Change(o, w, c).world.x)
  {
  }

  lemma RecordCopies(o: Oracle, w: World, sealed: bool, status: Status, error: Option<Code>, phase: Option<Phase>)
    ensures OnlyCopied(w.x, Record(o, w, sealed, status, error, phase).world.x)
  {
  }

  lemma StopCopies(o: Oracle, w: World, sealed: bool, phase: Option<Phase>)
    ensures OnlyCopied(w.x, RecordStopped(o, w, sealed, phase).world.x)
  {
    if w.x.stop.ShutdownStop? { RecordCopies(o, w, sealed, Interrupted, Some(JobInterrupted), phase); }
    else { RecordCopies(o, w, sealed, Aborted, Some(JobAborted), phase); }
  }

  lemma StartTidy(o: Oracle, w: World, sealed: bool)
    requires w.x == Launched(w.x.job, w.x.run, w.x.hasPre, w.x.hasPost)
    ensures Tidy(Start(o, w, sealed))
  {
    ChangeCopies(o, w, JobRows.Start(None));
  }

  lemma PolicyTidy(o: Oracle, w: World, sealed: bool, a: Answer, x: Execution)
    requires x.at == AtPolicy && ExecutionInv(x) && Answers(AtPolicy, a) && w.x == x.(heard := x.heard + [a])
    ensures Tidy(AfterPolicy(o, w, sealed, a))
  {
    if Good(x.hasPre, x.hasPost, AtPolicy, a) { NextOnCourse(x, a); }
    StopCopies(o, w, sealed, w.x.phase);
    if a.PolicyRefused? { RecordCopies(o, w, sealed, Blocked, Some(Or(a.code, WorkspaceUnavailable)), None); }
    else {
      if a.pre.Denied? { RecordCopies(o, w, sealed, Blocked, Some(Or(a.pre.code, ScriptUnavailable)), Some(PreHook)); }
      if a.post.Denied? { RecordCopies(o, w, sealed, Blocked, Some(Or(a.post.code, ScriptUnavailable)), Some(PostHook)); }
    }
  }

  lemma ToPromptTidy(o: Oracle, w: World, sealed: bool)
    requires ExecutionInv(w.x.(at := AtConversation))
    ensures Tidy(ToPrompt(o, w, sealed))
  {
    ChangeCopies(o, w, SetPhase(Prompt));
    StopCopies(o, Change(o, w, SetPhase(Prompt)).world, sealed, Some(Prompt));
  }

  lemma CapacityTidy(o: Oracle, w: World, sealed: bool, a: Answer, x: Execution)
    requires x.at == AtCapacity && ExecutionInv(x) && Answers(AtCapacity, a) && w.x == x.(heard := x.heard + [a])
    ensures Tidy(AfterCapacity(o, w, sealed, a))
  {
    if a.CapacityRefused? {
      StopCopies(o, w, sealed, w.x.phase);
      RecordCopies(o, w, sealed, if a.code == Some(LiveRuntimeLimit) then Skipped else Status.Failed, Some(Or(a.code, LiveRuntimeLimit)), None);
    } else {
      var v := w.(x := w.x.(lease := Held));
      if Good(x.hasPre, x.hasPost, AtCapacity, a) { NextOnCourse(x, a); }
      StopCopies(o, v, sealed, v.x.phase);
      if v.x.hasPre {
        ChangeCopies(o, v, SetPhase(PreHook));
        RecordCopies(o, Change(o, v, SetPhase(PreHook)).world, sealed, Blocked, if a.pre.Denied? then Some(Or(a.pre.code, ScriptUnavailable)) else None, Some(PreHook));
      } else {
        ToPromptTidy(o, v, sealed);
      }
    }
  }

  lemma HookTidy(o: Oracle, w: World, sealed: bool, a: Answer, pre: bool, x: Execution)
    requires x.at == (if pre then AtPreHook else AtPostHook) && ExecutionInv(x) && Answers(AtPreHook, a) && w.x == x.(heard := x.heard + [a])
    ensures Tidy(AfterHook(o, w, sealed, a, pre))
  {
    if a.HookRan? && !sealed {
      ChangeCopies(o, w, RecordHook(pre, a.output));
      var v := Change(o, w, RecordHook(pre, a.output)).world;
      var u := v.(x := WithHookStop(v.x, a.code));
      var phase := Some(if pre then PreHook else PostHook);
      if u.x.stop != NoStop { StopCopies(o, u, sealed, phase); }
      else if !a.succeeded { RecordCopies(o, u, sealed, Status.Failed, Some(Or(a.code, if pre then PreRunFailed else PostRunFailed)), phase); }
      else {
        NextOnCourse(x, a);
        if pre { ToPromptTidy(o, u, sealed); } else { RecordCopies(o, u, sealed, Succeeded, None, phase); }
      }
    }
  }

  lemma ConversationTidy(o: Oracle, w: World, sealed: bool, a: Answer, x: Execution)
    requires x.at == AtConversation && ExecutionInv(x) && Answers(AtConversation, a) && w.x == x.(heard := x.heard + [a])
    ensures Tidy(AfterConversation(o, w, sealed, a))
  {
    if a.ConversationRefused? {
      var v := w.(x := if a.leaseReleased then Settled(w.x, Released) else w.x);
      StopCopies(o, v, sealed, Some(Prompt));
      RecordCopies(o, v, sealed, Status.Failed, Some(Or(a.code, Code.PromptFailed)), Some(Prompt));
    } else {
      ChangeCopies(o, w.(x := Settled(w.x, Promoted).(conversation := Some(a.id))), Attach(a.id));
      if a.titleFormats { NextOnCourse(x, a); }
    }
  }

  lemma TitleTidy(o: Oracle, w: World, sealed: bool, a: Answer, x: Execution)
    requires x.at == AtTitle && ExecutionInv(x) && Answers(AtTitle, a) && w.x == x.(heard := x.heard + [a])
    ensures Tidy(AfterTitle(o, w, sealed, a))
  {
    if a.TitleSet? { NextOnCourse(x, a); }
    StopCopies(o, w, sealed, Some(Prompt));
  }

  lemma PromptTidy(o: Oracle, w: World, sealed: bool, a: Answer, x: Execution)
    requires x.at == AtPrompt && ExecutionInv(x) && Answers(AtPrompt, a) && w.x == x.(heard := x.heard + [a])
    ensures Tidy(AfterPrompt(o, w, sealed, a))
  {
    if a.PromptThrew? || sealed {
    } else if w.x.stop != NoStop || a.PromptAborted? {
      StopCopies(o, w.(x := w.x.(stop := if w.x.stop == NoStop then AbortStop else w.x.stop)), sealed, Some(Prompt));
    } else if a.PromptSucceeded? {
      if w.x.hasPost {
        ChangeCopies(o, w, SetPhase(PostHook));
        if a.post.Denied? {
          RecordCopies(o, Change(o, w, SetPhase(PostHook)).world, sealed, Blocked, Some(Or(a.post.code, ScriptUnavailable)), Some(PostHook));
        } else {
          NextOnCourse(x, a);
        }
      } else {
        RecordCopies(o, w, sealed, Succeeded, None, Some(Prompt));
      }
    } else {
      RecordCopies(o, w, sealed, Status.Failed, Some(if a.PromptBroke? then a.error else Code.PromptFailed), Some(Prompt));
    }
  }

  lemma BodyTidy(o: Oracle, w: World, sealed: bool, a: Answer, x: Execution)
    requires ExecutionInv(x) && Suspended(x) && Answers(x.at, a) && w.x == x.(heard := x.heard + [a])
    ensures Tidy(Body(o, w, sealed, a))
  {
    match x.at
    case AtPolicy => PolicyTidy(o, w, sealed, a, x);
    case AtCapacity => CapacityTidy(o, w, sealed, a, x);
    case AtPreHook => HookTidy(o, w, sealed, a, true, x);
    case AtConversation => ConversationTidy(o, w, sealed, a, x);
    case AtTitle => TitleTidy(o, w, sealed, a, x);
    case AtPrompt => PromptTidy(o, w, sealed, a, x);
    case AtPostHook => HookTidy(o, w, sealed, a, false, x);
  }

  // ---------------------------------------------------------------------- whole stretches

  lemma CaughtJudged(cal: Calendar, o: Oracle, w: World, sealed: bool, code: Option<Code>)
    ensures Judged(cal, w, Caught(o, w, sealed, code)) && OnlyCopied(w.x, Caught(o, w, sealed, code).x)
  {
    CaughtFacts(cal, o, w, sealed, code);
  }

  lemma JudgedTwice(cal: Calendar, w: World, v: World, u: World)
    requires Judged(cal, w, v) && Judged(cal, v, u) && OnlyCopied(v.x, u.x)
    ensures Judged(cal, w, u)
  {
    assert Verdicts(u.x) == Verdicts(v.x);
  }

  lemma LeaveJudged(cal: Calendar, w: World, v: World)
    requires Judged(cal, w, v)
    ensures Judged(cal, w, Leave(v))
  {
    assert Verdicts(Leave(v).x) == Verdicts(v.x);
  }

  // What a stretch leaves behind is judged: nothing that was ended reopens.
  lemma ConcludeJudged(cal: Calendar, o: Oracle, w: World, s: Stretch, sealed: bool)
    requires Judged(cal, w, s.world)
    ensures Judged(cal, w, Conclude(o, s, sealed))
  {
    match s
    case Suspend(v, at) => assert Verdicts(v.x.(at := at)) == Verdicts(v.x);
    case Return(v) => LeaveJudged(cal, w, v);
    case Throw(v, code) =>
      CaughtJudged(cal, o, v, sealed, code);
      JudgedTwice(cal, w, v, Caught(o, v, sealed, code));
      LeaveJudged(cal, w, Caught(o, v, sealed, code));
  }

  lemma ConcludeTidy(o: Oracle, s: Stretch, sealed: bool)
    requires Tidy(s)
    ensures ExecutionInv(Conclude(o, s, sealed).x)
  {
    if s.Throw? { CaughtCopies(o, s.world, sealed); }
  }

  lemma CaughtCopies(o: Oracle, w: World, sealed: bool)
    ensures forall code :: OnlyCopied(w.x, Caught(o, w, sealed, code).x)
  {
    forall code ensures OnlyCopied(w.x, Caught(o, w, sealed, code).x) {
      StopCopies(o, w, sealed, w.x.phase);
      RecordCopies(o, w, sealed, Status.Failed, Some(Or(code, Code.PromptFailed)), w.x.phase);
    }
  }

  lemma BodyJudged(cal: Calendar, o: Oracle, w: World, sealed: bool, a: Answer, x: Execution)
    requires ExecutionInv(x) && Suspended(x) && Answers(x.at, a) && w.x == x.(heard := x.heard + [a])
    ensures Judged(cal, w, Body(o, w, sealed, a).world)
  {
    if Good(x.hasPre, x.hasPost, x.at, a) { NextOnCourse(x, a); }
    match x.at
    case AtPolicy => PolicyJudged(cal, o, w, sealed, a);
    case AtCapacity => CapacityJudged(cal, o, w, sealed, a);
    case AtPreHook => HookJudged(cal, o, w, sealed, a, true);
    case AtConversation => ConversationJudged(cal, o, w, sealed, a);
    case AtTitle => TitleJudged(cal, o, w, sealed, a);
    case AtPrompt => PromptJudged(cal, o, w, sealed, a);
    case AtPostHook => HookJudged(cal, o, w, sealed, a, false);
  }

  /** From any suspension point, whatever the awaited call answers, whatever fails, and
      whether or not a stop came meanwhile: the execution keeps to its course; only its
      own row changes; and the row ends, if it does, in a status that the answers so far
      and the stop allow. */
  lemma StretchFacts(cal: Calendar, o: Oracle, rows: Rows, x: Execution, calls: nat, sealed: bool, a: Answer)
    requires ExecutionInv(x) && Answers(x.at, a)
    ensures var w := World(rows, Hearing(x, a), calls);
      var v := Resumed(o, rows, x, calls, sealed, a);
      Judged(cal, w, v) && ExecutionInv(v.x)
  {
    if Suspended(x) {
      var w := World(rows, x.(heard := x.heard + [a]), calls);
      BodyJudged(cal, o, w, sealed, a, x);
      BodyTidy(o, w, sealed, a, x);
      ConcludeJudged(cal, o, w, Body(o, w, sealed, a), sealed);
      ConcludeTidy(o, Body(o, w, sealed, a), sealed);
    }
  }

  lemma BeginningFacts(cal: Calendar, o: Oracle, rows: Rows, job: Id, run: Id, hasPre: bool, hasPost: bool, calls: nat, sealed: bool)
    ensures var w := World(rows, Launched(job, run, hasPre, hasPost), calls);
      var v := Begun(o, rows, w.x, calls, sealed);
      Judged(cal, w, v) && ExecutionInv(v.x)
  {
    var w := World(rows, Launched(job, run, hasPre, hasPost), calls);
    ChangeGoes(cal, o, w, JobRows.Start(None));
    StartTidy(o, w, sealed);
    ConcludeJudged(cal, o, w, Start(o, w, sealed), sealed);
    ConcludeTidy(o, Start(o, w, sealed), sealed);
  }

  // ------------------------------------------------------------- where stops come from

  // Besides a request from outside, a hook that was stopped, or an aborted prompt, stops
  // the execution.
  predicate Tells(a: Answer, stop: Stop) {
    || (stop == ShutdownStop && a.HookRan? && a.code == Some(JobInterrupted))
    || (stop == AbortStop && ((a.HookRan? && a.code == Some(JobAborted)) || a.PromptAborted?))
  }

  predicate StopHeard(x: Execution, y: Execution) {
    y.stop == x.stop || (x.stop == NoStop && x.heard != [] && Tells(x.heard[|x.heard| - 1], y.stop))
  }

  lemma PolicyStops(o: Oracle, w: World, sealed: bool, a: Answer)
    requires Answers(AtPolicy, a)
    ensures AfterPolicy(o, w, sealed, a).world.x.stop == w.x.stop
  {
    StopCopies(o, w, sealed, w.x.phase);
    if a.PolicyRefused? { RecordCopies(o, w, sealed, Blocked, Some(Or(a.code, WorkspaceUnavailable)), None); }
    else {
      if a.pre.Denied? { RecordCopies(o, w, sealed, Blocked, Some(Or(a.pre.code, ScriptUnavailable)), Some(PreHook)); }
      if a.post.Denied? { RecordCopies(o, w, sealed, Blocked, Some(Or(a.post.code, ScriptUnavailable)), Some(PostHook)); }
    }
  }

  lemma ToPromptStops(o: Oracle, w: World, sealed: bool)
    ensures ToPrompt(o, w, sealed).world.x.stop == w.x.stop
  {
    ChangeCopies(o, w, SetPhase(Prompt));
    StopCopies(o, Change(o, w, SetPhase(Prompt)).world, sealed, Some(Prompt));
  }

  lemma CapacityStops(o: Oracle, w: World, sealed: bool, a: Answer)
    requires Answers(AtCapacity, a)
    ensures AfterCapacity(o, w, sealed, a).world.x.stop == w.x.stop
  {
    if a.CapacityRefused? {
      StopCopies(o, w, sealed, w.x.phase);
      RecordCopies(o, w, sealed, if a.code == Some(LiveRuntimeLimit) then Skipped else Status.Failed, Some(Or(a.code, LiveRuntimeLimit)), None);
    } else {
      var v := w.(x := w.x.(lease := Held));
      StopCopies(o, v, sealed, v.x.phase);
      if v.x.hasPre {
        ChangeCopies(o, v, SetPhase(PreHook));
        RecordCopies(o, Change(o, v, SetPhase(PreHook)).world, sealed, Blocked, if a.pre.Denied? then Some(Or(a.pre.code, ScriptUnavailable)) else None, Some(PreHook));
      } else {
        ToPromptStops(o, v, sealed);
      }
    }
  }

  lemma HookStops(o: Oracle, w: World, sealed: bool, a: Answer, pre: bool)
    requires Answers(AtPreHook, a) && Heard(w.x, a)
    ensures StopHeard(w.x, AfterHook(o, w, sealed, a, pre).world.x)
  {
    if a.HookRan? && !sealed {
      ChangeCopies(o, w, RecordHook(pre, a.output));
      var u := Recorded(o, w, a, pre);
      var phase := Some(if pre then PreHook else PostHook);
      if u.x.stop != NoStop { StopCopies(o, u, sealed, phase); }
      else if !a.succeeded { RecordCopies(o, u, sealed, Status.Failed, Some(Or(a.code, if pre then PreRunFailed else PostRunFailed)), phase); }
      else if pre { ToPromptStops(o, u, sealed); }
      else { RecordCopies(o, u, sealed, Succeeded, None, phase); }
    }
  }

  lemma ConversationStops(o: Oracle, w: World, sealed: bool, a: Answer)
    requires Answers(AtConversation, a)
    ensures AfterConversation(o, w, sealed, a).world.x.stop == w.x.stop
  {
    if a.ConversationRefused? {
      var v := w.(x := if a.leaseReleased then Settled(w.x, Released) else w.x);
      StopCopies(o, v, sealed, Some(Prompt));
      RecordCopies(o, v, sealed, Status.Failed, Some(Or(a.code, Code.PromptFailed)), Some(Prompt));
    } else {
      ChangeCopies(o, w.(x := Settled(w.x, Promoted).(conversation := Some(a.id))), Attach(a.id));
    }
  }

  lemma PromptStops(o: Oracle, w: World, sealed: bool, a: Answer)
    requires Answers(AtPrompt, a) && Heard(w.x, a)
    ensures StopHeard(w.x, AfterPrompt(o, w, sealed, a).world.x)
  {
    if a.PromptThrew? || sealed {
    } else if w.x.stop != NoStop || a.PromptAborted? {
      StopCopies(o, w.(x := w.x.(stop := if w.x.stop == NoStop then AbortStop else w.x.stop)), sealed, Some(Prompt));
    } else if a.PromptSucceeded? {
      if w.x.hasPost {
        ChangeCopies(o, w, SetPhase(PostHook));
        if a.post.Denied? {
          RecordCopies(o, Change(o, w, SetPhase(PostHook)).world, sealed, Blocked, Some(Or(a.post.code, ScriptUnavailable)), Some(PostHook));
        }
      } else {
        RecordCopies(o, w, sealed, Succeeded, None, Some(Prompt));
      }
    } else {
      RecordCopies(o, w, sealed, Status.Failed, Some(if a.PromptBroke? then a.error else Code.PromptFailed), Some(Prompt));
    }
  }

  lemma BodyStops(o: Oracle, w: World, sealed: bool, a: Answer)
    requires Suspended(w.x) && Answers(w.x.at, a) && Heard(w.x, a)
    ensures StopHeard(w.x, Body(o, w, sealed, a).world.x)
  {
    match w.x.at
    case AtPolicy => PolicyStops(o, w, sealed, a);
    case AtCapacity => CapacityStops(o, w, sealed, a);
    case AtPreHook => HookStops(o, w, sealed, a, true);
    case AtConversation => ConversationStops(o, w, sealed, a);
    case AtTitle => StopCopies(o, w, sealed, Some(Prompt));
    case AtPrompt => PromptStops(o, w, sealed, a);
    case AtPostHook => HookStops(o, w, sealed, a, false);
  }

  lemma ConcludeStops(o: Oracle, s: Stretch, sealed: bool)
    ensures Conclude(o, s, sealed).x.stop == s.world.x.stop
  {
    if s.Throw? { CaughtCopies(o, s.world, sealed); }
  }

  /** A stretch stops its execution only because of what it has just heard. */
  lemma StretchStops(o: Oracle, rows: Rows, x: Execution, calls: nat, sealed: bool, a: Answer)
    requires Answers(x.at, a)
    ensures StopHeard(Hearing(x, a), Resumed(o, rows, x, calls, sealed, a).x)
  {
    if Suspended(x) {
      var w := World(rows, Hearing(x, a), calls);
      BodyStops(o, w, sealed, a);
      ConcludeStops(o, Body(o, w, sealed, a), sealed);
    }
  }

  lemma BeginningStops(o: Oracle, rows: Rows, x: Execution, calls: nat, sealed: bool)
    ensures Begun(o, rows, x, calls, sealed).x.stop == x.stop
  {
    var w := World(rows, x, calls);
    ChangeCopies(o, w, JobRows.Start(None));
    ConcludeStops(o, Start(o, w, sealed), sealed);
  }

  /** Once persistence is sealed, no suspended execution makes another repository call,
      whichever await it wakes from and whatever that await answers. */
  lemma SealedStretchIsSilent(o: Oracle, rows: Rows, x: Execution, calls: nat, a: Answer)
    requires Answers(x.at, a)
    ensures var v := Resumed(o, rows, x, calls, true, a); v.rows == rows && v.calls == calls
  {
    var w := World(rows, x.(heard := x.heard + [a]), calls);
    if x.at != AtRelease {
      match x.at
      case AtPolicy => assert Body(o, w, true, a).world.rows == rows;
      case AtCapacity => assert Body(o, w, true, a).world.rows == rows;
      case AtPreHook => assert Body(o, w, true, a).world.rows == rows;
      case AtConversation => assert Body(o, w, true, a).world.rows == rows;
      case AtTitle => assert Body(o, w, true, a).world.rows == rows;
      case AtPrompt => assert Body(o, w, true, a).world.rows == rows;
      case AtPostHook => assert Body(o, w, true, a).world.rows == rows;
    }
  }

  // ----------------------------------------------------------- a good execution succeeds

  // The row is running and the execution knows its revision.
  predicate Matches(w: World) {
    && w.x.run in w.rows.runs && w.rows.runs[w.x.run].job == w.x.job && w.rows.runs[w.x.run].status == Running
    && w.rows.runs[w.x.run].revision == w.x.revision && w.rows.runs[w.x.run].phase == w.x.phase
  }

  function ConversationIn(w: World): Option<Id>
    requires Matches(w)
  {
    w.rows.runs[w.x.run].conversation
  }

  predicate Synced(w: World) {
    && Matches(w)
    && (w.x.at == AtPreHook ==> w.x.phase == Some(PreHook)) && (w.x.at == AtPostHook ==> w.x.phase == Some(PostHook))
    && (w.x.conversation.None? ==> ConversationIn(w).None?)
  }

  // The repository call of this number goes through.
  predicate Works(o: Oracle, n: nat) { !o.fails(n) && SafeTimestamp(o.clock(n)) }

  ghost predicate Faultless(o: Oracle) { forall n :: Works(o, n) }

  lemma ChangeWorks(o: Oracle, w: World, c: JobRows.Change)
    requires Works(o, w.calls) && Matches(w) && c.WellFormed() && !c.Start? && c.Fits(w.rows.runs[w.x.run])
    ensures var r := Change(o, w, c);
      && r.Went? && OnlyCopied(w.x, r.world.x)
      && (if c.Finish? then StatusIn(r.world) == Some(c.status)
          else Matches(r.world) && r.world.x.phase == (if c.SetPhase? then Some(c.next) else w.x.phase) &&
               ConversationIn(r.world) == (if c.Attach? then Some(c.conversation) else ConversationIn(w)))
  {
  }

  // A row that is still queued cannot be given an end.
  lemma QueuedCannotEnd(o: Oracle, w: World, status: Status, error: Option<Code>, phase: Option<Phase>)
    requires w.x.run in w.rows.runs && w.rows.runs[w.x.run].status == Queued && !status.Interrupted? && !status.Skipped?
    ensures var r := Record(o, w, false, status, error, phase); r.Threw? && r.world.rows == w.rows && OnlyCopied(w.x, r.world.x)
  {
  }

  /** The start of a queued run: it runs and waits for its policy, if the start can be
      recorded; if not, nothing is recorded, and the execution is over at once. */
  lemma BeginningExactly(o: Oracle, rows: Rows, x: Execution, calls: nat)
    requires x == Launched(x.job, x.run, x.hasPre, x.hasPost)
    requires x.run in rows.runs && rows.runs[x.run].status == Queued && rows.runs[x.run].job == x.job && RunSound(rows.runs[x.run])
    ensures var v := Begun(o, rows, x, calls, false);
      && SameRun(x, v.x) && v.rows.jobs == rows.jobs && v.rows.runs.Keys == rows.runs.Keys
      && (if Works(o, calls) then v.rows.runs[x.run].status == Running && v.x.at == AtPolicy && v.x.stop == NoStop && Synced(v)
          else v.rows == rows && v.x.at == Over)
  {
    hide Record;
    var w := World(rows, x, calls);
    var started := Change(o, w, JobRows.Start(None));
    if started.Threw? {
      QueuedCannotEnd(o, started.world, Status.Failed, Some(Or(started.code, Code.PromptFailed)), x.phase);
    }
  }

  lemma SuccessRecorded(o: Oracle, w: World, phase: Phase)
    requires Faultless(o) && Matches(w)
    ensures var r := Record(o, w, false, Succeeded, None, Some(phase)); r.Went? && StatusIn(r.world) == Some(Succeeded)
  {
    ChangeWorks(o, w, Finish(Succeeded, Some(phase), None));
  }

  // The stretch suspends in step with its row, or has recorded success.
  predicate GoesOn(s: Stretch, next: Point) {
    if next == Over then s.Return? && StatusIn(s.world) == Some(Succeeded)
    else s.Suspend? && s.at == next && s.world.x.stop == NoStop && Synced(s.world.(x := s.world.x.(at := next)))
  }

  lemma ToPromptGoesOn(o: Oracle, w: World)
    requires Faultless(o) && Matches(w) && w.x.stop == NoStop && (w.x.conversation.None? ==> ConversationIn(w).None?)
    ensures GoesOn(ToPrompt(o, w, false), AtConversation)
  {
    ChangeWorks(o, w, SetPhase(Prompt));
  }

  lemma CapacityGoesOn(o: Oracle, w: World, a: Answer)
    requires Faultless(o) && Synced(w) && w.x.stop == NoStop && Good(w.x.hasPre, w.x.hasPost, AtCapacity, a)
    ensures GoesOn(AfterCapacity(o, w, false, a), if w.x.hasPre then AtPreHook else AtConversation)
  {
    var v := w.(x := w.x.(lease := Held));
    if w.x.hasPre { ChangeWorks(o, v, SetPhase(PreHook)); } else { ToPromptGoesOn(o, v); }
  }

  lemma HookGoesOn(o: Oracle, w: World, a: Answer, pre: bool)
    requires Faultless(o) && Synced(w) && w.x.stop == NoStop && GoodHook(a) && w.x.at == if pre then AtPreHook else AtPostHook
    ensures GoesOn(AfterHook(o, w, false, a, pre), if pre then AtConversation else Over)
  {
    ChangeWorks(o, w, RecordHook(pre, a.output));
    var v := Change(o, w, RecordHook(pre, a.output)).world;
    if pre { ToPromptGoesOn(o, v); } else { SuccessRecorded(o, v, PostHook); }
  }

  lemma ConversationGoesOn(o: Oracle, w: World, a: Answer)
    requires Faultless(o) && Synced(w) && w.x.stop == NoStop && w.x.conversation.None? && Good(w.x.hasPre, w.x.hasPost, AtConversation, a)
    ensures GoesOn(AfterConversation(o, w, false, a), AtTitle)
  {
    ChangeWorks(o, w.(x := Settled(w.x, Promoted).(conversation := Some(a.id))), Attach(a.id));
  }

  lemma PromptGoesOn(o: Oracle, w: World, a: Answer)
    requires Faultless(o) && Synced(w) && w.x.stop == NoStop && w.x.conversation.Some? && Good(w.x.hasPre, w.x.hasPost, AtPrompt, a)
    ensures GoesOn(AfterPrompt(o, w, false, a), if w.x.hasPost then AtPostHook else Over)
  {
    if w.x.hasPost { ChangeWorks(o, w, SetPhase(PostHook)); } else { SuccessRecorded(o, w, Prompt); }
  }

  lemma GoodBody(o: Oracle, w: World, a: Answer, x: Execution)
    requires Faultless(o) && ExecutionInv(x) && Suspended(x) && x.stop == NoStop && w.x == x.(heard := x.heard + [a]) && Synced(w)
    requires Answers(x.at, a) && Good(x.hasPre, x.hasPost, x.at, a)
    ensures GoesOn(Body(o, w, false, a), NextPoint(x))
  {
    match x.at
    case AtPolicy =>
    case AtCapacity => CapacityGoesOn(o, w, a);
    case AtPreHook => HookGoesOn(o, w, a, true);
    case AtConversation => ConversationGoesOn(o, w, a);
    case AtTitle =>
    case AtPrompt => PromptGoesOn(o, w, a);
    case AtPostHook => HookGoesOn(o, w, a, false);
  }

  lemma GoodStretchGoesOn(cal: Calendar, o: Oracle, rows: Rows, x: Execution, calls: nat, a: Answer)
    requires Faultless(o) && ExecutionInv(x) && Suspended(x) && x.stop == NoStop && Synced(World(rows, x, calls))
    requires Answers(x.at, a) && Good(x.hasPre, x.hasPost, x.at, a)
    ensures var v := Resumed(o, rows, x, calls, false, a);
      && ExecutionInv(v.x) && SameRun(x.(heard := x.heard + [a]), v.x)
      && (if NextPoint(x) == Over then StatusIn(v) == Some(Succeeded) else v.x.at == NextPoint(x) && Synced(v) && v.x.stop == NoStop)
  {
    var w := World(rows, x.(heard := x.heard + [a]), calls);
    GoodBody(o, w, a, x);
    StretchFacts(cal, o, rows, x, calls, false, a);
  }

  // An execution left alone between its awaits: nobody stops it or touches its row.
  ghost predicate Undisturbed(o: Oracle, worlds: seq<World>, answers: seq<Answer>) {
    && |worlds| == |answers| + 1
    && forall i :: 0 <= i < |answers| ==>
         && Answers(worlds[i].x.at, answers[i])
         && worlds[i + 1] == Resumed(o, worlds[i].rows, worlds[i].x, worlds[i].calls, false, answers[i])
  }

  // A run that has just started, and good answers for each stage of its course.
  predicate GoodCase(worlds: seq<World>, answers: seq<Answer>)
    requires |worlds| == |answers| + 1
  {
    var x := worlds[0].x;
    && ExecutionInv(x) && x.at == AtPolicy && x.heard == [] && x.stop == NoStop && Synced(worlds[0])
    && |answers| == |Course(x.hasPre, x.hasPost)|
    && forall k :: 0 <= k < |answers| ==> Good(x.hasPre, x.hasPost, worlds[k].x.at, answers[k])
  }

  // After so many stages the execution waits at the next one, or has succeeded.
  predicate StageReached(x: Execution, v: World, i: nat) {
    && v.x.hasPre == x.hasPre && v.x.hasPost == x.hasPost && |v.x.heard| == i
    && (if i == |Course(x.hasPre, x.hasPost)| then StatusIn(v) == Some(Succeeded)
        else ExecutionInv(v.x) && Suspended(v.x) && v.x.stop == NoStop && Synced(v))
  }

  lemma NextStage(cal: Calendar, o: Oracle, x: Execution, u: World, a: Answer, i: nat)
    requires Faultless(o) && StageReached(x, u, i) && i < |Course(x.hasPre, x.hasPost)|
    requires Answers(u.x.at, a) && Good(x.hasPre, x.hasPost, u.x.at, a)
    ensures StageReached(x, Resumed(o, u.rows, u.x, u.calls, false, a), i + 1)
  {
    GoodStretchGoesOn(cal, o, u.rows, u.x, u.calls, a);
    NextInCourse(u.x.hasPre, u.x.hasPost, i, u.x);
  }

  lemma {:induction false} GoodSoFar(cal: Calendar, o: Oracle, worlds: seq<World>, answers: seq<Answer>, i: nat)
    requires Faultless(o) && Undisturbed(o, worlds, answers) && GoodCase(worlds, answers) && i <= |answers|
    ensures StageReached(worlds[0].x, worlds[i], i)
  {
    if i > 0 {
      GoodSoFar(cal, o, worlds, answers, i - 1);
      NextStage(cal, o, worlds[0].x, worlds[i - 1], answers[i - 1], i - 1);
    }
  }

  /** Success is not only safe but reached: without stops and failures, an execution that
      hears a good answer at every stage goes through its whole course, and its row ends
      as succeeded. */
  lemma GoodExecutionSucceeds(cal: Calendar, o: Oracle, worlds: seq<World>, answers: seq<Answer>)
    requires Faultless(o) && Undisturbed(o, worlds, answers) && GoodCase(worlds, answers)
    ensures StatusIn(worlds[|answers|]) == Some(Succeeded)
  {
    GoodSoFar(cal, o, worlds, answers, |answers|);
  }
}
