/** The live-runtime registry as a transition system. Between two awaits the program
    runs without interruption, so every synchronous stretch is one step; what is
    suspended at an await is a task. Record objects are handles. */
module Registry {

  type Handle = nat
  type Op = nat

  datatype Status = Idle | Streaming | Aborting | Error

  datatype Record = Record(id: string, file: string, status: Status, sessionStreaming: bool,
                           lastActiveAt: nat, createdAt: nat, owned: bool) {
    predicate Busy() { status == Streaming || status == Aborting || sessionStreaming }
  }

  datatype Kind = Create | Open(file: string) | Fork(source: Handle) | Job

  /** Where a suspended call stands: waiting for its turn to decide capacity, waiting for
      the record it evicts, holding a reservation without a record, holding a registered
      record, or past its last use of the reservation. A fork that has been granted its
      reservation still has to look its source up again, by the identifier it had at the
      grant; if that fails, the call ends there and gives nothing back. */
  datatype Stage =
    | Queued
    | Evicting(candidate: Handle)
    | Granted(id: string)
    | Reserved
    | Registered(record: Handle)
    | Settled
    | Abandoned

  datatype Task = Task(kind: Kind, stage: Stage) {
    /** Forks and jobs convert the reservation at registration; create and open release
        it later, so that their record is counted twice for a while. */
    predicate HoldsCapacity() { Unregistered() || (stage.Registered? && (kind.Create? || kind.Open?)) }
    predicate Unregistered() { stage.Granted? || stage.Reserved? || stage.Abandoned? }
    predicate InLine() { stage.Queued? || stage.Evicting? }
  }

  datatype State = State(
    records: map<Handle, Record>,
    byId: map<string, Handle>,
    byFile: map<string, Handle>,
    closing: set<Handle>,
    forkHolds: map<Handle, nat>,
    reserved: nat,
    line: seq<Op>,
    opens: map<string, Op>,
    shuttingDown: bool,
    tasks: map<Op, Task>)

  const EMPTY := State(map[], map[], map[], {}, map[], 0, [], map[], false, map[])

  predicate LiveIn(records: map<Handle, Record>, byId: map<string, Handle>, h: Handle) {
    h in records && records[h].id in byId && byId[records[h].id] == h
  }

  predicate Live(s: State, h: Handle) { LiveIn(s.records, s.byId, h) }

  function Hold(s: State, h: Handle): nat { if h in s.forkHolds then s.forkHolds[h] else 0 }

  // ------------------------------------------------------------------ LRU candidates

  predicate TextBefore(a: string, b: string) {
    b != [] && (a == [] || a[0] < b[0] || (a[0] == b[0] && TextBefore(a[1..], b[1..])))
  }

  lemma {:induction false} TextBeforeTransitive(a: string, b: string, c: string)
    requires TextBefore(a, b) && TextBefore(b, c)
    ensures TextBefore(a, c)
  {
    if a != [] && a[0] == b[0] == c[0] { TextBeforeTransitive(a[1..], b[1..], c[1..]); }
  }

  /** The order of texts by positions: the first place where they differ decides, and a
      beginning of a text comes before it. */
  ghost predicate Precedes(a: string, b: string) {
    exists i :: 0 <= i <= |a| && i < |b| && a[..i] == b[..i] && (i == |a| || a[i] < b[i])
  }

  lemma {:induction false} TextBeforeByPositions(a: string, b: string)
    ensures TextBefore(a, b) <==> Precedes(a, b)
  {
    if a != [] && b != [] {
      TextBeforeByPositions(a[1..], b[1..]);
      if TextBefore(a, b) {
        if a[0] < b[0] {
          assert a[..0] == b[..0];
        } else {
          var i :| 0 <= i <= |a[1..]| && i < |b[1..]| && a[1..][..i] == b[1..][..i] && (i == |a[1..]| || a[1..][i] < b[1..][i]);
          assert a[..i + 1] == [a[0]] + a[1..][..i] && b[..i + 1] == [b[0]] + b[1..][..i];
        }
      }
      if Precedes(a, b) {
        var i :| 0 <= i <= |a| && i < |b| && a[..i] == b[..i] && (i == |a| || a[i] < b[i]);
        if i > 0 {
          assert a[0] == a[..i][0] == b[..i][0] == b[0];
          assert a[1..][..i - 1] == a[..i][1..] == b[..i][1..] == b[1..][..i - 1];
        }
      }
    } else if b != [] {
      assert a[..0] == b[..0];
    }
  }

  /** Least recently active first; then oldest; then by identifier. */
  predicate Older(a: Record, b: Record) {
    a.lastActiveAt < b.lastActiveAt || (a.lastActiveAt == b.lastActiveAt &&
      (a.createdAt < b.createdAt || (a.createdAt == b.createdAt && TextBefore(a.id, b.id))))
  }

  lemma OlderTransitive(a: Record, b: Record, c: Record)
    requires Older(a, b) && Older(b, c)
    ensures Older(a, c)
  {
    if TextBefore(a.id, b.id) && TextBefore(b.id, c.id) { TextBeforeTransitive(a.id, b.id, c.id); }
  }

  lemma {:induction false} NotBeforeItself(a: string)
    ensures !TextBefore(a, a)
  {
    if a != [] { NotBeforeItself(a[1..]); }
  }

  lemma NotOlderThanItself(a: Record)
    ensures !Older(a, a)
  {
    NotBeforeItself(a.id);
  }

  /** What may be evicted. Ownership by a job is not consulted. */
  predicate Evictable(s: State, h: Handle, protected: Kind) {
    && Live(s, h) && protected != Fork(h)
    && s.records[h].status == Idle && !s.records[h].sessionStreaming
    && h !in s.closing && Hold(s, h) == 0
  }

  ghost predicate LeastRecentlyUsed(s: State, h: Handle, protected: Kind) {
    Evictable(s, h, protected) && forall k :: Evictable(s, k, protected) ==> !Older(s.records[k], s.records[h])
  }

  /** What the choice means on the fields: nothing that could be evicted was active
      earlier, nor, of those active at the same time, created earlier, nor, of those created
      at the same time too, has an identifier that comes before. */
  lemma LeastRecentlyUsedOnFields(s: State, h: Handle, protected: Kind)
    requires LeastRecentlyUsed(s, h, protected)
    ensures forall k :: Evictable(s, k, protected) ==>
      && s.records[h].lastActiveAt <= s.records[k].lastActiveAt
      && (s.records[h].lastActiveAt == s.records[k].lastActiveAt ==> s.records[h].createdAt <= s.records[k].createdAt)
      && (s.records[h].lastActiveAt == s.records[k].lastActiveAt && s.records[h].createdAt == s.records[k].createdAt ==>
            !Precedes(s.records[k].id, s.records[h].id))
  {
    forall k | Evictable(s, k, protected) ensures TextBefore(s.records[k].id, s.records[h].id) <==> Precedes(s.records[k].id, s.records[h].id) {
      TextBeforeByPositions(s.records[k].id, s.records[h].id);
    }
  }

  // --------------------------------------------------------------------------- steps

  datatype Label =
    | Begin(op: Op, kind: Kind)
    | Evict(op: Op, candidate: Handle)
    | Grant(op: Op)
    | Recheck(op: Op, fits: bool)
    | Refuse(op: Op)
    | Register(op: Op, handle: Handle, record: Record)
    | Release(op: Op)
    | Rollback(op: Op)
    | End(op: Op)
    | Close(handle: Handle)
    | ReleaseJob(handle: Handle)
    | FinishClose(handle: Handle)
    | Change(handle: Handle, record: Record)
    | Replace(handle: Handle, id: string, file: string)
    | StopAdmission
    | DisposeAll

  // The steps of a call under way, and those that concern records.
  predicate OfCall(l: Label) {
    l.Begin? || l.Evict? || l.Grant? || l.Recheck? || l.Refuse? || l.Release? || l.Rollback? || l.End?
  }

  // The call whose turn it is, and not waiting for an eviction that is still going on.
  predicate Turn(s: State, op: Op) {
    && s.line != [] && s.line[0] == op && op in s.tasks && s.tasks[op].InLine()
    && (s.tasks[op].stage.Evicting? ==> !Live(s, s.tasks[op].stage.candidate))
  }

  predicate ForkSource(s: State, h: Handle) {
    && Live(s, h) && !s.records[h].owned && s.records[h].status == Idle && !s.records[h].sessionStreaming
    && h !in s.closing
  }

  ghost predicate Enabled(s: State, max: nat, l: Label) {
    match l
    case Begin(op, kind) =>
      && op !in s.tasks && !s.shuttingDown
      && (kind.Open? ==> kind.file !in s.byFile && kind.file !in s.opens)
      && (kind.Fork? ==> ForkSource(s, kind.source))
    case Evict(op, candidate) =>
      && Turn(s, op) && |s.byId| + s.reserved >= max
      && LeastRecentlyUsed(s, candidate, s.tasks[op].kind)
    case Grant(op) => Turn(s, op) && |s.byId| + s.reserved < max
    case Recheck(op, fits) =>
      && op in s.tasks && s.tasks[op].kind.Fork? && s.tasks[op].stage.Granted?
      && (s.tasks[op].stage.id in s.byId && s.byId[s.tasks[op].stage.id] == s.tasks[op].kind.source ==> fits)
    case Refuse(op) => Turn(s, op)
    case Register(op, h, record) =>
      && op in s.tasks && s.tasks[op].stage.Reserved? && !s.shuttingDown
      && h !in s.records && record.id !in s.byId && record.file !in s.byFile
      && (record.owned <==> s.tasks[op].kind.Job?)
    case Release(op) => op in s.tasks && (s.tasks[op].stage.Reserved? || s.tasks[op].stage.Registered?)
    case Rollback(op) =>
      op in s.tasks && s.tasks[op].kind.Fork? && s.tasks[op].stage.Registered? && Live(s, s.tasks[op].stage.record)
    case End(op) => op in s.tasks && s.tasks[op].stage.Settled?
    case Close(h) => Live(s, h) && !s.records[h].owned && !s.records[h].Busy() && Hold(s, h) == 0
    case ReleaseJob(h) => Live(s, h) && s.records[h].owned && h !in s.closing
    case FinishClose(h) => h in s.closing && Live(s, h)
    case Change(h, record) =>
      h in s.records && record.id == s.records[h].id && record.file == s.records[h].file && record.owned == s.records[h].owned
    case Replace(h, id, file) =>
      && Live(s, h) && h !in s.closing
      && (id in s.byId ==> s.byId[id] == h) && (file in s.byFile ==> s.byFile[file] == h)
    case StopAdmission => true
    case DisposeAll => true
  }

  function WithStage(tasks: map<Op, Task>, op: Op, stage: Stage): map<Op, Task>
    requires op in tasks
  {
    tasks[op := tasks[op].(stage := stage)]
  }

  function AfterGrant(s: State, kind: Kind): Stage {
    if kind.Fork? then Granted(if kind.source in s.records then s.records[kind.source].id else "") else Reserved
  }

  // Whatever is registered under the identifier now must fit the workspace of the call,
  // as the source itself does.
  function AfterRecheck(s: State, id: string, fits: bool): Stage { if id in s.byId && fits then Reserved else Abandoned }

  function Dropped(holds: map<Handle, nat>, h: Handle): map<Handle, nat> {
    if h !in holds || holds[h] <= 1 then holds - {h} else holds[h := holds[h] - 1]
  }

  function LiveHandles(s: State): set<Handle> { set h | h in s.records && Live(s, h) }

  ghost function Apply(s: State, max: nat, l: Label): State
    requires Enabled(s, max, l)
  {
    match l
    case Begin(op, kind) =>
      s.(tasks := s.tasks[op := Task(kind, Queued)], line := s.line + [op],
         opens := if kind.Open? then s.opens[kind.file := op] else s.opens,
         forkHolds := if kind.Fork? then s.forkHolds[kind.source := Hold(s, kind.source) + 1] else s.forkHolds)
    case Evict(op, candidate) =>
      s.(tasks := WithStage(s.tasks, op, Evicting(candidate)), closing := s.closing + {candidate})
    case Grant(op) =>
      s.(tasks := WithStage(s.tasks, op, AfterGrant(s, s.tasks[op].kind)), line := s.line[1..], reserved := s.reserved + 1)
    case Recheck(op, fits) => s.(tasks := WithStage(s.tasks, op, AfterRecheck(s, s.tasks[op].stage.id, fits)))
    case Refuse(op) => s.(tasks := WithStage(s.tasks, op, Settled), line := s.line[1..])
    case Register(op, h, record) =>
      var converts := s.tasks[op].kind.Fork? || s.tasks[op].kind.Job?;
      s.(tasks := WithStage(s.tasks, op, Registered(h)), records := s.records[h := record],
         byId := s.byId[record.id := h], byFile := s.byFile[record.file := h],
         reserved := if converts then Less(s.reserved) else s.reserved)
    case Release(op) =>
      s.(tasks := WithStage(s.tasks, op, Settled), reserved := if s.tasks[op].HoldsCapacity() then Less(s.reserved) else s.reserved)
    case Rollback(op) => s.(tasks := WithStage(s.tasks, op, Settled), closing := s.closing + {s.tasks[op].stage.record})
    case End(op) =>
      var kind := s.tasks[op].kind;
      s.(tasks := s.tasks - {op},
         opens := if kind.Open? then s.opens - {kind.file} else s.opens,
         forkHolds := if kind.Fork? then Dropped(s.forkHolds, kind.source) else s.forkHolds)
    case Close(h) => s.(closing := s.closing + {h})
    case ReleaseJob(h) => s.(closing := s.closing + {h})
    case FinishClose(h) => Unindexed(s, h)
    case Change(h, record) => s.(records := s.records[h := record])
    case Replace(h, id, file) =>
      var r := s.records[h];
      s.(records := s.records[h := r.(id := id, file := file)],
         byId := (s.byId - {r.id})[id := h],
         byFile := (if r.file in s.byFile && s.byFile[r.file] == h then s.byFile - {r.file} else s.byFile)[file := h])
    case StopAdmission => s.(shuttingDown := true)
    case DisposeAll => s.(shuttingDown := true, closing := s.closing + LiveHandles(s))
  }

  /** Every eviction takes a registered record that is idle, not streaming, not closing, not
      protected and not the source of the call that evicts it; and among all such records the
      one that was active least recently, the oldest of those, the first of those by
      identifier. */
  lemma EvictionTakesLeastRecent(s: State, max: nat, op: Op, h: Handle)
    requires Inv(s, max) && Enabled(s, max, Evict(op, h))
    ensures h in s.byId.Values && s.records[h].status == Idle && !s.records[h].sessionStreaming
    ensures h !in s.closing && h !in s.forkHolds && s.tasks[op].kind != Fork(h) && max <= |s.byId| + s.reserved
    ensures forall k ::
      && k in s.byId.Values && s.records[k].status == Idle && !s.records[k].sessionStreaming
      && k !in s.closing && k !in s.forkHolds && s.tasks[op].kind != Fork(k) ==>
        && s.records[h].lastActiveAt <= s.records[k].lastActiveAt
        && (s.records[h].lastActiveAt == s.records[k].lastActiveAt ==> s.records[h].createdAt <= s.records[k].createdAt)
        && (s.records[h].lastActiveAt == s.records[k].lastActiveAt && s.records[h].createdAt == s.records[k].createdAt ==>
              !Precedes(s.records[k].id, s.records[h].id))
  {
    hide Accounted, Lined, OpensAgree, HandlesKnown, SourcesKnown, Precedes, TextBefore, Older;
    LeastRecentlyUsedOnFields(s, h, s.tasks[op].kind);
  }

  function Less(n: nat): nat { if n == 0 then 0 else n - 1 }

  function Unindexed(s: State, h: Handle): State
    requires Live(s, h)
  {
    var r := s.records[h];
    s.(byId := s.byId - {r.id}, byFile := if r.file in s.byFile && s.byFile[r.file] == h then s.byFile - {r.file} else s.byFile)
  }

  // ---------------------------------------------------------------- the invariants

  function OpsWhere(tasks: map<Op, Task>, p: Task -> bool): set<Op> { set op | op in tasks && p(tasks[op]) }

  predicate Holds(t: Task) { t.HoldsCapacity() }
  predicate Unrecorded(t: Task) { t.Unregistered() }
  function ForkOf(h: Handle): Task -> bool { (t: Task) => t.kind == Fork(h) }

  function Holding(tasks: map<Op, Task>): set<Op> { OpsWhere(tasks, Holds) }
  function Unregistered(tasks: map<Op, Task>): set<Op> { OpsWhere(tasks, Unrecorded) }
  function Forking(tasks: map<Op, Task>, h: Handle): set<Op> { OpsWhere(tasks, ForkOf(h)) }

  /** Both indexes hold exactly the same records, each under its current keys. */
  predicate Indexed(records: map<Handle, Record>, byId: map<string, Handle>, byFile: map<string, Handle>) {
    && (forall id :: id in byId ==>
          byId[id] in records && records[byId[id]].id == id &&
          records[byId[id]].file in byFile && byFile[records[byId[id]].file] == byId[id])
    && (forall file :: file in byFile ==>
          byFile[file] in records && records[byFile[file]].file == file &&
          records[byFile[file]].id in byId && byId[records[byFile[file]].id] == byFile[file])
  }

  /** The reservation counter counts the calls that hold one, and the slots in use --
      registered records and reservations without a record -- fit the limit. */
  predicate Accounted(tasks: map<Op, Task>, reserved: nat, live: nat, max: nat) {
    reserved == |Holding(tasks)| && live + |Unregistered(tasks)| <= max
  }

  predicate Lined(tasks: map<Op, Task>, line: seq<Op>) {
    && (forall i, j :: 0 <= i < j < |line| ==> line[i] != line[j])
    && (forall i :: 0 <= i < |line| ==> line[i] in tasks && tasks[line[i]].InLine())
    && (forall i :: 0 < i < |line| ==> tasks[line[i]].stage == Queued)
    && (forall op :: op in tasks && tasks[op].InLine() ==> op in line)
  }

  /** One open per canonical file. */
  predicate OpensAgree(tasks: map<Op, Task>, opens: map<string, Op>) {
    && (forall op :: op in tasks && tasks[op].kind.Open? ==> tasks[op].kind.file in opens && opens[tasks[op].kind.file] == op)
    && (forall file :: file in opens ==> opens[file] in tasks && tasks[opens[file]].kind == Open(file))
  }

  ghost predicate HoldsAgree(tasks: map<Op, Task>, holds: map<Handle, nat>) {
    && (forall h :: h in holds ==> holds[h] > 0)
    && forall h :: |Forking(tasks, h)| == if h in holds then holds[h] else 0
  }

  predicate HandlesKnown(s: State) {
    && s.closing <= s.records.Keys
    && (forall op :: op in s.tasks && s.tasks[op].stage.Evicting? ==> s.tasks[op].stage.candidate in s.closing)
    && (forall op :: op in s.tasks && s.tasks[op].stage.Registered? ==> s.tasks[op].stage.record in s.records)
  }

  /** A fork is never taken from a record that a job owns; and only forks look their source
      up again. */
  predicate SourcesKnown(s: State) {
    && (forall op :: op in s.tasks && s.tasks[op].kind.Fork? ==>
          s.tasks[op].kind.source in s.records && !s.records[s.tasks[op].kind.source].owned)
    && (forall op :: op in s.tasks && (s.tasks[op].stage.Granted? || s.tasks[op].stage.Abandoned?) ==> s.tasks[op].kind.Fork?)
  }

  ghost predicate Inv(s: State, max: nat) {
    && Indexed(s.records, s.byId, s.byFile)
    && Accounted(s.tasks, s.reserved, |s.byId|, max)
    && Lined(s.tasks, s.line)
    && OpensAgree(s.tasks, s.opens)
    && HoldsAgree(s.tasks, s.forkHolds)
    && HandlesKnown(s)
    && SourcesKnown(s)
  }

  lemma OpsAfterUpdate(tasks: map<Op, Task>, op: Op, t: Task, p: Task -> bool)
    ensures OpsWhere(tasks[op := t], p) == if p(t) then OpsWhere(tasks, p) + {op} else OpsWhere(tasks, p) - {op}
  {
  }

  lemma OpsAfterRemoval(tasks: map<Op, Task>, op: Op, p: Task -> bool)
    ensures OpsWhere(tasks - {op}, p) == OpsWhere(tasks, p) - {op}
  {
  }

  // How the two counts move when one task moves.
  lemma CountsAfterUpdate(tasks: map<Op, Task>, op: Op, t: Task)
    ensures var t' := tasks[op := t];
      && |Holding(t')| == |Holding(tasks)| - (if op in Holding(tasks) then 1 else 0) + (if t.HoldsCapacity() then 1 else 0)
      && |Unregistered(t')| == |Unregistered(tasks)| - (if op in Unregistered(tasks) then 1 else 0) + (if t.Unregistered() then 1 else 0)
  {
    OpsAfterUpdate(tasks, op, t, Holds);
    OpsAfterUpdate(tasks, op, t, Unrecorded);
  }

  lemma CountsAfterRemoval(tasks: map<Op, Task>, op: Op)
    requires op in tasks && tasks[op].stage.Settled?
    ensures Holding(tasks - {op}) == Holding(tasks) && Unregistered(tasks - {op}) == Unregistered(tasks)
  {
    OpsAfterRemoval(tasks, op, Holds);
    OpsAfterRemoval(tasks, op, Unrecorded);
  }

  /** Every step keeps the indexes in agreement. */
  lemma StepKeepsIndexes(s: State, max: nat, l: Label)
    requires Inv(s, max) && Enabled(s, max, l)
    ensures var s' := Apply(s, max, l); Indexed(s'.records, s'.byId, s'.byFile)
  {
    hide Accounted, Lined, OpensAgree, HoldsAgree, HandlesKnown, SourcesKnown, Indexed;
    match l
    case Register(op, h, record) => IndexInsertion(s.records, s.byId, s.byFile, h, record);
    case FinishClose(h) => IndexRemoval(s.records, s.byId, s.byFile, h);
    case Replace(h, id, file) =>
      var r := s.records[h];
      IndexRemoval(s.records, s.byId, s.byFile, h);
      IndexMove(s.records, s.byId - {r.id}, s.byFile - {r.file}, h, r.(id := id, file := file));
    case Change(h, record) => IndexChange(s.records, s.byId, s.byFile, h, record);
    case _ =>
      var s' := Apply(s, max, l);
      assert s'.records == s.records && s'.byId == s.byId && s'.byFile == s.byFile;
  }

  lemma IndexChange(records: map<Handle, Record>, byId: map<string, Handle>, byFile: map<string, Handle>, h: Handle, r: Record)
    requires Indexed(records, byId, byFile) && h in records && r.id == records[h].id && r.file == records[h].file
    ensures Indexed(records[h := r], byId, byFile)
  {
  }

  lemma IndexInsertion(records: map<Handle, Record>, byId: map<string, Handle>, byFile: map<string, Handle>, h: Handle, r: Record)
    requires Indexed(records, byId, byFile) && h !in records && r.id !in byId && r.file !in byFile
    ensures Indexed(records[h := r], byId[r.id := h], byFile[r.file := h])
  {
  }

  lemma IndexRemoval(records: map<Handle, Record>, byId: map<string, Handle>, byFile: map<string, Handle>, h: Handle)
    requires Indexed(records, byId, byFile) && h in records && records[h].id in byId && byId[records[h].id] == h
    ensures records[h].file in byFile && byFile[records[h].file] == h
    ensures Indexed(records, byId - {records[h].id}, byFile - {records[h].file})
    ensures forall id :: id in byId - {records[h].id} ==> byId[id] != h
    ensures forall file :: file in byFile - {records[h].file} ==> byFile[file] != h
  {
  }

  lemma IndexMove(records: map<Handle, Record>, byId: map<string, Handle>, byFile: map<string, Handle>, h: Handle, r: Record)
    requires Indexed(records, byId, byFile) && r.id !in byId && r.file !in byFile
    requires (forall id :: id in byId ==> byId[id] != h) && (forall file :: file in byFile ==> byFile[file] != h)
    ensures Indexed(records[h := r], byId[r.id := h], byFile[r.file := h])
  {
  }

  lemma RemovalSize<K, V>(m: map<K, V>, k: K)
    requires k in m
    ensures |m - {k}| == |m| - 1
  {
    assert (m - {k}).Keys == m.Keys - {k};
  }

  lemma InsertionSize<K, V>(m: map<K, V>, k: K, v: V)
    ensures |m[k := v]| == if k in m then |m| else |m| + 1
  {
    assert m[k := v].Keys == m.Keys + {k};
  }

  /** Every step keeps the reservation count exact and the capacity respected: granting
      needs room for the double count, registering trades a reservation for a record, and
      nothing else adds to either. */
  lemma StepKeepsAccounts(s: State, max: nat, l: Label)
    requires Inv(s, max) && Enabled(s, max, l)
    ensures var s' := Apply(s, max, l); Accounted(s'.tasks, s'.reserved, |s'.byId|, max)
  {
    if OfCall(l) { CallKeepsAccounts(s, max, l); } else { RecordKeepsAccounts(s, max, l); }
  }

  lemma CallKeepsAccounts(s: State, max: nat, l: Label)
    requires Inv(s, max) && Enabled(s, max, l) && OfCall(l)
    ensures var s' := Apply(s, max, l); Accounted(s'.tasks, s'.reserved, |s'.byId|, max)
  {
    hide Lined, OpensAgree, HoldsAgree, HandlesKnown, SourcesKnown, Indexed;
    match l
    case Begin(op, kind) => CountsAfterUpdate(s.tasks, op, Task(kind, Queued));
    case Evict(op, candidate) => CountsAfterUpdate(s.tasks, op, s.tasks[op].(stage := Evicting(candidate)));
    case Grant(op) =>
      CountsAfterUpdate(s.tasks, op, s.tasks[op].(stage := AfterGrant(s, s.tasks[op].kind)));
      UnregisteredAreHolding(s.tasks);
    case Recheck(op, fits) =>
      CountsAfterUpdate(s.tasks, op, s.tasks[op].(stage := AfterRecheck(s, s.tasks[op].stage.id, fits)));
      assert op in Holding(s.tasks) && op in Unregistered(s.tasks);
    case Refuse(op) => CountsAfterUpdate(s.tasks, op, s.tasks[op].(stage := Settled));
    case Release(op) => CountsAfterUpdate(s.tasks, op, s.tasks[op].(stage := Settled));
    case Rollback(op) => CountsAfterUpdate(s.tasks, op, s.tasks[op].(stage := Settled));
    case End(op) => CountsAfterRemoval(s.tasks, op);
  }

  lemma RecordKeepsAccounts(s: State, max: nat, l: Label)
    requires Inv(s, max) && Enabled(s, max, l) && !OfCall(l)
    ensures var s' := Apply(s, max, l); Accounted(s'.tasks, s'.reserved, |s'.byId|, max)
  {
    hide Lined, OpensAgree, HoldsAgree, HandlesKnown, SourcesKnown;
    match l
    case Register(op, h, record) => RegistrationKeepsAccounts(s, max, op, h, record);
    case FinishClose(h) => RemovalSize(s.byId, s.records[h].id);
    case Replace(h, id, file) => ReplacementSize(s, h, id);
    case _ =>
  }

  lemma RegistrationKeepsAccounts(s: State, max: nat, op: Op, h: Handle, record: Record)
    requires Inv(s, max) && Enabled(s, max, Register(op, h, record))
    ensures var s' := Apply(s, max, Register(op, h, record)); Accounted(s'.tasks, s'.reserved, |s'.byId|, max)
  {
    hide Lined, OpensAgree, HoldsAgree, HandlesKnown, SourcesKnown, Indexed;
    CountsAfterUpdate(s.tasks, op, s.tasks[op].(stage := Registered(h)));
    InsertionSize(s.byId, record.id, h);
    assert op in Holding(s.tasks) && op in Unregistered(s.tasks);
  }

  lemma UnregisteredAreHolding(tasks: map<Op, Task>)
    ensures |Unregistered(tasks)| <= |Holding(tasks)|
  {
    SubsetSize(Unregistered(tasks), Holding(tasks));
  }

  lemma {:induction false} SubsetSize<T>(a: set<T>, b: set<T>)
    requires a <= b
    ensures |a| <= |b|
  {
    if a != {} {
      var x :| x in a;
      SubsetSize(a - {x}, b - {x});
    }
  }

  lemma ReplacementSize(s: State, h: Handle, id: string)
    requires Indexed(s.records, s.byId, s.byFile) && Live(s, h)
    requires id in s.byId ==> s.byId[id] == h
    ensures |(s.byId - {s.records[h].id})[id := h]| == |s.byId|
  {
    RemovalSize(s.byId, s.records[h].id);
    InsertionSize(s.byId - {s.records[h].id}, id, h);
  }

  lemma StepKeepsLine(s: State, max: nat, l: Label)
    requires Inv(s, max) && Enabled(s, max, l)
    ensures var s' := Apply(s, max, l); Lined(s'.tasks, s'.line)
  {
    if l.Begin? || l.Grant? || l.Refuse? { LineMovesOn(s, max, l); } else { LineStays(s, max, l); }
  }

  lemma LineMovesOn(s: State, max: nat, l: Label)
    requires Lined(s.tasks, s.line) && Enabled(s, max, l) && (l.Begin? || l.Grant? || l.Refuse?)
    ensures var s' := Apply(s, max, l); Lined(s'.tasks, s'.line)
  {
    match l
    case Begin(op, kind) => LineGrows(s.tasks, s.line, op, Task(kind, Queued));
    case Grant(op) => LineMoves(s.tasks, s.line, op, AfterGrant(s, s.tasks[op].kind));
    case Refuse(op) => LineMoves(s.tasks, s.line, op, Settled);
  }

  lemma LineStays(s: State, max: nat, l: Label)
    requires Lined(s.tasks, s.line) && Enabled(s, max, l) && !l.Begin? && !l.Grant? && !l.Refuse?
    ensures var s' := Apply(s, max, l); Lined(s'.tasks, s'.line)
  {
    match l
    case Evict(op, candidate) =>
    case Recheck(op, fits) => LineUnmoved(s.tasks, s.line, op, AfterRecheck(s, s.tasks[op].stage.id, fits));
    case Register(op, h, record) => LineUnmoved(s.tasks, s.line, op, Registered(h));
    case Release(op) => LineUnmoved(s.tasks, s.line, op, Settled);
    case Rollback(op) => LineUnmoved(s.tasks, s.line, op, Settled);
    case _ =>
  }

  lemma LineGrows(tasks: map<Op, Task>, line: seq<Op>, op: Op, t: Task)
    requires Lined(tasks, line) && op !in tasks && t.stage == Queued
    ensures Lined(tasks[op := t], line + [op])
  {
    var line' := line + [op];
    assert line'[|line|] == op;
    forall o | o in tasks[op := t] && tasks[op := t][o].InLine() ensures o in line' {
      if o != op { assert o in line; }
    }
  }

  lemma LineMoves(tasks: map<Op, Task>, line: seq<Op>, op: Op, stage: Stage)
    requires Lined(tasks, line) && line != [] && line[0] == op && !stage.Queued? && !stage.Evicting?
    ensures op in tasks && Lined(WithStage(tasks, op, stage), line[1..])
  {
    var tasks', line' := WithStage(tasks, op, stage), line[1..];
    forall i | 0 <= i < |line'| ensures line'[i] in tasks' && tasks'[line'[i]].stage == Queued {
      assert line'[i] == line[i + 1];
    }
    forall o | o in tasks' && tasks'[o].InLine() ensures o in line' {
      assert o in line && o != op;
      var i :| 0 <= i < |line| && line[i] == o;
      assert line'[i - 1] == o;
    }
  }

  lemma LineUnmoved(tasks: map<Op, Task>, line: seq<Op>, op: Op, stage: Stage)
    requires Lined(tasks, line) && op in tasks && !tasks[op].InLine() && !stage.Queued? && !stage.Evicting?
    ensures Lined(WithStage(tasks, op, stage), line)
  {
  }

  /** Two opens of one canonical file are never under construction together. */
  lemma StepKeepsOpens(s: State, max: nat, l: Label)
    requires Inv(s, max) && Enabled(s, max, l)
    ensures var s' := Apply(s, max, l); OpensAgree(s'.tasks, s'.opens)
  {
    hide Accounted, Lined, HoldsAgree, HandlesKnown, SourcesKnown, Indexed;
    match l
    case Begin(op, kind) => OpensGrow(s.tasks, s.opens, op, kind);
    case Evict(op, candidate) => OpensUnmoved(s.tasks, s.opens, op, Evicting(candidate));
    case Grant(op) => OpensUnmoved(s.tasks, s.opens, op, AfterGrant(s, s.tasks[op].kind));
    case Recheck(op, fits) => OpensUnmoved(s.tasks, s.opens, op, AfterRecheck(s, s.tasks[op].stage.id, fits));
    case Refuse(op) => OpensUnmoved(s.tasks, s.opens, op, Settled);
    case Register(op, h, record) => OpensUnmoved(s.tasks, s.opens, op, Registered(h));
    case Release(op) => OpensUnmoved(s.tasks, s.opens, op, Settled);
    case Rollback(op) => OpensUnmoved(s.tasks, s.opens, op, Settled);
    case End(op) => OpensShrink(s.tasks, s.opens, op);
    case _ =>
  }

  lemma OpensGrow(tasks: map<Op, Task>, opens: map<string, Op>, op: Op, kind: Kind)
    requires OpensAgree(tasks, opens) && op !in tasks && (kind.Open? ==> kind.file !in opens)
    ensures OpensAgree(tasks[op := Task(kind, Queued)], if kind.Open? then opens[kind.file := op] else opens)
  {
  }

  lemma OpensUnmoved(tasks: map<Op, Task>, opens: map<string, Op>, op: Op, stage: Stage)
    requires OpensAgree(tasks, opens) && op in tasks
    ensures OpensAgree(WithStage(tasks, op, stage), opens)
  {
  }

  lemma OpensShrink(tasks: map<Op, Task>, opens: map<string, Op>, op: Op)
    requires OpensAgree(tasks, opens) && op in tasks
    ensures OpensAgree(tasks - {op}, if tasks[op].kind.Open? then opens - {tasks[op].kind.file} else opens)
  {
  }

  lemma ForksAfterUpdate(tasks: map<Op, Task>, op: Op, t: Task, h: Handle)
    ensures |Forking(tasks[op := t], h)| ==
            |Forking(tasks, h)| - (if op in tasks && tasks[op].kind == Fork(h) then 1 else 0) + (if t.kind == Fork(h) then 1 else 0)
  {
    OpsAfterUpdate(tasks, op, t, ForkOf(h));
  }

  /** The protection of a fork source counts the forks that are under way from it. */
  lemma StepKeepsHolds(s: State, max: nat, l: Label)
    requires Inv(s, max) && Enabled(s, max, l)
    ensures var s' := Apply(s, max, l); HoldsAgree(s'.tasks, s'.forkHolds)
  {
    hide Accounted, Lined, OpensAgree, HandlesKnown, SourcesKnown, Indexed;
    match l
    case Begin(op, kind) => HoldsGrow(s.tasks, s.forkHolds, op, Task(kind, Queued));
    case Evict(op, candidate) => HoldsUnmoved(s.tasks, s.forkHolds, op, Evicting(candidate));
    case Grant(op) => HoldsUnmoved(s.tasks, s.forkHolds, op, AfterGrant(s, s.tasks[op].kind));
    case Recheck(op, fits) => HoldsUnmoved(s.tasks, s.forkHolds, op, AfterRecheck(s, s.tasks[op].stage.id, fits));
    case Refuse(op) => HoldsUnmoved(s.tasks, s.forkHolds, op, Settled);
    case Register(op, h, record) => HoldsUnmoved(s.tasks, s.forkHolds, op, Registered(h));
    case Release(op) => HoldsUnmoved(s.tasks, s.forkHolds, op, Settled);
    case Rollback(op) => HoldsUnmoved(s.tasks, s.forkHolds, op, Settled);
    case End(op) => HoldsShrink(s.tasks, s.forkHolds, op);
    case _ =>
  }

  lemma HoldsUnmoved(tasks: map<Op, Task>, holds: map<Handle, nat>, op: Op, stage: Stage)
    requires HoldsAgree(tasks, holds) && op in tasks
    ensures HoldsAgree(WithStage(tasks, op, stage), holds)
  {
    forall h ensures |Forking(WithStage(tasks, op, stage), h)| == |Forking(tasks, h)| {
      ForksAfterUpdate(tasks, op, tasks[op].(stage := stage), h);
    }
  }

  lemma HoldsGrow(tasks: map<Op, Task>, holds: map<Handle, nat>, op: Op, t: Task)
    requires HoldsAgree(tasks, holds) && op !in tasks
    ensures var holds' := if !t.kind.Fork? then holds else
        holds[t.kind.source := (if t.kind.source in holds then holds[t.kind.source] else 0) + 1];
      HoldsAgree(tasks[op := t], holds')
  {
    forall h ensures |Forking(tasks[op := t], h)| == |Forking(tasks, h)| + (if t.kind == Fork(h) then 1 else 0) {
      ForksAfterUpdate(tasks, op, t, h);
    }
  }

  lemma ForksAfterRemoval(tasks: map<Op, Task>, op: Op, h: Handle)
    requires op in tasks
    ensures |Forking(tasks - {op}, h)| == |Forking(tasks, h)| - (if tasks[op].kind == Fork(h) then 1 else 0)
  {
    OpsAfterRemoval(tasks, op, ForkOf(h));
    assert op in Forking(tasks, h) <==> tasks[op].kind == Fork(h);
  }

  lemma HoldsShrink(tasks: map<Op, Task>, holds: map<Handle, nat>, op: Op)
    requires HoldsAgree(tasks, holds) && op in tasks
    ensures var holds' := if tasks[op].kind.Fork? then Dropped(holds, tasks[op].kind.source) else holds;
      HoldsAgree(tasks - {op}, holds')
  {
    forall h ensures |Forking(tasks - {op}, h)| == |Forking(tasks, h)| - (if tasks[op].kind == Fork(h) then 1 else 0) {
      ForksAfterRemoval(tasks, op, h);
    }
    if tasks[op].kind.Fork? {
      var source := tasks[op].kind.source;
      assert |Forking(tasks, source)| >= 1 && source in holds;
      DroppedByOne(holds, source);
    }
  }

  lemma DroppedByOne(holds: map<Handle, nat>, h: Handle)
    requires h in holds && forall k :: k in holds ==> holds[k] > 0
    ensures var less := Dropped(holds, h);
      && (forall k :: k in less ==> less[k] > 0)
      && (forall k :: (if k in less then less[k] else 0) == (if k in holds then holds[k] else 0) - (if k == h then 1 else 0))
  {
  }

  lemma StepKeepsHandles(s: State, max: nat, l: Label)
    requires Inv(s, max) && Enabled(s, max, l)
    ensures HandlesKnown(Apply(s, max, l))
  {
    hide Accounted, Lined, OpensAgree, HoldsAgree, SourcesKnown, Indexed;
    var s' := Apply(s, max, l);
    StepKeepsClosing(s, max, l);
    forall op | op in s'.tasks && s'.tasks[op].stage.Evicting? ensures s'.tasks[op].stage.candidate in s'.closing {
      assert op in s.tasks;
    }
  }

  lemma StepKeepsClosing(s: State, max: nat, l: Label)
    requires HandlesKnown(s) && Enabled(s, max, l)
    ensures var s' := Apply(s, max, l); s.closing <= s'.closing <= s'.records.Keys && s.records.Keys <= s'.records.Keys
  {
    if l.DisposeAll? {
      assert LiveHandles(s) <= s.records.Keys;
    } else if l.Register? || l.Change? || l.Replace? {
      KeysGrow(s.records, l.handle, Apply(s, max, l).records[l.handle]);
    } else {
      assert Apply(s, max, l).records == s.records;
    }
  }

  lemma KeysGrow<K, V>(m: map<K, V>, k: K, v: V)
    ensures m.Keys <= m[k := v].Keys
  {
  }

  lemma StepKeepsSources(s: State, max: nat, l: Label)
    requires Inv(s, max) && Enabled(s, max, l)
    ensures SourcesKnown(Apply(s, max, l))
  {
    hide Accounted, Lined, OpensAgree, HoldsAgree, HandlesKnown, Indexed;
    var s' := Apply(s, max, l);
    forall op | op in s'.tasks && s'.tasks[op].kind.Fork?
      ensures s'.tasks[op].kind.source in s'.records && !s'.records[s'.tasks[op].kind.source].owned
    {
      if op in s.tasks { assert s'.tasks[op].kind == s.tasks[op].kind; }
    }
    forall op | op in s'.tasks && (s'.tasks[op].stage.Granted? || s'.tasks[op].stage.Abandoned?) ensures s'.tasks[op].kind.Fork? {
      if op in s.tasks && s'.tasks[op] == s.tasks[op] { assert s.tasks[op].kind.Fork?; }
    }
  }

  lemma StepKeepsInv(s: State, max: nat, l: Label)
    requires Inv(s, max) && Enabled(s, max, l)
    ensures Inv(Apply(s, max, l), max)
  {
    StepKeepsIndexes(s, max, l);
    StepKeepsAccounts(s, max, l);
    StepKeepsLine(s, max, l);
    StepKeepsOpens(s, max, l);
    StepKeepsHolds(s, max, l);
    StepKeepsHandles(s, max, l);
    StepKeepsSources(s, max, l);
  }

  // -------------------------------------------------------------------- whole runs

  /** A run from the empty registry: one state before each label and one at the end. */
  ghost predicate IsRun(states: seq<State>, labels: seq<Label>, max: nat) {
    && |states| == |labels| + 1 && states[0] == EMPTY
    && forall i :: 0 <= i < |labels| ==> Enabled(states[i], max, labels[i]) && states[i + 1] == Apply(states[i], max, labels[i])
  }

  lemma EmptyInv(max: nat)
    ensures Inv(EMPTY, max)
  {
    assert Holding(EMPTY.tasks) == {} && Unregistered(EMPTY.tasks) == {};
    forall h ensures Forking(EMPTY.tasks, h) == {} { }
  }

  lemma {:induction false} RunKeepsInv(states: seq<State>, labels: seq<Label>, max: nat, i: nat)
    requires IsRun(states, labels, max) && i <= |labels|
    ensures Inv(states[i], max)
  {
    if i == 0 {
      EmptyInv(max);
    } else {
      RunKeepsInv(states, labels, max, i - 1);
      StepKeepsInv(states[i - 1], max, labels[i - 1]);
    }
  }

  /** In every interleaving, at every moment: registered records plus reservations that
      have not produced a record fit the limit; both indexes hold the same records under
      their current keys; and no two open calls work on one file. */
  lemma RegistrySafety(states: seq<State>, labels: seq<Label>, max: nat, i: nat)
    requires IsRun(states, labels, max) && i <= |labels|
    ensures var s := states[i];
      && |s.byId| + |Unregistered(s.tasks)| <= max
      && s.byId.Values == s.byFile.Values
      && (forall h :: h in s.byId.Values ==> Live(s, h) && s.records[h].file in s.byFile && s.byFile[s.records[h].file] == h)
      && (forall a, b :: a in s.tasks && b in s.tasks && s.tasks[a].kind.Open? && s.tasks[a].kind == s.tasks[b].kind ==> a == b)
  {
    RunKeepsInv(states, labels, max, i);
    var s := states[i];
    forall h | h in s.byId.Values ensures h in s.byFile.Values {
      var id :| id in s.byId && s.byId[id] == h;
      assert s.byFile[s.records[h].file] == h;
    }
    forall h | h in s.byFile.Values ensures h in s.byId.Values {
      var file :| file in s.byFile && s.byFile[file] == h;
      assert s.byId[s.records[h].id] == h;
    }
  }

  // ------------------------------------------------------------ the eviction loop

  /** What an eviction round uses up: a reservation without a record weighs two, since it
      can still become a record, and a record one. */
  function Weight(s: State): nat { 2 * |Unregistered(s.tasks)| + |s.byId| }

  // A call that may take its next decision, with no eviction of its own going on.
  predicate MayDecide(s: State, op: Op) {
    op in s.tasks && (s.tasks[op].stage.Queued? || (s.tasks[op].stage.Evicting? && !Live(s, s.tasks[op].stage.candidate)))
  }

  function Rank(s: State, op: Op): nat { Weight(s) + if MayDecide(s, op) then 1 else 0 }

  predicate FirstInLine(s: State, op: Op) {
    s.line != [] && s.line[0] == op && op in s.tasks && s.tasks[op].InLine()
  }

  /** Only a grant adds weight; finishing a close always takes some away. */
  lemma WeightNeverGrows(s: State, max: nat, l: Label)
    requires Inv(s, max) && Enabled(s, max, l) && !l.Grant?
    ensures Weight(Apply(s, max, l)) + (if l.FinishClose? then 1 else 0) <= Weight(s)
  {
    if OfCall(l) { CallAddsNoWeight(s, max, l); } else { RecordAddsNoWeight(s, max, l); }
  }

  lemma CallAddsNoWeight(s: State, max: nat, l: Label)
    requires Enabled(s, max, l) && OfCall(l) && !l.Grant?
    ensures Weight(Apply(s, max, l)) <= Weight(s)
  {
    match l
    case Begin(o, kind) => CountsAfterUpdate(s.tasks, o, Task(kind, Queued));
    case Evict(o, candidate) => CountsAfterUpdate(s.tasks, o, s.tasks[o].(stage := Evicting(candidate)));
    case Recheck(o, fits) =>
      CountsAfterUpdate(s.tasks, o, s.tasks[o].(stage := AfterRecheck(s, s.tasks[o].stage.id, fits)));
      assert o in Unregistered(s.tasks);
    case Refuse(o) => CountsAfterUpdate(s.tasks, o, s.tasks[o].(stage := Settled));
    case Release(o) => CountsAfterUpdate(s.tasks, o, s.tasks[o].(stage := Settled));
    case Rollback(o) => CountsAfterUpdate(s.tasks, o, s.tasks[o].(stage := Settled));
    case End(o) => CountsAfterRemoval(s.tasks, o);
  }

  lemma RecordAddsNoWeight(s: State, max: nat, l: Label)
    requires Indexed(s.records, s.byId, s.byFile) && Enabled(s, max, l) && !OfCall(l)
    ensures Weight(Apply(s, max, l)) + (if l.FinishClose? then 1 else 0) <= Weight(s)
  {
    hide Indexed;
    match l
    case Register(o, h, record) =>
      CountsAfterUpdate(s.tasks, o, s.tasks[o].(stage := Registered(h)));
      InsertionSize(s.byId, record.id, h);
      assert o in Unregistered(s.tasks);
    case FinishClose(h) => RemovalSize(s.byId, s.records[h].id);
    case Replace(h, id, file) => ReplacementSize(s, h, id);
    case _ =>
  }

  lemma LiveAfterInsertion(records: map<Handle, Record>, byId: map<string, Handle>, h: Handle, g: Handle, r: Record)
    requires LiveIn(records, byId, h) && g !in records && r.id !in byId
    ensures LiveIn(records[g := r], byId[r.id := g], h)
  {
  }

  lemma LiveAfterRemoval(records: map<Handle, Record>, byId: map<string, Handle>, h: Handle, g: Handle)
    requires LiveIn(records, byId, h) && LiveIn(records, byId, g) && g != h
    ensures LiveIn(records, byId - {records[g].id}, h)
  {
  }

  lemma LiveAfterMove(records: map<Handle, Record>, byId: map<string, Handle>, h: Handle, g: Handle, r: Record)
    requires LiveIn(records, byId, h) && LiveIn(records, byId, g) && (r.id in byId ==> byId[r.id] == g)
    ensures LiveIn(records[g := r], (byId - {records[g].id})[r.id := g], h)
  {
  }

  // A record leaves the index of identifiers only by the end of its close.
  lemma StaysLive(s: State, max: nat, l: Label, h: Handle)
    requires Enabled(s, max, l) && Live(s, h) && l != FinishClose(h)
    ensures Live(Apply(s, max, l), h)
  {
    match l
    case Register(op, g, record) => LiveAfterInsertion(s.records, s.byId, h, g, record);
    case FinishClose(g) => LiveAfterRemoval(s.records, s.byId, h, g);
    case Replace(g, id, file) => LiveAfterMove(s.records, s.byId, h, g, s.records[g].(id := id, file := file));
    case _ => assert Apply(s, max, l).byId == s.byId;
  }

  lemma FirstStaysFirst(s: State, max: nat, l: Label, op: Op)
    requires Inv(s, max) && Enabled(s, max, l) && FirstInLine(s, op)
    requires l != Grant(op) && l != Refuse(op)
    ensures var s' := Apply(s, max, l);
      && !l.Grant? && FirstInLine(s', op) && (l.Evict? ==> l.op == op)
      && (!l.Evict? ==> s'.tasks[op] == s.tasks[op])
  {
    hide Accounted, OpensAgree, HoldsAgree, HandlesKnown, SourcesKnown, Indexed;
  }

  /** While a call decides capacity, no step of anyone raises its rank, and each round of
      its eviction loop lowers it. */
  lemma RoundLowersRank(s: State, max: nat, l: Label, op: Op)
    requires Inv(s, max) && Enabled(s, max, l) && FirstInLine(s, op)
    requires l != Grant(op) && l != Refuse(op)
    ensures var s' := Apply(s, max, l);
      FirstInLine(s', op) && Rank(s', op) + (if l.Evict? then 1 else 0) <= Rank(s, op)
  {
    hide Accounted, Lined, OpensAgree, HoldsAgree, HandlesKnown, SourcesKnown, Indexed;
    FirstStaysFirst(s, max, l, op);
    WeightNeverGrows(s, max, l);
    var stage := s.tasks[op].stage;
    if stage.Evicting? && Live(s, stage.candidate) && !l.Evict? {
      if l != FinishClose(stage.candidate) { StaysLive(s, max, l, stage.candidate); }
    }
  }

  function Evictions(labels: seq<Label>, op: Op): nat {
    if labels == [] then 0
    else (if labels[0].Evict? && labels[0].op == op then 1 else 0) + Evictions(labels[1..], op)
  }

  lemma RoundOfRun(states: seq<State>, labels: seq<Label>, max: nat, op: Op, k: nat)
    requires IsRun(states, labels, max) && k < |labels| && FirstInLine(states[k], op)
    requires labels[k] != Grant(op) && labels[k] != Refuse(op)
    ensures FirstInLine(states[k + 1], op)
    ensures Rank(states[k + 1], op) + (if labels[k].Evict? && labels[k].op == op then 1 else 0) <= Rank(states[k], op)
  {
    RunKeepsInv(states, labels, max, k);
    RoundLowersRank(states[k], max, labels[k], op);
  }

  /** The eviction loop terminates under interference: whatever other calls do in the
      meantime, a call that has its turn evicts at most as often as its rank allows. */
  lemma {:induction false} EvictionsAreBounded(states: seq<State>, labels: seq<Label>, max: nat, op: Op, from: nat, n: nat)
    requires IsRun(states, labels, max) && from + n <= |labels|
    requires FirstInLine(states[from], op)
    requires forall k :: from <= k < from + n ==> labels[k] != Grant(op) && labels[k] != Refuse(op)
    ensures FirstInLine(states[from + n], op)
    ensures Rank(states[from + n], op) + Evictions(labels[from..from + n], op) <= Rank(states[from], op)
    decreases n
  {
    if n > 0 {
      RoundOfRun(states, labels, max, op, from);
      EvictionsAreBounded(states, labels, max, op, from + 1, n - 1);
      assert labels[from..from + n][1..] == labels[from + 1..from + n];
    }
  }

  // ---------------------------------------------------------------- fork sources

  // A protected record is the source of some fork, so no job owns it.
  lemma HeldHasFork(s: State, max: nat, h: Handle)
    requires Inv(s, max) && Hold(s, h) > 0
    ensures h in s.records && !s.records[h].owned
  {
    assert |Forking(s.tasks, h)| > 0;
    var op :| op in Forking(s.tasks, h);
  }

  // The two kinds of step that do not consult the protection of fork sources.
  predicate IgnoresHold(s: State, l: Label, h: Handle) {
    l.DisposeAll? || (l.Rollback? && l.op in s.tasks && s.tasks[l.op].stage == Registered(h))
  }

  // Which steps start closing this record.
  lemma ClosingStarts(s: State, max: nat, l: Label, h: Handle)
    requires Enabled(s, max, l) && h !in s.closing && Live(s, h) && Hold(s, h) > 0 && !s.records[h].owned
    ensures h in Apply(s, max, l).closing <==> IgnoresHold(s, l, h)
  {
    hide Older, TextBefore, Precedes;
    match l
    case Evict(op, candidate) => assert Evictable(s, candidate, s.tasks[op].kind);
    case DisposeAll => assert h in LiveHandles(s);
    case _ =>
  }

  /** A live fork source that is under protection stops being one exactly when the whole
      registry is disposed, or when it is itself a fork whose own call rolls it back.
      Neither eviction nor close does it. */
  lemma SourceLostExactlyWhen(s: State, max: nat, l: Label, h: Handle)
    requires Inv(s, max) && Enabled(s, max, l)
    requires Live(s, h) && h !in s.closing && Hold(s, h) > 0
    ensures var s' := Apply(s, max, l);
      Live(s', h) && h !in s'.closing <==> !IgnoresHold(s, l, h)
  {
    StaysLive(s, max, l, h);
    HeldHasFork(s, max, h);
    ClosingStarts(s, max, l, h);
  }

  lemma SourceOfRun(states: seq<State>, labels: seq<Label>, max: nat, h: Handle, k: nat)
    requires IsRun(states, labels, max) && k < |labels|
    requires Live(states[k], h) && h !in states[k].closing && h in states[k].forkHolds && !IgnoresHold(states[k], labels[k], h)
    ensures Live(states[k + 1], h) && h !in states[k + 1].closing
  {
    RunKeepsInv(states, labels, max, k);
    SourceLostExactlyWhen(states[k], max, labels[k], h);
  }

  /** From the reservation of a fork until its release, over any run without those two
      kinds of step, the source stays registered and is not being closed. */
  lemma {:induction false} SourceIsKept(states: seq<State>, labels: seq<Label>, max: nat, h: Handle, from: nat, n: nat)
    requires IsRun(states, labels, max) && from + n <= |labels|
    requires Live(states[from], h) && h !in states[from].closing
    requires forall k :: from <= k < from + n ==> h in states[k].forkHolds && !IgnoresHold(states[k], labels[k], h)
    ensures Live(states[from + n], h) && h !in states[from + n].closing
    decreases n
  {
    hide IsRun, Live, IgnoresHold;
    if n > 0 {
      SourceOfRun(states, labels, max, h, from);
      SourceIsKept(states, labels, max, h, from + 1, n - 1);
    }
  }

  /** A run can be continued by any enabled step. */
  lemma Extended(states: seq<State>, labels: seq<Label>, max: nat, l: Label)
    requires IsRun(states, labels, max) && Enabled(states[|labels|], max, l)
    ensures IsRun(states + [Apply(states[|labels|], max, l)], labels + [l], max)
  {
    hide Enabled, Apply;
  }

  const PARENT := Record("a", "fa", Idle, false, 0, 0, false)
  const CHILD := Record("b", "fb", Idle, false, 0, 0, false)

  // A run to the moment where one record is registered and its call still holds its
  // reservation.
  lemma ParentRegistered() returns (states: seq<State>, labels: seq<Label>)
    ensures IsRun(states, labels, 9)
    ensures states[|labels|] == State(map[1 := PARENT], map["a" := 1], map["fa" := 1], {}, map[], 1, [], map[], false,
                                      map[0 := Task(Create, Registered(1))])
  {
    var s1 := Apply(EMPTY, 9, Begin(0, Create));
    var s2 := Apply(s1, 9, Grant(0));
    var s3 := Apply(s2, 9, Register(0, 1, PARENT));
    labels := [Begin(0, Create), Grant(0), Register(0, 1, PARENT)];
    states := [EMPTY, s1, s2, s3];
  }

  // And on to the moment where the record of a fork from it is registered.
  lemma ForkRegistered() returns (states: seq<State>, labels: seq<Label>, s: State)
    ensures IsRun(states, labels, 9) && s == states[|labels|]
    ensures 1 in s.tasks && s.tasks[1] == Task(Fork(1), Registered(2))
    ensures 2 !in s.tasks && !s.shuttingDown && ForkSource(s, 2)
  {
    states, labels := ParentRegistered();
    var s3 := states[|labels|];
    InsertionSize(map[], "a", 1);
    Extended(states, labels, 9, Begin(1, Fork(1)));
    var s4 := Apply(s3, 9, Begin(1, Fork(1)));
    states, labels := states + [s4], labels + [Begin(1, Fork(1))];
    Extended(states, labels, 9, Grant(1));
    var s5 := Apply(s4, 9, Grant(1));
    states, labels := states + [s5], labels + [Grant(1)];
    Extended(states, labels, 9, Recheck(1, true));
    var s6 := Apply(s5, 9, Recheck(1, true));
    states, labels := states + [s6], labels + [Recheck(1, true)];
    Extended(states, labels, 9, Register(1, 2, CHILD));
    s := Apply(s6, 9, Register(1, 2, CHILD));
    states, labels := states + [s], labels + [Register(1, 2, CHILD)];
  }

  /** The exception is real: a fork that fails after its record was registered rolls that
      record back even though somebody is forking from it. */
  lemma RollbackTakesProtectedSource() returns (states: seq<State>, labels: seq<Label>, n: nat)
    ensures IsRun(states, labels, 9) && |labels| == n + 1
    ensures ForkSource(states[n], 2) && Hold(states[n], 2) > 0 && 2 in states[n + 1].closing
  {
    var s: State;
    states, labels, s := ForkRegistered();
    Extended(states, labels, 9, Begin(2, Fork(2)));
    var t := Apply(s, 9, Begin(2, Fork(2)));
    Extended(states + [t], labels + [Begin(2, Fork(2))], 9, Rollback(1));
    n := |labels| + 1;
    states, labels := states + [t] + [Apply(t, 9, Rollback(1))], labels + [Begin(2, Fork(2))] + [Rollback(1)];
  }

  // ------------------------------------------------------- what calls give back

  /** A granted fork finds that its source is gone. */
  predicate LosesItsSource(s: State, l: Label) {
    l.Recheck? && l.op in s.tasks && s.tasks[l.op].stage.Granted? && AfterRecheck(s, s.tasks[l.op].stage.id, l.fits).Abandoned?
  }

  function AbandonedOps(tasks: map<Op, Task>): set<Op> { set op | op in tasks && tasks[op].stage.Abandoned? }

  /** No call is under way; what is left of calls is what they left behind. */
  predicate Quiet(s: State) { forall op :: op in s.tasks ==> s.tasks[op].stage.Abandoned? }

  // A call that has left something behind never comes back to it.
  lemma AbandonedStays(s: State, max: nat, l: Label)
    requires Enabled(s, max, l)
    ensures var s' := Apply(s, max, l);
      AbandonedOps(s'.tasks) == if LosesItsSource(s, l) then AbandonedOps(s.tasks) + {l.op} else AbandonedOps(s.tasks)
  {
    var s' := Apply(s, max, l);
    forall op | op in AbandonedOps(s.tasks) ensures op in AbandonedOps(s'.tasks) { assert s'.tasks[op] == s.tasks[op]; }
    forall op | op in AbandonedOps(s'.tasks) && !(LosesItsSource(s, l) && op == l.op) ensures op in AbandonedOps(s.tasks) {
      assert op in s.tasks && s'.tasks[op] == s.tasks[op];
    }
  }

  // Some granted fork has found its source gone in this part of a run.
  ghost predicate SomeSourceLost(states: seq<State>, labels: seq<Label>, i: nat)
    requires i <= |labels| <= |states|
  {
    exists k: nat :: k < i && LosesItsSource(states[k], labels[k])
  }

  lemma {:induction false} AbandonedExactly(states: seq<State>, labels: seq<Label>, max: nat, i: nat)
    requires IsRun(states, labels, max) && i <= |labels|
    ensures AbandonedOps(states[i].tasks) != {} <==> SomeSourceLost(states, labels, i)
  {
    if i > 0 {
      AbandonedExactly(states, labels, max, i - 1);
      AbandonedStays(states[i - 1], max, labels[i - 1]);
      if SomeSourceLost(states, labels, i) {
        var k: nat :| k < i && LosesItsSource(states[k], labels[k]);
        assert k == i - 1 || SomeSourceLost(states, labels, i - 1);
      }
      if LosesItsSource(states[i - 1], labels[i - 1]) { assert labels[i - 1].op in AbandonedOps(states[i].tasks); }
    }
  }

  // Who waits in line, or opens a file, has not ended.
  lemma NothingWaits(s: State)
    requires Lined(s.tasks, s.line) && OpensAgree(s.tasks, s.opens) && SourcesKnown(s) && Quiet(s)
    ensures s.line == [] && s.opens == map[]
  {
    assert |s.line| > 0 ==> s.line[0] in s.tasks && s.tasks[s.line[0]].InLine();
  }

  lemma NothingHeld(s: State)
    requires HoldsAgree(s.tasks, s.forkHolds) && s.tasks == map[]
    ensures s.forkHolds == map[]
  {
    forall h ensures Forking(s.tasks, h) == {} { }
  }

  // What is reserved when no call is under way was left behind by some of them, once each.
  lemma QuietMeansLeft(s: State, max: nat)
    requires Inv(s, max) && Quiet(s)
    ensures s.line == [] && s.opens == map[] && s.reserved == |AbandonedOps(s.tasks)|
    ensures s.reserved == 0 ==> s.forkHolds == map[]
  {
    assert Holding(s.tasks) == AbandonedOps(s.tasks) == s.tasks.Keys;
    NothingWaits(s);
    if s.reserved == 0 {
      assert s.tasks == map[];
      NothingHeld(s);
    }
  }

  /** Over any run: when no call is under way any more, nobody waits and no open is pending;
      and every reservation and every protection has been given back, if and only if no
      granted fork ever found its source gone. */
  lemma AllGivenBackExactlyWhen(states: seq<State>, labels: seq<Label>, max: nat, i: nat)
    requires IsRun(states, labels, max) && i <= |labels| && Quiet(states[i])
    ensures states[i].line == [] && states[i].opens == map[]
    ensures states[i].reserved == 0 && states[i].forkHolds == map[] <==> !SomeSourceLost(states, labels, i)
  {
    RunKeepsInv(states, labels, max, i);
    QuietMeansLeft(states[i], max);
    AbandonedExactly(states, labels, max, i);
  }

  // One more step of a concrete run.
  lemma Step(states: seq<State>, labels: seq<Label>, max: nat, l: Label) returns (longer: seq<State>, more: seq<Label>, s: State)
    requires IsRun(states, labels, max) && Enabled(states[|labels|], max, l)
    ensures IsRun(longer, more, max) && more == labels + [l] && s == longer[|more|] == Apply(states[|labels|], max, l)
    ensures longer == states + [s]
  {
    Extended(states, labels, max, l);
    s := Apply(states[|labels|], max, l);
    longer, more := states + [s], labels + [l];
  }

  const THIRD := Record("c", "fc", Idle, false, 0, 0, false)

  lemma EmptyRun(max: nat) returns (states: seq<State>, labels: seq<Label>)
    ensures IsRun(states, labels, max) && states == [EMPTY] && labels == []
  {
    states, labels := [EMPTY], [];
  }

  // A record is created while nothing else goes on in line.
  lemma Created(states: seq<State>, labels: seq<Label>, max: nat, op: Op, h: Handle, r: Record)
    returns (longer: seq<State>, more: seq<Label>, t: State)
    requires IsRun(states, labels, max)
    requires var s := states[|labels|];
      && s.line == [] && s.reserved == 0 && op !in s.tasks && !s.shuttingDown && |s.byId| < max
      && h !in s.records && r.id !in s.byId && r.file !in s.byFile && !r.owned
    ensures IsRun(longer, more, max) && t == longer[|more|]
    ensures var s := states[|labels|];
      t == s.(records := s.records[h := r], byId := s.byId[r.id := h], byFile := s.byFile[r.file := h])
  {
    var s := states[|labels|];
    longer, more, t := Step(states, labels, max, Begin(op, Create));
    longer, more, t := Step(longer, more, max, Grant(op));
    longer, more, t := Step(longer, more, max, Register(op, h, r));
    longer, more, t := Step(longer, more, max, Release(op));
    longer, more, t := Step(longer, more, max, End(op));
    assert t.tasks == s.tasks;
  }

  // A fork is registered while nothing else goes on in line.
  lemma Forked(states: seq<State>, labels: seq<Label>, max: nat, op: Op, source: Handle, h: Handle, r: Record)
    returns (longer: seq<State>, more: seq<Label>, t: State)
    requires IsRun(states, labels, max)
    requires var s := states[|labels|];
      && s.line == [] && s.reserved == 0 && op !in s.tasks && !s.shuttingDown && |s.byId| < max && ForkSource(s, source)
      && h !in s.records && r.id !in s.byId && r.file !in s.byFile && !r.owned
    ensures IsRun(longer, more, max) && t == longer[|more|]
    ensures var s := states[|labels|];
      t == s.(records := s.records[h := r], byId := s.byId[r.id := h], byFile := s.byFile[r.file := h],
              forkHolds := s.forkHolds[source := Hold(s, source) + 1], tasks := s.tasks[op := Task(Fork(source), Registered(h))])
  {
    var s := states[|labels|];
    longer, more, t := Step(states, labels, max, Begin(op, Fork(source)));
    longer, more, t := Step(longer, more, max, Grant(op));
    longer, more, t := Step(longer, more, max, Recheck(op, true));
    longer, more, t := Step(longer, more, max, Register(op, h, r));
    assert t.tasks == s.tasks[op := Task(Fork(source), Registered(h))];
  }

  // Three records fill the registry: an idle one, one that is being forked, and its fork.
  lemma RegistryFilled() returns (states: seq<State>, labels: seq<Label>, s: State)
    ensures IsRun(states, labels, 3) && s == states[|labels|]
    ensures s == State(map[1 := PARENT, 3 := THIRD, 2 := CHILD], map["a" := 1, "c" := 3, "b" := 2],
                       map["fa" := 1, "fc" := 3, "fb" := 2], {}, map[1 := 1], 0, [], map[], false,
                       map[1 := Task(Fork(1), Registered(2))])
  {
    hide IsRun;
    states, labels := EmptyRun(3);
    states, labels, s := Created(states, labels, 3, 0, 1, PARENT);
    InsertionSize(map[], "a", 1);
    states, labels, s := Created(states, labels, 3, 0, 3, THIRD);
    InsertionSize(map["a" := 1], "c", 3);
    states, labels, s := Forked(states, labels, 3, 1, 1, 2, CHILD);
  }

  const THREE := map[1 := PARENT, 3 := THIRD, 2 := CHILD]

  // A state of the three records, with all of them indexed.
  function Full(closing: set<Handle>, holds: map<Handle, nat>, line: seq<Op>, tasks: map<Op, Task>): State {
    State(THREE, map["a" := 1, "c" := 3, "b" := 2], map["fa" := 1, "fc" := 3, "fb" := 2], closing, holds, 0, line, map[], false, tasks)
  }

  lemma OnlyThirdIsEvictable(tasks: map<Op, Task>)
    ensures LeastRecentlyUsed(Full({}, map[1 := 1, 2 := 1], [2], tasks), 3, Fork(2))
  {
    var s := Full({}, map[1 := 1, 2 := 1], [2], tasks);
    assert Hold(s, 1) == 1;
    assert forall k :: Evictable(s, k, Fork(2)) ==> k == 3;
    NotOlderThanItself(THIRD);
  }

  lemma FullCount()
    ensures |map["a" := 1, "c" := 3, "b" := 2]| == 3
  {
    InsertionSize(map[], "a", 1);
    InsertionSize(map["a" := 1], "c", 3);
    InsertionSize(map["a" := 1, "c" := 3], "b", 2);
  }

  // A fork of the fork waits for the idle record to go.
  lemma ForkWaits() returns (states: seq<State>, labels: seq<Label>, s: State)
    ensures IsRun(states, labels, 3) && s == states[|labels|]
    ensures s == State(THREE, map["a" := 1, "c" := 3, "b" := 2], map["fa" := 1, "fc" := 3, "fb" := 2], {3}, map[1 := 1, 2 := 1],
                       0, [2], map[], false, map[1 := Task(Fork(1), Registered(2)), 2 := Task(Fork(2), Evicting(3))])
  {
    hide IsRun, LeastRecentlyUsed;
    states, labels, s := RegistryFilled();
    FullCount();
    states, labels, s := Step(states, labels, 3, Begin(2, Fork(2)));
    var tasks := map[1 := Task(Fork(1), Registered(2)), 2 := Task(Fork(2), Queued)];
    assert s == Full({}, map[1 := 1, 2 := 1], [2], tasks);
    OnlyThirdIsEvictable(tasks);
    states, labels, s := Step(states, labels, 3, Evict(2, 3));
  }

  // The call of a fork fails and ends.
  lemma RolledBack(states: seq<State>, labels: seq<Label>, max: nat, op: Op, source: Handle, h: Handle)
    returns (longer: seq<State>, more: seq<Label>, t: State)
    requires IsRun(states, labels, max)
    requires var s := states[|labels|]; op in s.tasks && s.tasks[op] == Task(Fork(source), Registered(h)) && Live(s, h)
    ensures IsRun(longer, more, max) && t == longer[|more|]
    ensures var s := states[|labels|];
      t == s.(closing := s.closing + {h}, forkHolds := Dropped(s.forkHolds, source), tasks := s.tasks - {op})
  {
    var s := states[|labels|];
    longer, more, t := Step(states, labels, max, Rollback(op));
    longer, more, t := Step(longer, more, max, End(op));
    assert t.tasks == s.tasks - {op};
  }

  // Meanwhile the call of the first fork fails, and takes its record back.
  lemma SourceRolledBack() returns (states: seq<State>, labels: seq<Label>, s: State)
    ensures IsRun(states, labels, 3) && s == states[|labels|]
    ensures s == State(THREE, map["a" := 1, "c" := 3, "b" := 2], map["fa" := 1, "fc" := 3, "fb" := 2], {3, 2}, map[2 := 1],
                       0, [2], map[], false, map[2 := Task(Fork(2), Evicting(3))])
  {
    states, labels, s := ForkWaits();
    states, labels, s := RolledBack(states, labels, 3, 1, 1, 2);
    assert s.closing == {3, 2} && s.forkHolds == map[2 := 1];
    assert s.tasks == map[2 := Task(Fork(2), Evicting(3))];
  }

  // The end of a close, in the two indexes.
  lemma Finished(states: seq<State>, labels: seq<Label>, max: nat, h: Handle)
    returns (longer: seq<State>, more: seq<Label>, t: State)
    requires IsRun(states, labels, max)
    requires var s := states[|labels|]; h in s.closing && Live(s, h) && s.records[h].file in s.byFile && s.byFile[s.records[h].file] == h
    ensures IsRun(longer, more, max) && t == longer[|more|]
    ensures var s := states[|labels|]; t == s.(byId := s.byId - {s.records[h].id}, byFile := s.byFile - {s.records[h].file})
  {
    longer, more, t := Step(states, labels, max, FinishClose(h));
  }

  lemma SourceGoneWhileWaiting() returns (states: seq<State>, labels: seq<Label>, s: State)
    ensures IsRun(states, labels, 3) && s == states[|labels|]
    ensures s == State(THREE, map["a" := 1], map["fa" := 1], {3, 2}, map[2 := 1],
                       0, [2], map[], false, map[2 := Task(Fork(2), Evicting(3))])
  {
    hide IsRun;
    states, labels, s := SourceRolledBack();
    states, labels, s := Finished(states, labels, 3, 2);
    assert s.byId == map["a" := 1, "c" := 3] && s.byFile == map["fa" := 1, "fc" := 3];
    states, labels, s := Finished(states, labels, 3, 3);
    assert s.byId == map["a" := 1] && s.byFile == map["fa" := 1];
  }

  /** It does happen: a fork waits for an eviction while its source, itself the record of a
      fork, is rolled back. It is granted its reservation, finds the source gone, and ends;
      the slot and the protection stay taken with no call under way. */
  lemma LostSourceLeaks() returns (states: seq<State>, labels: seq<Label>)
    ensures IsRun(states, labels, 3) && Quiet(states[|labels|])
    ensures states[|labels|].reserved == 1 && states[|labels|].forkHolds == map[2 := 1]
  {
    var s: State;
    states, labels, s := SourceGoneWhileWaiting();
    InsertionSize(map[], "a", 1);
    states, labels, s := Step(states, labels, 3, Grant(2));
    states, labels, s := Step(states, labels, 3, Recheck(2, true));
  }
}
