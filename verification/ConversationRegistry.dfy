/** The registry as the object it is: its maps, counter and queue of capacity decisions,
    changed in place by one method per synchronous stretch. Every method takes exactly
    the step of `Registry` that it stands for, or leaves the object alone and says why. */
module ConversationRegistry {
  import opened Registry

  datatype Refusal = ShuttingDown | NotFound | Busy | Taken | InvalidTarget

  datatype OpenOutcome = Refused(why: Refusal) | AlreadyLive(handle: Handle) | ClosingFirst(handle: Handle)
    | Joining(other: Op) | Constructing

  datatype Decision = Granted | EvictionStarted(candidate: Handle) | LimitReached | Declined

  datatype Registration = Inserted | Duplicate(handle: Handle) | TooLate

  class ConversationRegistry {
    const max: nat
    var records: map<Handle, Record>
    var byId: map<string, Handle>
    var bySessionFile: map<string, Handle>
    var pendingCloses: set<Handle>
    var forkSourceReservations: map<Handle, nat>
    var capacityReservations: nat
    var capacityLine: seq<Op>
    var pendingOpens: map<string, Op>
    var shuttingDown: bool
    // The calls that are suspended at an await.
    ghost var tasks: map<Op, Task>

    ghost function View(): State
      reads this
    {
      State(records, byId, bySessionFile, pendingCloses, forkSourceReservations, capacityReservations,
            capacityLine, pendingOpens, shuttingDown, tasks)
    }

    ghost predicate Valid()
      reads this
    {
      Inv(View(), max)
    }

    // The object took this step.
    twostate predicate Took(l: Label)
      reads this
    {
      old(Valid()) && old(Enabled(View(), max, l)) && Valid() && View() == Apply(old(View()), max, l)
    }

    twostate lemma StaysValid(l: Label)
      requires old(Valid()) && old(Enabled(View(), max, l)) && View() == Apply(old(View()), max, l)
      ensures Took(l)
    {
      StepKeepsInv(old(View()), max, l);
    }

    constructor (maxLiveConversations: nat)
      ensures Valid() && View() == EMPTY && max == maxLiveConversations
    {
      max := maxLiveConversations;
      records, byId, bySessionFile, pendingCloses := map[], map[], map[], {};
      forkSourceReservations, capacityReservations, capacityLine := map[], 0, [];
      pendingOpens, shuttingDown, tasks := map[], false, map[];
      new;
      EmptyInv(max);
    }

    method HasForkReservation(h: Handle) returns (r: bool)
      ensures r <==> Hold(View(), h) > 0
    {
      r := h in forkSourceReservations && forkSourceReservations[h] > 0;
    }

    // --------------------------------------------------------- beginnings of calls

    method BeginCreate(op: Op) returns (accepted: bool)
      requires Valid() && op !in tasks
      modifies this
      ensures accepted <==> !old(shuttingDown)
      ensures if accepted then Took(Begin(op, Create)) else unchanged(this)
    {
      if shuttingDown { return false; }
      capacityLine := capacityLine + [op];
      tasks := tasks[op := Task(Create, Queued)];
      StaysValid(Begin(op, Create));
      accepted := true;
    }

    method BeginJob(op: Op) returns (accepted: bool)
      requires Valid() && op !in tasks
      modifies this
      ensures accepted <==> !old(shuttingDown)
      ensures if accepted then Took(Begin(op, Job)) else unchanged(this)
    {
      if shuttingDown { return false; }
      capacityLine := capacityLine + [op];
      tasks := tasks[op := Task(Job, Queued)];
      StaysValid(Begin(op, Job));
      accepted := true;
    }

    /** `open`, after its path was made canonical. */
    method BeginOpen(op: Op, file: string) returns (r: OpenOutcome)
      requires Valid() && op !in tasks
      modifies this
      ensures r.Constructing? <==> !old(shuttingDown) && file !in old(bySessionFile) && file !in old(pendingOpens)
      ensures if r.Constructing? then Took(Begin(op, Open(file))) else unchanged(this)
      ensures r.AlreadyLive? || r.ClosingFirst? ==>
        file in bySessionFile && r.handle == bySessionFile[file] && (r.ClosingFirst? <==> r.handle in pendingCloses)
      ensures r.Joining? ==> file in pendingOpens && r.other == pendingOpens[file] && file !in bySessionFile
      ensures r.Refused? <==> old(shuttingDown)
    {
      if shuttingDown { return Refused(ShuttingDown); }
      if file in bySessionFile {
        var existing := bySessionFile[file];
        return if existing in pendingCloses then ClosingFirst(existing) else AlreadyLive(existing);
      }
      if file in pendingOpens { return Joining(pendingOpens[file]); }
      pendingOpens := pendingOpens[file := op];
      capacityLine := capacityLine + [op];
      tasks := tasks[op := Task(Open(file), Queued)];
      StaysValid(Begin(op, Open(file)));
      r := Constructing;
    }

    /** `reserveFork`, up to its wait for capacity. The entry to fork from must be one of the
        user's on the active branch. */
    method BeginFork(op: Op, id: string, entryOnBranch: bool) returns (refusal: set<Refusal>)
      requires Valid() && op !in tasks
      modifies this
      ensures refusal == {} || refusal == {InvalidTarget} <==> old(!shuttingDown && id in byId && !records[byId[id]].owned &&
        records[byId[id]].status == Idle && !records[byId[id]].sessionStreaming && byId[id] !in pendingCloses)
      ensures (refusal == {ShuttingDown} <==> old(shuttingDown)) && (refusal == {NotFound} <==> !old(shuttingDown) && id !in old(byId))
      ensures refusal == {} ==> entryOnBranch
      ensures refusal == {InvalidTarget} ==> !entryOnBranch
      ensures if refusal == {} then old(id in byId) && Took(Begin(op, Fork(old(byId)[id]))) else unchanged(this)
    {
      if shuttingDown { return {ShuttingDown}; }
      if id !in byId { return {NotFound}; }
      var h := byId[id];
      var record := records[h];
      if record.owned || record.status != Idle || record.sessionStreaming || h in pendingCloses { return {Busy}; }
      if !entryOnBranch { return {InvalidTarget}; }
      Protect(op, h);
      refusal := {};
    }

    // The source is protected before the call queues for capacity.
    method Protect(op: Op, h: Handle)
      requires Valid() && Enabled(View(), max, Begin(op, Fork(h)))
      modifies this
      ensures Took(Begin(op, Fork(h)))
    {
      hide Inv;
      var held := if h in forkSourceReservations then forkSourceReservations[h] else 0;
      forkSourceReservations := forkSourceReservations[h := held + 1];
      capacityLine := capacityLine + [op];
      tasks := tasks[op := Task(Fork(h), Queued)];
      StaysValid(Begin(op, Fork(h)));
    }

    // ---------------------------------------------------------- capacity decisions

    /** `#leastRecentlyUsedIdle`: the scan over all registered records. */
    method LeastRecentlyUsedIdle(protected: Kind) returns (found: bool, candidate: Handle)
      requires Valid()
      ensures found ==> LeastRecentlyUsed(View(), candidate, protected)
      ensures found ==> forall k :: Evictable(View(), k, protected) ==>
        && records[candidate].lastActiveAt <= records[k].lastActiveAt
        && (records[candidate].lastActiveAt == records[k].lastActiveAt ==> records[candidate].createdAt <= records[k].createdAt)
        && (records[candidate].lastActiveAt == records[k].lastActiveAt && records[candidate].createdAt == records[k].createdAt ==>
              !Precedes(records[k].id, records[candidate].id))
      ensures !found ==> forall h :: !Evictable(View(), h, protected)
    {
      hide Accounted, Lined, OpensAgree, HoldsAgree, HandlesKnown, SourcesKnown;
      found, candidate := false, 0;
      var rest := byId.Values;
      while rest != {}
        invariant rest <= byId.Values
        invariant found ==> Evictable(View(), candidate, protected)
        invariant forall k :: Evictable(View(), k, protected) && k !in rest ==>
          found && !Older(records[k], records[candidate])
        decreases rest
      {
        var h :| h in rest;
        rest := rest - {h};
        var record := records[h];
        var held := HasForkReservation(h);
        if protected == Fork(h) || record.status != Idle || record.sessionStreaming || h in pendingCloses || held {
          assert !Evictable(View(), h, protected);
        } else if !found || Older(record, records[candidate]) {
          StillLeast(candidate, h, rest, protected, found);
          found, candidate := true, h;
        }
      }
      if found {
        LeastRecentlyUsedOnFields(View(), candidate, protected);
      }
    }

    lemma StillLeast(candidate: Handle, h: Handle, rest: set<Handle>, protected: Kind, found: bool)
      requires Valid() && Evictable(View(), h, protected)
      requires found ==> Evictable(View(), candidate, protected) && Older(records[h], records[candidate])
      requires forall k :: Evictable(View(), k, protected) && k !in rest && k != h ==>
        found && !Older(records[k], records[candidate])
      ensures forall k :: Evictable(View(), k, protected) && k !in rest ==> !Older(records[k], records[h])
    {
      forall k | Evictable(View(), k, protected) && k !in rest ensures !Older(records[k], records[h]) {
        if Older(records[k], records[h]) {
          if k == h { NotOlderThanItself(records[h]); } else { OlderTransitive(records[k], records[h], records[candidate]); }
        }
      }
    }

    /** One turn of `#reserveCapacity`. The first turn checks admission, and for a fork
        its source again; every turn then compares the count with the limit: room means
        a reservation; no room means evicting the least recently used record, or giving
        up. */
    method DecideCapacity(op: Op, kind: Kind, firstTurn: bool, entryStillThere: bool) returns (r: Decision)
      requires Valid() && Turn(View(), op) && tasks[op].kind == kind && (firstTurn <==> tasks[op].stage.Queued?)
      modifies this
      ensures r.Declined? ==> firstTurn
      ensures firstTurn && !kind.Fork? ==> (r.Declined? <==> old(shuttingDown))
      ensures firstTurn && kind.Fork? ==> (!r.Declined? <==> !old(shuttingDown) && entryStillThere && old(
        && kind.source in byId.Values && !records[kind.source].owned && records[kind.source].status == Idle
        && !records[kind.source].sessionStreaming && kind.source !in pendingCloses))
      ensures r.Granted? ==> Took(Grant(op))
      ensures r.EvictionStarted? ==> Took(Evict(op, r.candidate)) && records == old(records)
      ensures r.EvictionStarted? ==> forall k :: old(Evictable(View(), k, kind)) ==>
        && records[r.candidate].lastActiveAt <= records[k].lastActiveAt
        && (records[r.candidate].lastActiveAt == records[k].lastActiveAt ==> records[r.candidate].createdAt <= records[k].createdAt)
        && (records[r.candidate].lastActiveAt == records[k].lastActiveAt && records[r.candidate].createdAt == records[k].createdAt ==>
              !Precedes(records[k].id, records[r.candidate].id))
      ensures r.LimitReached? || r.Declined? ==> Took(Refuse(op))
      ensures !r.Declined? ==> (r.Granted? <==> old(|byId| + capacityReservations) < max)
      ensures r.LimitReached? ==> old(|byId| + capacityReservations) >= max && forall h :: !old(Evictable(View(), h, kind))
    {
      if firstTurn {
        var admitted := StillAdmitted(kind, entryStillThere);
        if !admitted {
          AbandonDecision(op);
          return Declined;
        }
      }
      if |byId| + capacityReservations < max {
        TakeReservation(op);
        return Decision.Granted;
      }
      var found, candidate := LeastRecentlyUsedIdle(kind);
      if !found {
        AbandonDecision(op);
        return LimitReached;
      }
      LeastRecentlyUsedOnFields(View(), candidate, kind);
      StartEviction(op, candidate);
      r := EvictionStarted(candidate);
    }

    method StillAdmitted(kind: Kind, entryStillThere: bool) returns (admitted: bool)
      requires Valid()
      ensures admitted <==> !shuttingDown && (kind.Fork? ==> entryStillThere && ForkSource(View(), kind.source))
    {
      if shuttingDown { return false; }
      if !kind.Fork? { return true; }
      admitted := IsForkSource(kind.source);
      admitted := admitted && entryStillThere;
    }

    method TakeReservation(op: Op)
      requires Valid() && Turn(View(), op) && |byId| + capacityReservations < max
      modifies this
      ensures Took(Grant(op))
    {
      capacityReservations := capacityReservations + 1;
      capacityLine := capacityLine[1..];
      tasks := WithStage(tasks, op, AfterGrant(View(), tasks[op].kind));
      StaysValid(Grant(op));
    }

    /** The first stretch of `fork` behind its reservation: the source is looked up again, by
        its identifier, outside the `try` that would give the reservation back. */
    method RecheckSource(op: Op, source: Handle, id: string, fits: bool) returns (found: bool)
      requires Valid() && op in tasks && tasks[op] == Task(Fork(source), Stage.Granted(id))
      requires id in byId && byId[id] == source ==> fits
      modifies this
      ensures Took(Recheck(op, fits)) && found == (id in old(byId) && fits)
      ensures capacityReservations == old(capacityReservations) && forkSourceReservations == old(forkSourceReservations)
      ensures tasks[op].stage == if found then Reserved else Abandoned
    {
      found := id in byId && fits;
      tasks := WithStage(tasks, op, AfterRecheck(View(), id, fits));
      StaysValid(Recheck(op, fits));
    }

    method StartEviction(op: Op, candidate: Handle)
      requires Valid() && Turn(View(), op) && |byId| + capacityReservations >= max
      requires LeastRecentlyUsed(View(), candidate, tasks[op].kind)
      modifies this
      ensures Took(Evict(op, candidate))
    {
      pendingCloses := pendingCloses + {candidate};
      tasks := WithStage(tasks, op, Evicting(candidate));
      StaysValid(Evict(op, candidate));
    }

    /** The disposal that a decision waited for failed, so the call fails with it. */
    method AbandonDecision(op: Op)
      requires Valid() && Turn(View(), op)
      modifies this
      ensures Took(Refuse(op))
    {
      capacityLine := capacityLine[1..];
      tasks := WithStage(tasks, op, Settled);
      StaysValid(Refuse(op));
    }

    method IsForkSource(h: Handle) returns (r: bool)
      requires Valid()
      ensures r <==> ForkSource(View(), h)
    {
      if h !in records || records[h].id !in byId || byId[records[h].id] != h { return false; }
      var record := records[h];
      r := !record.owned && record.status == Idle && !record.sessionStreaming && h !in pendingCloses;
    }

    // ------------------------------------------------------- registration and after

    /** The last stretch of `#register`: the final duplicate check and the insertion,
        with no await between them. */
    method InsertRecord(op: Op, kind: Kind, h: Handle, record: Record) returns (r: Registration)
      requires Valid() && op in tasks && tasks[op] == Task(kind, Reserved)
      requires h !in records && (record.owned <==> kind.Job?)
      modifies this
      ensures r.Inserted? ==> Took(Register(op, h, record))
      ensures !r.Inserted? ==> unchanged(this)
      ensures r.TooLate? <==> old(shuttingDown)
      ensures r.Duplicate? ==>
        (record.id in byId && r.handle == byId[record.id]) || (record.file in bySessionFile && r.handle == bySessionFile[record.file])
    {
      if shuttingDown { return TooLate; }
      if record.id in byId { return Duplicate(byId[record.id]); }
      if record.file in bySessionFile { return Duplicate(bySessionFile[record.file]); }
      Insert(op, kind, h, record);
      r := Inserted;
    }

    method Insert(op: Op, kind: Kind, h: Handle, record: Record)
      requires Valid() && op in tasks && tasks[op].kind == kind && Enabled(View(), max, Register(op, h, record))
      modifies this
      ensures Took(Register(op, h, record))
    {
      hide Inv;
      Index(h, record);
      if kind.Fork? || kind.Job? {
        capacityReservations := Less(capacityReservations);
      }
      tasks := WithStage(tasks, op, Registered(h));
      StaysValid(Register(op, h, record));
    }

    method Index(h: Handle, record: Record)
      modifies this`records, this`byId, this`bySessionFile
      ensures records == old(records)[h := record]
      ensures byId == old(byId)[record.id := h] && bySessionFile == old(bySessionFile)[record.file := h]
    {
      records := records[h := record];
      byId := byId[record.id := h];
      bySessionFile := bySessionFile[record.file := h];
    }

    /** `releaseCapacity`, and the settlement of a lease: the counter falls only if this
        call still holds its reservation. */
    method ReleaseCapacity(op: Op, held: bool)
      requires Valid() && op in tasks && (tasks[op].stage.Reserved? || tasks[op].stage.Registered?)
      requires held <==> tasks[op].HoldsCapacity()
      modifies this
      ensures Took(Release(op))
    {
      if held {
        capacityReservations := Less(capacityReservations);
      }
      tasks := WithStage(tasks, op, Settled);
      StaysValid(Release(op));
    }

    /** The end of a call: an open leaves the table of pending opens, and a fork gives up
        the protection of its source. */
    method EndCall(op: Op, kind: Kind)
      requires Valid() && op in tasks && tasks[op] == Task(kind, Settled)
      modifies this
      ensures Took(End(op))
    {
      hide Inv;
      if kind.Open? {
        pendingOpens := pendingOpens - {kind.file};
      }
      if kind.Fork? {
        forkSourceReservations := Dropped(forkSourceReservations, kind.source);
      }
      tasks := tasks - {op};
      StaysValid(End(op));
    }

    /** A fork that fails after registration disposes its own record, if it is still the
        one registered. */
    method RollbackFork(op: Op, h: Handle) returns (rolledBack: bool)
      requires Valid() && op in tasks && tasks[op].kind.Fork? && tasks[op].stage == Registered(h)
      modifies this
      ensures rolledBack <==> old(Live(View(), h))
      ensures if rolledBack then Took(Rollback(op)) else unchanged(this)
    {
      if records[h].id !in byId || byId[records[h].id] != h { return false; }
      pendingCloses := pendingCloses + {h};
      tasks := WithStage(tasks, op, Settled);
      StaysValid(Rollback(op));
      rolledBack := true;
    }

    // ------------------------------------------------------------ closing and moving

    /** `close`. */
    method BeginClose(id: string) returns (refusal: set<Refusal>)
      requires Valid()
      modifies this
      ensures refusal == {} ==> old(id in byId) && Took(Close(old(byId)[id]))
      ensures refusal != {} ==> unchanged(this)
      ensures refusal == {NotFound} <==> id !in old(byId)
      ensures refusal == {} <==> old(id in byId && !records[byId[id]].owned && byId[id] !in forkSourceReservations &&
        records[byId[id]].status in {Idle, Status.Error} && !records[byId[id]].sessionStreaming)
    {
      if id !in byId { return {NotFound}; }
      var h := byId[id];
      var held := HasForkReservation(h);
      if records[h].owned || records[h].Busy() || held { return {Busy}; }
      pendingCloses := pendingCloses + {h};
      StaysValid(Close(h));
      refusal := {};
    }

    /** `releaseJobConversation`, for the owner of the record. */
    method BeginReleaseJob(id: string) returns (accepted: bool)
      requires Valid()
      modifies this
      ensures accepted ==> old(id in byId) && Took(ReleaseJob(old(byId)[id]))
      ensures !accepted ==> unchanged(this)
      ensures accepted <==> old(id in byId && records[byId[id]].owned && byId[id] !in pendingCloses)
    {
      if id !in byId { return false; }
      var h := byId[id];
      if !records[h].owned || h in pendingCloses { return false; }
      pendingCloses := pendingCloses + {h};
      StaysValid(ReleaseJob(h));
      accepted := true;
    }

    /** The end of `#disposeRecord`: a record leaves both indexes, under the keys it has
        by then. */
    method CompleteClose(h: Handle)
      requires Valid() && h in pendingCloses && Live(View(), h)
      modifies this
      ensures Took(FinishClose(h))
    {
      var record := records[h];
      byId := byId - {record.id};
      if record.file in bySessionFile && bySessionFile[record.file] == h {
        bySessionFile := bySessionFile - {record.file};
      }
      StaysValid(FinishClose(h));
    }

    /** `#replaceIdentity`: a conflict turns the record into an error and moves nothing. */
    method ReplaceIdentity(h: Handle, id: string, file: string) returns (moved: bool)
      requires Valid() && Live(View(), h) && h !in pendingCloses
      modifies this
      ensures moved <==> old((id in byId ==> byId[id] == h) && (file in bySessionFile ==> bySessionFile[file] == h))
      ensures if moved then Took(Replace(h, id, file)) else Took(Change(h, old(records)[h].(status := Error)))
    {
      hide Inv;
      var record := records[h];
      if (id in byId && byId[id] != h) || (file in bySessionFile && bySessionFile[file] != h) {
        records := records[h := record.(status := Error)];
        StaysValid(Change(h, record.(status := Error)));
        return false;
      }
      Move(h, id, file);
      moved := true;
    }

    method Move(h: Handle, id: string, file: string)
      requires Valid() && Enabled(View(), max, Replace(h, id, file))
      modifies this
      ensures Took(Replace(h, id, file))
    {
      hide Inv;
      var record := records[h];
      byId := byId - {record.id};
      if record.file in bySessionFile && bySessionFile[record.file] == h {
        bySessionFile := bySessionFile - {record.file};
      }
      records := records[h := record.(id := id, file := file)];
      byId := byId[id := h];
      bySessionFile := bySessionFile[file := h];
      StaysValid(Replace(h, id, file));
    }

    /** `beginShutdown`: admission closes, and nothing else. */
    method BeginShutdown()
      requires Valid()
      modifies this
      ensures Took(StopAdmission)
    {
      shuttingDown := true;
      StaysValid(StopAdmission);
    }

    /** `dispose`: admission closes, and every registered record starts closing. */
    method Dispose()
      requires Valid()
      modifies this
      ensures Took(DisposeAll)
    {
      shuttingDown := true;
      pendingCloses := pendingCloses + byId.Values;
      ValuesAreLive();
      StaysValid(DisposeAll);
    }

    twostate lemma ValuesAreLive()
      requires old(Valid())
      ensures old(byId).Values == LiveHandles(old(View()))
    {
      forall h | h in old(byId).Values ensures h in LiveHandles(old(View())) {
        var id :| id in old(byId) && old(byId)[id] == h;
      }
    }
  }
}
