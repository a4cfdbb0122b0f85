# Verified model of ChatWCA

ChatWCA is a chat server around long-lived model runtimes. Most of its difficulty is in a
few small concurrent state machines, parsers, codecs and compilers. This project models
those in Dafny 4.11 and proves what they promise. `dafny verify dfyconfig.toml` checks
everything; nothing is assumed beyond the parameters named below.

Code between two awaits runs without interruption in the source language, so each such
stretch is one atomic step here, and every await is a point where any other step may come
in between. Where the source changes an object in place there are two forms side by side:
pure step functions, about which the theorems over whole runs are proved, and a class whose
methods are proved to take exactly those steps.

| files | what they model |
|---|---|
| `Registry`, `ConversationRegistry` | the capacity-limited registry of live runtimes: two indexes, eviction, reservations, fork protection, leases |
| `JobSchedule`, `JobRows`, `JobRepository` | when jobs run, and the transactions on job and run rows |
| `JobExecution`, `JobRuntime`, `RuntimeObjects` | one execution cut at its awaits; scheduler, runner and shutdown together, as a transition system and as an object |
| `JobOutcomes`, `JobEndings`, `JobVerdicts`, `JobClaims` | why runs end as they do, which never begin, when ends are recorded and with what status and error, and what a wake claims, over whole runs of that system |
| `Addresses`, `AddressClasses`, `PublicAddresses` | IP literals (section 2.2 of RFC 4291, section 4 of RFC 5952), prefix arithmetic, address categories |
| `Policy`, `NetworkConfig` | destination policy, and named policy sets under a global ceiling |
| `Base64`, `SandboxTransport` | length-prefixed frames and ordered base64 chunks |
| `Seccomp` | the compiler from a system call policy to BPF, against its interpreter |
| `Bridge`, `Socks5` | the relay bridge, and the SOCKS5 handshake (sections 3 to 5 of RFC 1928) |
| `OutboundFlow`, `Revisions` | bounded outbound queue with coalescing, and gap detection by revision |
| `Text`, `Bytes` | string and byte operations of the source language |

## What the proofs found

Five promises hold only under a condition, which is proved to be exact.

- **A repeated shutdown can hide a failed one.** The coordinator counts a shutdown as
  started before its interruption transaction (`src/server/runtime-coordinator.ts:67-92`).
  If that transaction fails while a run is active, the first call throws, and a second call
  returns normally with the row still active. `JobRuntime.ShutdownGuaranteeExactlyWhen`
  says exactly when the guarantee holds, and `JobRuntime.RepeatedShutdownHidesFailure` is a
  concrete run in which it does not.
- **A protected fork source can be lost.** Eviction and `close` respect the protection, but
  disposing the registry does not, and neither does a fork that rolls back its own record
  while somebody is forking from that record
  (`src/server/conversation-registry.ts:1062-1071`). `Registry.SourceLostExactlyWhen` is
  the exact condition and `Registry.RollbackTakesProtectedSource` a concrete run.
- **A fork can keep its slot for good.** A granted fork looks its source up again before it
  enters the `try` that gives the reservation back
  (`src/server/conversation-registry.ts:1003-1005`). If the source was rolled back while
  the fork waited for an eviction, the lookup throws, and the slot and the protection stay
  taken. `Registry.AllGivenBackExactlyWhen` says that nothing else leaks, and
  `Registry.LostSourceLeaks` is a concrete run.
- **A claim can be stranded.** The rows say that a job is free when its run has ended; the
  runner says so only after the conversation is released as well
  (`src/server/job-runner.ts:182-204`), and refuses a run that was claimed in between, by
  hand, on time or to catch up. And if the start of a run cannot be recorded, no end can be
  recorded either, since only a running row is given one
  (`src/server/job-runner.ts:263-269`, `src/server/job-runner.ts:410-419`).
  `JobOutcomes.DispatchRunsExactlyWhen` is the exact condition for the row to run, at the
  moment of any dispatch; otherwise the row stays as it is until a shutdown or a first
  start interrupts it (`JobOutcomes.StrandedStays`), and its job does not run meanwhile
  (`JobOutcomes.StrandedBlocksItsJob`). `JobRuntime.StrandedRun` and
  `JobOutcomes.FailedStartIsStranded` are concrete runs. A row is orphaned while running
  only if a repository call failed or persistence was sealed (`JobEndings.EndsAreRecorded`).
- **The SOCKS5 handshake can depend on fragmentation.** A byte behind a request is refused
  together with the request if both come in one chunk. If it comes later, it may find the
  destination turned down with another reply, or the connection made, and is relayed.
  `Socks5.FragmentationIrrelevantExactlyWhen` says, over all fragmentations and all moments
  at which the attempt to connect may end, that at most 512 bytes end as in one piece
  exactly if they do not go on behind a whole request, or behind one that is refused for
  want of a slot. `Socks5.PortZeroDependsOnFragments` is a concrete case.

Four more observations. Eviction does not ask who owns a record, so that records of jobs are
evictable (`src/server/conversation-registry.ts:1232-1257`). The ceiling over policy sets
needs no idempotence of normalization by itself; idempotence is what keeps the second
normalization during compilation from refusing or changing an admitted pattern
(`NetworkConfig.AdmissibleEntryCompiles`). `conversation.replaced` takes a revision
without broadcasting an event (`src/server/conversation-registry.ts:1744-1748`): clients
see a gap there and ask for a snapshot, which is covered, since the revisions that are
broadcast may skip numbers in `Revisions.DroppedUpdateMakesResync`. And coalescing keys join
identifiers with colons (`src/server/outbound-flow.ts:46-57`); they tell tool calls apart
as long as workspace and conversation identifiers contain none
(`OutboundFlow.SameKeyExactlyWhen`), and need not otherwise (`OutboundFlow.KeysMayCollide`).

## Parameters

What the program cannot decide by itself is an input of the model. `Policy.Idna` are the
two domain conversions, assumed only to be stable on their own valid output.
`JobSchedule.Calendar` is time-zone arithmetic, of which only a strict advance from day to
day is assumed, or, for `JobSchedule.DailyOccurrenceIsLeast`, that days follow one
another. `JobExecution.Oracle` says which repository calls fail and what the clock reads.
A `SandboxTransport.Reader` parses and checks a frame; that it takes back the
request frames that may be sent is assumed as `Trusted`, and
`SandboxTransport.TrustedReaderExists` shows that some reader does. SHA-256 is any function
that gives 64 hexadecimal digits for the data at hand. Whether a connection slot is free
for a SOCKS5 session is one answer per session. Socket and clock reactions are arbitrary
functions of the number of the call; an error that a write throws is only reported, so
that a write that throws is not told apart from one that does not. Canonical paths of hooks
are answers of the file system. Identifiers of runs are random in the program; that they
never repeat is assumed where `IdsNeverRepeat` says so. Each capacity lease is
passed to one `createJobConversation` call, as `src/server/job-runner.ts:348` does.

## Model

| member | source | states |
|---|---|---|
| Registry.RegistrySafety | src/server/conversation-registry.ts:1195-1230 | in every interleaving: records plus reservations without a record never exceed the limit, both indexes hold the same records under their current keys, no two opens work on one file |
| Registry.StepKeepsInv | src/server/conversation-registry.ts:1260-1381 | every step of create, open, fork, job, close, evict, replace and dispose keeps the whole invariant |
| Registry.StepKeepsIndexes | src/server/conversation-registry.ts:1333-1374 | registration, removal and identity replacement keep the two indexes in agreement |
| Registry.StepKeepsAccounts | src/server/conversation-registry.ts:1220-1226 | the counter is exactly the number of held reservations, although create and open count a record twice for a while |
| Registry.StepKeepsLine | src/server/conversation-registry.ts:1199-1204 | capacity decisions are taken one at a time, in order |
| Registry.StepKeepsOpens | src/server/conversation-registry.ts:531-557 | the table of pending opens has one call per canonical file and each call its entry |
| Registry.StepKeepsHolds | src/server/conversation-registry.ts:1600-1616 | the protection count of a record is the number of forks under way from it |
| Registry.RunKeepsInv | src/server/conversation-registry.ts:447-985 | the invariant holds at every moment of every run |
| Registry.WeightNeverGrows | src/server/conversation-registry.ts:1209-1218 | only a grant adds to twice the unregistered reservations plus the records; the end of a close takes some away |
| Registry.RoundLowersRank | src/server/conversation-registry.ts:1209-1218 | nobody's step raises the rank of the call that decides, and each of its evictions lowers it |
| Registry.EvictionsAreBounded | src/server/conversation-registry.ts:1209-1218 | the eviction loop ends under any interference, after at most as many evictions as its rank |
| Registry.EvictionTakesLeastRecent | src/server/conversation-registry.ts:1232-1258 | on the fields of the records: every eviction takes a registered record that is idle, not streaming, not closing, not protected and not the source of the evicting fork; and of all such records the one with the least time of activity, of those the least time of creation, of those the first identifier |
| Registry.TextBeforeByPositions | src/server/conversation-registry.ts:1251 | identifiers are compared at the first place where they differ |
| Registry.SourceLostExactlyWhen | src/server/conversation-registry.ts:1232-1245 | one step takes a protected fork source away if and only if it disposes the registry or rolls that very record back |
| Registry.SourceIsKept | src/server/conversation-registry.ts:945-985 | over any run without those two, a source stays registered from the reservation to its release |
| Registry.RollbackTakesProtectedSource | src/server/conversation-registry.ts:1062-1071 | a concrete run in which a rollback takes a protected source |
| Registry.AllGivenBackExactlyWhen | src/server/conversation-registry.ts:1003-1005 | over any run: when no call is under way, nobody waits, no open is pending, and every reservation and protection has been given back, if and only if no granted fork found its source gone |
| Registry.LostSourceLeaks | src/server/conversation-registry.ts:1003-1005 | a concrete run that leaves a slot and a protection taken with no call under way |
| ConversationRegistry.ConversationRegistry.BeginCreate | src/server/conversation-registry.ts:478-481 | creation queues for capacity unless the registry is shutting down |
| ConversationRegistry.ConversationRegistry.BeginJob | src/server/conversation-registry.ts:431-433 | a job lease queues for capacity in the same line |
| ConversationRegistry.ConversationRegistry.BeginOpen | src/server/conversation-registry.ts:518-540 | a live record, a closing one, a pending open, or a new construction, decided in that order |
| ConversationRegistry.ConversationRegistry.BeginFork | src/server/conversation-registry.ts:945-956 | admission of a fork source and of the entry to fork from, and the protection of the source |
| ConversationRegistry.ConversationRegistry.LeastRecentlyUsedIdle | src/server/conversation-registry.ts:1232-1258 | the scan finds an evictable record such that no other was active earlier, nor at the same time and created earlier, nor both at the same time with an earlier identifier; or there is none |
| ConversationRegistry.ConversationRegistry.DecideCapacity | src/server/conversation-registry.ts:1206-1229 | one turn of the capacity loop: recheck, grant, evict or give up, and exactly when; what is evicted is the least recently active of what may be, with its ties |
| ConversationRegistry.ConversationRegistry.RecheckSource | src/server/conversation-registry.ts:1003-1005 | a granted fork goes on if its source is still registered, and otherwise ends with slot and protection taken |
| ConversationRegistry.ConversationRegistry.InsertRecord | src/server/conversation-registry.ts:1281-1334 | the final duplicate check and the insertion, atomically |
| ConversationRegistry.ConversationRegistry.ReleaseCapacity | src/server/conversation-registry.ts:1484-1493 | a reservation is given back once |
| ConversationRegistry.ConversationRegistry.EndCall | src/server/conversation-registry.ts:553-557 | the end of a call clears its pending open or its protection |
| ConversationRegistry.ConversationRegistry.RollbackFork | src/server/conversation-registry.ts:1065-1071 | a failed fork starts closing its own record if that is still the registered one |
| ConversationRegistry.ConversationRegistry.BeginClose | src/server/conversation-registry.ts:1134-1141 | close is refused for owned, busy and protected records, and for no others |
| ConversationRegistry.ConversationRegistry.BeginReleaseJob | src/server/conversation-registry.ts:861-867 | only an owned record that is not closing is released |
| ConversationRegistry.ConversationRegistry.CompleteClose | src/server/conversation-registry.ts:1679-1683 | a closed record leaves both indexes under the keys it has by then |
| ConversationRegistry.ConversationRegistry.ReplaceIdentity | src/server/conversation-registry.ts:1704-1748 | the record moves to its new keys, or a conflict makes it an error and moves nothing |
| ConversationRegistry.ConversationRegistry.BeginShutdown | src/server/conversation-registry.ts:417-419 | admission closes and nothing else changes |
| ConversationRegistry.ConversationRegistry.Dispose | src/server/conversation-registry.ts:1144-1151 | admission closes and every registered record starts closing |
| JobSchedule.IntervalOccurrenceIsLeast | src/server/job-schedule.ts:114-130 | the next occurrence is the least anchor plus k durations strictly after the instant, and is missing exactly when that is not representable |
| JobSchedule.OccurrenceIsLater | src/server/job-schedule.ts:180-189 | any occurrence, interval or daily, lies strictly after the instant |
| JobSchedule.DailyOccurrenceIsLeast | src/server/job-schedule.ts:132-178 | where the days of a zone follow one another, the next occurrence of a daily schedule is the first of all its instants strictly after the given one |
| JobSchedule.DailyOccurrenceExists | src/server/job-schedule.ts:132-178 | a daily schedule has a next occurrence whenever the clock time exists on this day and the next |
| JobSchedule.LateClaimSkipsOnlyThePast | src/server/job-schedule.ts:198-209 | a late claim passes over past instants only |
| JobSchedule.AdvanceIsLeast | src/server/job-schedule.ts:198-209 | a claim of an interval job advances exactly to the least point past both its occurrence and the present |
| JobSchedule.DailyAdvanceIsLeast | src/server/job-schedule.ts:198-209 | a claim of a daily job advances to its first instant past both, where days follow one another |
| JobSchedule.Establish | src/server/job-schedule.ts:74-84 | an established schedule is valid |
| JobSchedule.EstablishedExactlyWhen | src/server/job-schedule.ts:24-84 | which schedules can be established: an interval within its bounds, or a clock time of two and two digits in a supported zone |
| JobRows.TransactionKeepsSound | src/server/job-repository.ts:568-735 | every transaction keeps at most one active run per job, agreeing columns, valid schedules and owned runs |
| JobRows.RunStep | src/server/job-repository.ts:808-829 | a run changes only while active, by one revision, keeping job, trigger and occurrence; or is removed with its job |
| JobRows.CreatedExactlyWhen | src/server/job-repository.ts:420-448 | when a job is created: what its name, prompt, hooks, acknowledgement, schedule and identifier must be, and the row it gets |
| JobRows.ScheduledClaimExactly | src/server/job-repository.ts:600-621 | when a scheduled claim succeeds, and the two rows it leaves: the job moved on, and its occurrence queued, or skipped while a run is active |
| JobRows.ManualClaimExactly | src/server/job-repository.ts:568-578 | when a manual claim succeeds, and that it leaves the schedule alone |
| JobRows.ChangeExactly | src/server/job-repository.ts:623-717 | when a change of a run succeeds, by its status, revision, conversation and phase, and which columns it writes |
| JobRows.InterruptionExactly | src/server/job-repository.ts:719-735 | the interruption ends every queued or running run as interrupted and touches nothing else |
| JobRows.ActiveJobCanOnlyBeDisabled | src/server/job-repository.ts:456-467 | with an active run every edit but a plain disable is refused, and so is deletion |
| JobRows.HistoryIsSound | src/server/job-repository.ts:568-735 | the row invariant at every moment of every history |
| JobRows.TerminalRowsAreFinal | src/server/job-repository.ts:689-717 | a terminal row never changes while its job exists |
| JobRows.RevisionCountsChanges | src/server/job-repository.ts:808-829 | the revision of a run counts its changes exactly |
| JobRows.OccurrencesIncrease | src/server/job-repository.ts:600-621 | the occurrences claimed for a job strictly increase through claims, edits, disables, re-enables and re-creation |
| JobRows.ClaimsNeverDrift | src/server/job-repository.ts:600-621 | every claim of an interval job is for a point of its lattice, however late claims come |
| JobRepository.JobRepository.Create | src/server/job-repository.ts:420-448 | creation, with each refusal |
| JobRows.EditFollowsChanges | src/server/job-repository.ts:479-524 | an edit of an idle job changes what it names and nothing else, with names trimmed and hooks made canonical |
| JobRows.AcknowledgedExactlyWhen | src/server/job-repository.ts:492-498 | an edit that is acceptable otherwise is accepted with exactly one of the two answers about host hooks; without the acknowledgement it neither replaces a hook that it names nor moves hooks to another workspace, and with it, it does one of these |
| JobRepository.JobRepository.Update | src/server/job-repository.ts:450-526 | editing, disabling and re-enabling, with each refusal; the new definition is the canonical form of the old one with the changes |
| JobRepository.JobRepository.Reschedule | src/server/job-repository.ts:501-513 | when an edit recomputes the next occurrence and when it keeps it |
| JobRepository.JobRepository.Delete | src/server/job-repository.ts:536-545 | deletion of an idle job with its runs |
| JobRepository.JobRepository.ClaimManual | src/server/job-repository.ts:568-578 | a manual claim leaves the schedule alone |
| JobRepository.JobRepository.ClaimScheduled | src/server/job-repository.ts:600-621 | the occurrence is advanced and recorded, queued or skipped, in one transaction |
| JobRepository.JobRepository.Mutate | src/server/job-repository.ts:623-717 | start, phase, conversation, hook output and finish, with their conditions |
| JobRepository.JobRepository.MarkAllInterrupted | src/server/job-repository.ts:719-735 | the loop interrupts every active run and no other |
| JobExecution.StretchFacts | src/server/job-runner.ts:260-427 | from any suspension point, with any answer, failure or stop: only the own row changes, the course is kept, and the recorded status is one that the answers and the stop allow |
| JobExecution.BeginningFacts | src/server/job-runner.ts:261-271 | the same for the start of an execution |
| JobExecution.SealedStretchIsSilent | src/server/job-runner.ts:271-375 | once sealed, no suspended execution makes another repository call |
| JobExecution.NextOnCourse | src/server/job-runner.ts:273-409 | a good answer moves an execution to the next stage: policy, capacity, pre-hook if configured, conversation, title, prompt, post-hook if configured |
| JobExecution.BodyTidy | src/server/job-runner.ts:410-426 | whatever way a stretch ends, lease and conversation are in the state that the `finally` block expects |
| JobExecution.ConcludeJudged | src/server/job-runner.ts:410-419 | the handler records only what the verdict allows and reopens nothing |
| JobExecution.GoodExecutionSucceeds | src/server/job-runner.ts:260-409 | without failures and stops, good answers at every stage lead to success |
| JobRuntime.RuntimeSafety | src/server/job-runner.ts:176-205 | in every run of scheduler, runner and coordinator: one unfinished execution per job, every finished one has settled its lease once and released its conversation once, and a succeeded row passed every configured stage |
| JobRuntime.StopsAreObeyed | src/server/job-runner.ts:461-507 | for each stretch: interrupted after a shutdown, aborted after an abort, succeeded only without either; ended rows are not touched |
| JobOutcomes.EndingsHaveCauses | src/server/job-runner.ts:461-507 | over every run: an interrupted row had a shutdown, a recovery at a start or an interrupted hook before it; an aborted one a request to abort it, an aborted hook or prompt, or a capacity refusal because of shutdown |
| JobOutcomes.StoppedNeverSucceeds | src/server/job-runner.ts:502-507 | over every run: a run that was told to stop before it had succeeded never succeeds |
| JobExecution.StretchStops | src/server/job-runner.ts:302-409 | an execution stops itself only because of a hook or a prompt that was stopped |
| JobRuntime.StepKeepsInv | src/server/job-scheduler.ts:99-260 | every turn keeps the joint invariant of rows, executions and flags |
| JobRuntime.ShutdownIsFinal | src/server/runtime-coordinator.ts:67-92 | after a committed shutdown no row is or becomes active, and no execution, wake, start or deferred dispatch calls the repository, over every continuation |
| JobRuntime.ShutdownGuaranteeExactlyWhen | src/server/runtime-coordinator.ts:67-92 | no active rows if and only if the first interruption committed or there was nothing to interrupt |
| JobRuntime.RepeatedShutdownHidesFailure | src/server/runtime-coordinator.ts:67-92 | a concrete run in which the first shutdown fails and a second one returns normally with the run still active |
| JobRuntime.ShutDownStepIsSilent | src/server/job-scheduler.ts:157-207 | each single step after a shutdown is without repository calls |
| JobRuntime.ClaimRunsExactlyWhen | src/server/job-runner.ts:176-204 | the row of a manual claim is running at once if and only if the runner is open, no execution of the job is unfinished and the start can be recorded; otherwise it stays queued |
| JobExecution.BeginningExactly | src/server/job-runner.ts:261-271 | a queued run starts and waits for its policy if its start can be recorded; if not, no row changes and the execution is over |
| JobOutcomes.DispatchRunsExactlyWhen | src/server/job-runner.ts:176-204 | the row of any queued claim is running after its dispatch if and only if the runner is open, no execution of its job is unfinished and the start can be recorded; otherwise the rows stay as they are and the run is stranded |
| JobOutcomes.SweptClaimRunsExactlyWhen | src/server/job-scheduler.ts:209-222 | the same for occurrences claimed by a sweep, scheduled or to catch up |
| JobOutcomes.DeferredClaimRunsExactlyWhen | src/server/job-scheduler.ts:157-162 | the same for a manual claim whose dispatch was deferred |
| JobOutcomes.StrandedStays | src/server/job-runner.ts:182-204 | over every continuation the row of a stranded run, queued or running, stays as it is, until a shutdown or a first start interrupts it |
| JobOutcomes.StrandedBlocksItsJob | src/server/job-repository.ts:568-621 | while a run is stranded, manual claims of its job are refused and its occurrences skipped |
| JobOutcomes.FailedStartIsStranded | src/server/job-runner.ts:263-269 | a concrete run in which a start that cannot be recorded strands its claim |
| JobClaims.WakeClaimsWhatIsDue | src/server/job-scheduler.ts:195-222 | if no repository call fails, a wake moves every job that is due to the first instant of its schedule past the present and records the occurrence that was due, once; no job that can be moved on is due afterwards, and the others are as they were |
| JobClaims.FirstStartCatchesUp | src/server/job-scheduler.ts:105-121 | the same for the first start: one run for each job with missed occurrences, and every run from before is ended |
| JobClaims.AllJobsAreSwept | src/server/job-scheduler.ts:209-222 | the sweep over a listing, job by job, with what it leaves alone |
| JobEndings.EndsAreRecorded | src/server/job-runner.ts:410-492 | over every run in which no repository call has failed and persistence is not sealed: an execution at its release or over has an ended row, and any other is in step with a row that is still running |
| JobVerdicts.EveryEndIsItsVerdict | src/server/job-runner.ts:260-427 | at every moment of every run, with no failed repository call and before the seal: what an answer makes of a running row, exactly -- it goes on to the next stage, or ends as interrupted, aborted, succeeded, blocked, skipped or failed with the error code that the stop and the answer call for |
| JobVerdicts.StretchEndsExactly | src/server/job-runner.ts:273-419 | the same for one stretch of an execution that is in step with its row |
| JobVerdicts.EndedRowIsAdopted | src/server/job-runner.ts:467-492 | an end that finds its row ended already gives way to it, and the execution takes the row over |
| JobRuntime.ClaimDuringReleaseIsStranded | src/server/job-runner.ts:182-204 | a claim made while the last conversation is being released stays queued, and the next occurrence is skipped |
| JobRuntime.StrandedRun | src/server/job-runner.ts:182-204 | a concrete run, of legal steps from an empty state, that strands a manual claim |
| RuntimeObjects.Runtime.Dispatch | src/server/job-runner.ts:176-205 | dispatch of a claim, or its refusal |
| RuntimeObjects.Runtime.RequestStop | src/server/job-runner.ts:502-507 | shutdown overrides abort and nothing overrides shutdown |
| RuntimeObjects.Runtime.BeginRunnerShutdown | src/server/job-runner.ts:225-235 | the loop stops every unfinished execution |
| RuntimeObjects.Runtime.SealPersistence | src/server/job-runner.ts:241-249 | the loop adopts the interrupted rows |
| RuntimeObjects.Runtime.Nearest | src/server/job-scheduler.ts:237-243 | the scan finds the least next occurrence of the enabled jobs |
| RuntimeObjects.Runtime.Arm | src/server/job-scheduler.ts:233-249 | the timer is set for the first occurrence: no enabled job comes due while it runs unless it is due already, and at its end some job is due unless the delay is the longest there is |
| RuntimeObjects.Runtime.RefreshSchedule | src/server/job-scheduler.ts:165-172 | after an edit the timer is set anew, so that its delay fits the jobs again |
| RuntimeObjects.Runtime.Sweep | src/server/job-scheduler.ts:209-222 | the loop over listed jobs claims and dispatches each that is due |
| RuntimeObjects.Runtime.Recover | src/server/job-scheduler.ts:107-120 | recovery and catch-up at the first start |
| RuntimeObjects.Runtime.CarryOutStart | src/server/job-scheduler.ts:105-133 | the deferred part of start, with its generation check, and with a timer whose delay fits the jobs |
| RuntimeObjects.Runtime.Wake | src/server/job-scheduler.ts:195-207 | a stale wake does nothing, any other arms again whatever fails, with a delay that fits the jobs as the claims have left them |
| RuntimeObjects.Runtime.RunNow | src/server/job-scheduler.ts:142-145 | a manual claim that is dispatched at once |
| RuntimeObjects.Runtime.RunNowAccepted | src/server/job-scheduler.ts:157-162 | a manual claim that is dispatched on a later turn |
| RuntimeObjects.Runtime.BeginShutdown | src/server/runtime-coordinator.ts:67-92 | the order of a shutdown, when it throws, and what it leaves |
| Addresses.Ipv4RoundTrip | src/server/network/addresses.ts:80-92 | an IPv4 address has exactly one accepted spelling, the printed one |
| Addresses.ParseIpv4 | src/server/network/addresses.ts:80-92 | the parsing loop computes exactly that |
| Addresses.ParseHextetSequence | src/server/network/addresses.ts:94-112 | the loop over colon-separated parts |
| Addresses.ParseIpv6 | src/server/network/addresses.ts:114-138 | the parser with its array of words, whose values Addresses.Ipv6ParserIsExact spells out |
| Addresses.Ipv6ParserIsExact | src/server/network/addresses.ts:94-138 | accepted texts are exactly the spellings of section 2.2 of RFC 4291, each with its value: a group is written shortest or with leading zeros, in either case, or the end as a dotted quad |
| Text.HexDigits | src/server/network/addresses.ts:108-109 | the hexadecimal digits are the sixteen characters in either case, and each counts for its place among them |
| Text.HexNumberIsSpelled | src/server/network/addresses.ts:109 | a hexadecimal text is, case aside, zeros and then the shortest spelling of its value |
| Addresses.PartsAreWritten | src/server/network/addresses.ts:94-112 | the loop over the parts finds exactly the groups that they write |
| Addresses.CaseDoesNotMatter | src/server/network/addresses.ts:186-208 | a text means the same address, or none, in capital and in small letters |
| Addresses.FindBestRun | src/server/network/addresses.ts:144-160 | the scan for the run to shorten |
| Addresses.BestRunIsFirstLongest | src/server/network/addresses.ts:144-160 | that run is the first of the longest, of at least two groups (section 4.2 of RFC 5952) |
| Addresses.FormatIpv6 | src/server/network/addresses.ts:144-174 | the printer writes the canonical text |
| Addresses.Ipv6RoundTrip | src/server/network/addresses.ts:114-174 | parsing the printed form of any sixteen bytes gives them back |
| Addresses.CanonicalTextParses | src/server/network/addresses.ts:186-208 | the canonical text of an address parses to that address |
| Addresses.ParseIsFixedPoint | src/server/network/addresses.ts:186-208 | re-parsing the printed text of anything accepted is a fixed point |
| Addresses.OneTextPerAddress | src/server/network/addresses.ts:186-208 | two accepted texts print alike exactly if they are the same address, as they are if they differ only in case |
| AddressClasses.MaskIsDivision | src/server/network/addresses.ts:215-218 | masking low bits of a byte off is dividing by their weight |
| AddressClasses.PrefixIsDivision | src/server/network/addresses.ts:210-219 | prefix equality is equality of the addresses as integers divided by a power of two |
| AddressClasses.MatchesPrefix | src/server/network/addresses.ts:210-219 | the byte loop computes that equality |
| AddressClasses.RangesAreIntervals | src/server/network/addresses.ts:221-233 | the first matching range is the first integer interval containing the address |
| AddressClasses.ClassifyIsNumeric | src/server/network/addresses.ts:240-257 | classification is membership in integer intervals |
| AddressClasses.MappedIsInterval | src/server/network/addresses.ts:176-184 | mapped addresses are one interval |
| AddressClasses.MappedClass | src/server/network/addresses.ts:240-257 | a mapped address is classified as its IPv4 address |
| PublicAddresses.Ipv4Categories | src/server/network/addresses.ts:44-60 | which IPv4 addresses are public, exactly, by their bytes, and the category of every other |
| PublicAddresses.Ipv6Categories | src/server/network/addresses.ts:62-78 | which IPv6 addresses are public, exactly: mapped ones as their IPv4 address, and of the rest those of 2000::/3 without four blocks; and the category of every other |
| Policy.HostIdempotent | src/server/network/policy.ts:139-194 | normalizing a normalized host changes nothing |
| Policy.PatternIdempotent | src/server/network/policy.ts:196-229 | normalizing a normalized pattern changes nothing, and it compiles |
| Policy.PreparedCompiles | src/server/network/policy.ts:248-280 | normalized patterns always compile, and to themselves |
| Policy.MatchesByLabels | src/server/network/policy.ts:282-291 | a star stands for at least one whole label in front of a name and two stars for any number of them; without stars a pattern matches only the host that it is, name or address |
| Text.EndsInParts | src/server/network/policy.ts:289 | a text ends with a separator and another text exactly if its parts end with those of the other and are more |
| Policy.AllowedExactlyWhen | src/server/network/policy.ts:293-318 | a destination is allowed if and only if its port is listed, no denied pattern is for its host, some allowed one is, and it is public if it is an address; and the reason otherwise |
| NetworkConfig.ParsePolicySets | src/server/network/config.ts:224-314 | the loop over entries, growing the set of identifiers and the list |
| NetworkConfig.EntryAcceptedExactlyWhen | src/server/network/config.ts:250-303 | which entries are accepted: identifier, label, patterns and ports, character by character |
| NetworkConfig.LoadsExactlyWhen | src/server/network/config.ts:338-424 | which configurations load, for any global patterns and ports and any sets |
| NetworkConfig.EntriesUnderCeiling | src/server/network/config.ts:240-303 | every accepted set is within the global patterns and ports |
| NetworkConfig.CeilingHolds | src/server/network/policy.ts:282-318 | what a set under the ceiling allows, the global policy allows, for every host and port |
| NetworkConfig.LoadedSetsUnderCeiling | src/server/network/config.ts:338-424 | every configuration that loads has only such sets, one default, and distinct identifiers |
| NetworkConfig.NothingEscapesTheCeiling | src/server/network/config.ts:204-303 | both together |
| NetworkConfig.OnlyWhatIsConfigured | src/server/network/config.ts:204-424 | what any set of a loaded configuration allows is for one of the allowed patterns as they were written and none of the denied ones, on a configured port, and public if it is an address |
| NetworkConfig.AdmissibleEntryCompiles | src/server/network/config.ts:204-222 | an entry that passes the checks never fails in its second normalization |
| Base64.RoundTrip | src/server/sandbox/protocol.ts:342-348 | decoding inverts encoding |
| Base64.DecodedSize | src/server/sandbox/protocol.ts:344-347 | what is accepted has whole groups and decodes to three bytes each, less the padding |
| Base64.DecodedExactlyWhen | src/server/sandbox/protocol.ts:342-348 | a text is decoded if and only if it has whole groups of four symbols, but for up to two signs of padding at the end |
| Base64.EncodedByGroups | src/server/sandbox/protocol.ts:379-386 | what is encoded is one group of three bytes after another, and the last is filled up with zeros and padded (section 4 of RFC 4648) |
| Base64.GroupIsNumber | src/server/sandbox/protocol.ts:379-386 | the symbols of a group are the digits of its 24 bits to the base 64 |
| SandboxTransport.EncodeFrame | src/server/sandbox/protocol.ts:274-283 | a frame is encoded exactly if its payload is not empty and within the limit |
| SandboxTransport.ParseInParts | src/server/sandbox/protocol.ts:295-333 | reading a stream in two parts is reading it at once |
| SandboxTransport.StreamIsRead | src/server/sandbox/protocol.ts:295-338 | a stream of frames, cut anywhere, is read as its whole frames and ends at a boundary exactly if it was not cut |
| SandboxTransport.SandboxFrameDecoder.Push | src/server/sandbox/protocol.ts:295-333 | the frames that pending and new bytes contain together, or an error exactly for a bad frame |
| SandboxTransport.SandboxFrameDecoder.End | src/server/sandbox/protocol.ts:335-339 | the end succeeds exactly at a frame boundary |
| SandboxTransport.PushAll | src/server/sandbox/protocol.ts:286-333 | any fragmentation gives the same frames and the same error |
| SandboxTransport.ChunkBuffer | src/server/sandbox/protocol.ts:379-386 | the chunking loop |
| SandboxTransport.ChunksAssemble | src/server/sandbox/protocol.ts:356-368 | the chunks of at most 16 MiB are all accepted and give the data back; no limit fires |
| SandboxTransport.OrderedChunkAssembler.Push | src/server/sandbox/protocol.ts:356-368 | one chunk is taken or refused, in order and within the limits |
| SandboxTransport.OrderedChunkAssembler.Finish | src/server/sandbox/protocol.ts:372-376 | the data is given back if and only if count and digest are those of the data |
| SandboxTransport.AssembledExactlyWhen | src/server/sandbox/protocol.ts:356-368 | any sequence of chunks is assembled if and only if it is numbered without gap or repetition, every chunk decodes and none, nor all together, is too large; and then to what the chunks carry |
| SandboxTransport.ChunkFits | src/server/sandbox/protocol.ts:12-13 | the largest chunk fits into one frame with its envelope |
| SandboxTransport.PayloadInjective | src/server/sandbox/protocol.ts:274-276 | two request frames that the schemas admit have the same bytes only if they are the same frame |
| SandboxTransport.TrustedReaderExists | src/server/sandbox/protocol.ts:319-328 | there is a reader that gives every such frame back |
| SandboxTransport.FramesFit | src/server/sandbox/protocol.ts:274-283 | every frame of a transfer of at most 16 MiB is admitted by its schema and can be encoded |
| SandboxTransport.OthersDoNotMatter | src/server/sandbox/protocol.ts:350-376 | what is collected for one request depends on its own frames only |
| SandboxTransport.TransferRoundTrip | src/server/sandbox/protocol.ts:274-386 | over any fragmentation, and with frames of other requests in between: the decoder gives the frames sent and ends at a boundary, and the chunks and the end among the frames it gave, pushed in that order, give the same bytes back |
| SandboxTransport.TransferAlone | src/server/sandbox/protocol.ts:274-386 | the same for the frames of one transfer, which can always be sent |
| Seccomp.Evaluate | native/network-helper/src/seccomp.rs:188-222 | the interpreter loop is the semantics used here |
| Seccomp.GenerateFilter | native/network-helper/src/seccomp.rs:91-141 | for any deny list the generated program returns exactly the policy's verdict and jumps only inside itself |
| Seccomp.FilterImplementsPolicy | native/network-helper/src/seccomp.rs:91-141 | for every architecture word, call and argument the program reaches a return with the declared verdict |
| Seccomp.DeclaredFilter | native/network-helper/src/seccomp.rs:26-141 | what the declared filter answers to every call, in the numbers of the kernel, on both architectures |
| Seccomp.EveryJumpInside | native/network-helper/src/seccomp.rs:76-83 | every relative jump stays inside the program |
| Bridge.Direction.Fill | native/network-helper/src/bridge.rs:155-179 | a read takes what there is room for |
| Bridge.Direction.Drain | native/network-helper/src/bridge.rs:180-199 | a write takes what the peer accepts |
| Bridge.Direction.Transfer | native/network-helper/src/bridge.rs:153-211 | one transfer over the buffer, on the histories of both sockets |
| Bridge.HalfCloseOnlyWhenDrained | native/network-helper/src/bridge.rs:200-209 | half-close happens only after the end of input with the buffer drained |
| Bridge.IdleMeansInterested | native/network-helper/src/bridge.rs:213-263 | a direction without progress that is not finished waits for something |
| Bridge.RelaySafety | native/network-helper/src/bridge.rs:213-263 | written bytes are a prefix of the bytes read, a finished relay delivered everything, no poll leaves an unfinished direction without interest |
| Bridge.Relay | native/network-helper/src/bridge.rs:213-263 | the loop over two directions |
| Socks5.FragmentationIrrelevantExactlyWhen | src/server/network/socks5-proxy.ts:120-235 | over all fragmentations and all moments at which the attempt to connect succeeds or fails: a stream of at most 512 bytes ends as in one piece if and only if it does not go on behind a whole request, unless that is refused for want of a slot |
| Socks5.CutBehindAnswer | src/server/network/socks5-proxy.ts:151-230 | cut right behind the request, any other stream gets the refusal of its destination, or is relayed from there on |
| Socks5.AlikeBeforeOutcomeExactlyWhen | src/server/network/socks5-proxy.ts:120-184 | as long as no attempt to connect has ended, only streams that go on behind a request that is turned down depend on their fragments |
| Socks5.FragmentationIsIrrelevant | src/server/network/socks5-proxy.ts:178-184 | as long as no attempt to connect has ended, any fragmentation of any other stream leaves the session as if it came in one piece |
| Socks5.CutBehindRefusal | src/server/network/socks5-proxy.ts:151-170 | cut right behind the request, such a stream is answered with the refusal of the destination instead |
| Socks5.OnlyAllowedDestinations | src/server/network/socks5-proxy.ts:187-235 | whatever bytes in whatever chunks, and whenever the attempt ends, a session connects to, and relays to, only a normalized destination that the policy allows, and no address that is not public |
| Socks5.HandshakeMeansItsTarget | src/server/network/socks5-proxy.ts:120-206 | greeting and request as RFC 1928 writes them lead to their destination, or to the reply of its refusal |
| Socks5.HandshakeInAnyChunks | src/server/network/socks5-proxy.ts:178-184 | the same in any chunks, whatever becomes of the attempt to connect |
| Socks5.BadRequestIsAnswered | src/server/network/socks5-proxy.ts:140-155 | another version is answered with reply 1, another command than CONNECT with reply 7, an unknown kind of address or a name of no or too great length with reply 8, whatever follows |
| Socks5.BadGreetingIsDropped | src/server/network/socks5-proxy.ts:121-127 | what is not a greeting, and a handshake beyond the limit, is dropped without an answer |
| Socks5.V4ConnectsToItsBytes | src/server/network/socks5-proxy.ts:161-172 | an IPv4 request connects to the address of its bytes |
| Socks5.V6ConnectsToItsBytes | src/server/network/socks5-proxy.ts:40-44 | an IPv6 request connects to the address of its bytes, although spelled uncompressed on the way |
| Socks5.TrailingByteIsNoticedEarlyOrLate | src/server/network/socks5-proxy.ts:151-230 | a byte behind an IPv4 request is refused with it if it comes in the same chunk; a later one finds the reply of a refusal, ends the attempt to connect, or is relayed |
| Socks5.PortZeroDependsOnFragments | src/server/network/socks5-proxy.ts:163-170 | a concrete stream that is answered differently in one piece and in two |
| Socks5.Acceptance.TakeGreeting | src/server/network/socks5-proxy.ts:121-139 | the greeting stage |
| Socks5.Acceptance.TakeRequest | src/server/network/socks5-proxy.ts:140-176 | the request stage |
| Socks5.Acceptance.TakeData | src/server/network/socks5-proxy.ts:178-184 | one chunk in any stage |
| Socks5.Acceptance.TakeOutcome | src/server/network/socks5-proxy.ts:212-234 | the end of the attempt to connect |
| OutboundFlow.KeyedExactlyWhenDroppable | src/server/outbound-flow.ts:46-63 | exactly the replaceable messages are droppable |
| OutboundFlow.SameKeyExactlyWhen | src/server/outbound-flow.ts:46-57 | updates have the same key if and only if they are of the same tool call, histories if of the same workspace, and lists of jobs always, as long as the separator occurs in no identifier but the last |
| OutboundFlow.KeysMayCollide | src/server/outbound-flow.ts:46-57 | concrete updates of different tool calls with one key, if the separator does occur |
| OutboundFlow.Utf8LengthCounts | src/server/outbound-flow.ts:131-136 | the bytes that are counted are those of the encoding in section 3 of RFC 3629 |
| OutboundFlow.RoomExactlyWhen | src/server/outbound-flow.ts:192-203 | discarding makes room exactly when the messages that must stay leave it, and keeps those |
| OutboundFlow.OutboundFlowController.Send | src/server/outbound-flow.ts:121-181 | what becomes of each message: ignored, written at once, put in the place of the update it supersedes, not kept, or queued, if need be in the place of what may be dropped; and the history stays in order |
| OutboundFlow.OutboundFlowController.Supersede | src/server/outbound-flow.ts:148-162 | adjacent replacement, which gives both up if the newer is too large |
| OutboundFlow.OutboundFlowController.MakeRoom | src/server/outbound-flow.ts:164-180 | the flow is ended exactly when a message that must not be dropped does not fit beside its like |
| OutboundFlow.OutboundFlowController.DiscardDroppableUntil | src/server/outbound-flow.ts:192-203 | the in-place loop |
| OutboundFlow.OutboundFlowController.Pump | src/server/outbound-flow.ts:205-223 | a live pump empties the queue or fills the socket, and leaves a timer if anything waits |
| OutboundFlow.OutboundFlowController.Write | src/server/outbound-flow.ts:225-234 | a callback during a write pumps, unless a pump is at work |
| OutboundFlow.OutboundFlowController.UpdatePressure | src/server/outbound-flow.ts:236-263 | the client is given up exactly if its socket is gone or pressure, counted from its start, lasted too long, and then the socket is closed; a timer exactly under pressure |
| OutboundFlow.React | src/server/outbound-flow.ts:121-144 | a message is accepted if and only if the flow is alive, its socket open and the message serializable |
| OutboundFlow.Drive | src/server/outbound-flow.ts:75-275 | after any history: exactly the messages that found the flow alive and open were accepted, queued bytes are counted and bounded, what was written is a subsequence of what was accepted, nothing that must not be dropped is missing unless the flow was given up, and it is given up only with its socket closed or when told so |
| Revisions.ClientIsFaithful | src/shared/revisions.ts:15-48 | whatever arrives, the copy has every change up to its revision applied, once each and in order |
| Revisions.SnapshotTakenExactlyWhen | src/shared/revisions.ts:34-48 | a snapshot becomes the copy and settles the resync unless the copy is ahead of it; then nothing changes |
| Revisions.EventTakenExactlyWhen | src/shared/revisions.ts:15-26 | the event of the next revision is applied, an older one ignored, and any other asks for a snapshot |
| Revisions.SnapshotEndsResync | src/web/src/api/state.ts:622-696 | whatever came before, a snapshot that the copy is not ahead of ends the resync, and later events are applied again from there, up to the next gap |
| Revisions.GapIsClosed | src/web/src/api/state.ts:622-696 | the same for a client that met a gap: a snapshot from the gap or beyond closes it |
| Revisions.PresentSnapshotCatchesUp | src/web/src/api/state.ts:634-652 | a snapshot of the present state brings any client up to date |
| Revisions.ClientNeverGoesBack | src/shared/revisions.ts:34-48 | the revision of a copy never falls |
| Revisions.ChangeIsNumbered | src/shared/revisions.ts:51-56 | the log never outgrows its numbering |
| Revisions.StreamStopsAtFirstGap | src/shared/revisions.ts:15-26 | a lossy stream is applied exactly up to its first gap, and a snapshot is asked for if and only if something behind the gap arrived |
| Revisions.FollowerStopsAtFirstGap | src/shared/revisions.ts:15-26 | a client has applied exactly the contiguous part of what the socket was given, among messages of other kinds and conversations |
| Revisions.DroppedUpdateMakesResync | src/server/outbound-flow.ts:148-175 | an update of the conversation that the flow dropped or replaced makes a later event that was written a resync |
| Revisions.DriveToClient | src/server/outbound-flow.ts:121-263 | the same for the history of any flow, driven by any events |

## Left out

- Record identity: objects of the registry are numbers, and comparisons of text use code points instead of a locale.
- Construction of a runtime, refreshing of history and disposal of a runtime are single awaits that end in any way; prompts, titles, images and model calls inside them are not modelled.
- JobRuntime.ShutdownIsFinal: listeners that publish rows are taken not to call back into scheduler, runner or coordinator.
- Runs of `#execute` are values with one function per stretch between awaits; the class around them holds the table of executions and the flags.
- The scheduler, the runner and the coordinator are one object with the fields of all three, and the repository is its table of rows.
- Rows that were corrupted outside the program, the bound of 2^53 on row revisions, paging of runs, and the checks of workspaces and hooks, of which only the answer is an input. Lengths of texts count code points.
- JobSchedule.DailyOccurrenceIsLeast: which days and clock times exist is decided by the calendar library; in zones that skip or repeat a day only JobSchedule.OccurrenceIsLater is proved.
- JobSchedule.IntervalOccurrenceIsLeast: the division of an interval schedule is done in integers; rounding of floating point is not modelled.
- Tables of address ranges are given as bytes instead of text, so that parsing the tables is not modelled; what they come to is `PublicAddresses`.
- Reading of configuration other than policy sets: modes, helper paths and environment variables.
- NetworkConfig.CeilingHolds: what `domainToASCII` does to a name is not modelled; it is a parameter that is stable on its own valid output.
- SandboxTransport.TransferRoundTrip: chunks of the `utf8` mode are not modelled, because chunk boundaries may split a code point.
- JSON text is spelled out for the frames that carry request data; reading it back is a parameter, and frames of other kinds are known by their payload and taken to be read as themselves.
- Socks5.FragmentationIsIrrelevant: a chunk of more than 512 bytes is refused as a whole, so that longer handshakes are excluded; timers, the limits of the relay and its other direction are not modelled, nor is a connection that is made for a session that was closed meanwhile.
- Revisions.DroppedUpdateMakesResync: the client hears no snapshot between the events; snapshots at any time are part of Revisions.ClientIsFaithful and Revisions.SnapshotEndsResync.
- Handing over of descriptors, process setup and the errors of `poll` beyond its failure, in the relay bridge.
- Calls of `send` from inside an error callback of the outbound flow.
- The stream handling of the HTTP proxy, connection timers, hook processes, sandbox setup, WebSocket and Express wiring, and SQLite itself.
