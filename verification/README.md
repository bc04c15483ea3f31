# Proofs about the Pi extensions

These Dafny modules model the parts of the extensions in which several processes, or
several steps of one process, have to agree, and prove what those parts are for. Code that
changes things step by step appears as methods with loops and as classes whose methods state
their whole new state; code that computes a value appears as functions; and protocols between
processes appear as state machines in which every system call, or every append to a log, is
one step and a process can stop between any two steps.

| files | what they are about |
|---|---|
| FileLock, InterprocessLock | the lock directory: any number of calls, processes and directory generations, reused inode numbers, listings that are not atomic, crashes; the code of the lock as methods that run in that world |
| HandoffLog, HandoffFinalize, GoalOwnership, OwnershipProof, OwnershipOrder, OwnershipRecovery, OwnershipLimits, ChildGate | the self-handoff of a goal: two append-only session logs, a lock file, several processes with their own memory of the parent's log, and the gates on both sides |
| Json, CanonicalEquality, JsonStrings, SchemaMeaning, SchemaTerms, StructuredOutput | the canonical printer as an equality test, and the bounded JSON-Schema validator against the meaning of its keywords |
| MemoryText, MemoryDocument, MemoryFences, MemoryRoundTrip, MemoryEdit, MemoryTerms | the Markdown memory document: fences, headings, normalisation, printing and parsing again, editing one section |
| Scheduler, SchedulerProof, SchedulerRuns, SchedulerLimits, SchedulerPriority | host-wide admission in which every process admits only itself, and who goes first |
| LspFraming, LspFramingProof, LspHeaders, Positions, PositionUnits | the byte-stream parser of the language client and positions in three encodings |
| CoordinatorLedger, CoordinatorInbox, CoordinatorHost | at-most-once claims; the hand-over of peer messages as a protocol, and the operations as methods that run in it |
| JobStore, JobFencing, JobUpdates, JobWake, JobWakeProof, JobWakeDelivery | stored jobs: what stale snapshots cannot do to them and what every change does; the batching of wake-ups |
| ExactEdits, Bundles | simultaneous exact replacements and the tool budget |
| Wrappers | the optional value that all of them use |

## What the proofs found

Seven statements one would like to make about the code are false. Each has a concrete input
or run, and the exact condition is proved beside it.

- Exclusive ownership of a goal needs more than the log. A parent process that opened the
  session before the handoff was prepared decides from its own memory and works on although
  the child was released (`OwnershipLimits.StaleParentWorksToo`). A parent process that opened
  it before the transfer was recorded can supersede the handoff and then work too
  (`OwnershipLimits.SupersedingParentWorksToo`). `OwnershipProof.ExclusiveOwnership` shows that
  nothing else can go wrong, and `OwnershipProof.GateIsExact` says when the gate is open.
- `canonicalJson` prints an infinity, which `JSON.parse("1e999")` yields, as `null`. Texts
  decide equality exactly up to that (`CanonicalEquality.TextDecidesEqualityUpToInfinities`),
  and `enum`, `const` and `uniqueItems` inherit it (`SchemaMeaning.InfinityPassesAsNull`).
- A memory file with a lone carriage return, or with a Unicode line or paragraph separator,
  can gain a heading when it is printed and parsed again. The round trip holds exactly for
  documents without such a hidden heading (`MemoryRoundTrip.RoundTrip`).
- The 8192-byte header limit of the language client looks at the buffer while the blank line
  is incomplete and at the header when it is complete. A header of 8190 to 8192 bytes is
  accepted or refused depending on how the stream is cut
  (`LspFramingProof.HeaderLimitIsExact`).
- A claim can be granted twice. With given readings of the clock some binding can be granted
  twice if and only if a claim reads a time below what an earlier claim read, which in turn is
  above what a still earlier claim read
  (`CoordinatorLedger.TwiceExactlyWhenTheClockDips`); a clock that never goes back has no such
  dip (`CoordinatorLedger.GrantedAtMostOnce`), and `CoordinatorLedger.ClockGoingBackGrantsTwice`
  is the shortest run with one.
- An unexpired peer message can be lost, but only after a read that failed. A reader that
  cannot read a message or receipt file removes it, and a shutdown that cannot list its inbox
  removes all of it (`CoordinatorInbox.FailedReadOfAMessageLosesIt`). A pruner that cannot
  read a presence goes by the age of that file, and does not look again under the lock. It can
  take messages if and only if, when it removes the inbox, the last announcement of the
  runtime ended less than the lifetime of a message ago, to within one millisecond, and that
  announcement is the one it could not read or a later one
  (`CoordinatorInbox.LostExactlyWhenHarmful`, for every finding, announcement and time).
  `CoordinatorInbox.FailedReadLosesAMessage` and `CoordinatorInbox.RevivedRuntimeLosesAMessage`
  are one run of each kind. While reads succeed nothing is lost in any run
  (`CoordinatorInbox.ReadingLosesNothing`). Below, a message is called safe when it has a
  receipt, was consumed, has expired, or is out of reach after such a read.
- A bundle load is not all or nothing. It leaves the bundle loaded, with its evictions, and
  reports failure exactly when the preflight fits and Pi, given the tools that it wants, leaves
  one of the bundle's tools inactive (`Bundles.ExtensionState.RequestLoad`, which says so of
  its input); `Bundles.UnactivatedLoadStays` is such a load.

## Model

| member | source | states |
|---|---|---|
| LockProtocol.StepInv | extensions/_shared/file-lock.ts:59-161 | every system call of every call, every start and every crash keeps the invariant that a published marker of a live process stays in the directory at the lock path |
| LockProtocol.RunInv | extensions/_shared/file-lock.ts:59-161 | the invariant holds in every state of every run |
| LockProtocol.MutualExclusion | extensions/_shared/file-lock.ts:59-161 | in every interleaving of acquiring, reclaiming, releasing and crashing, at most one live call has acquired the lock; time plays no part |
| LockProtocol.LeakedLockStaysShut | extensions/_shared/file-lock.ts:112-117 | a live call whose release failed keeps its marker, and everybody else out |
| LockProtocol.AloneInScan | extensions/_shared/file-lock.ts:139-147 | a call that sees only its own marker knows that nobody else alive has acquired, and that whoever is still listing will see this marker |
| LockProtocol.OnlyTheOwnerUnpublishes | extensions/_shared/file-lock.ts:70-117 | no step of another call removes a live marker or replaces the directory that holds it |
| LockProtocol.LiveGenerationStays | extensions/_shared/file-lock.ts:70-161 | as long as a live call's marker is published, the lock path holds the same directory generation with that marker in it, even when inode numbers are reused |
| LockProtocol.AcquiresItsPinnedGeneration | extensions/_shared/file-lock.ts:119-161 | whoever acquires does so in the very directory it opened and pinned |
| LockProtocol.EmptiesDeadLock | extensions/_shared/file-lock.ts:70-110 | one reclaimer can bring a directory of dead markers down to no directory, by its own steps |
| LockProtocol.DeadLockIsRecovered | extensions/_shared/file-lock.ts:70-161 | a lock left by dead processes can always be acquired again by one caller on its own |
| LockProtocol.FreshAcquire | extensions/_shared/file-lock.ts:119-161 | an absent lock can be acquired by a caller that is not disturbed |
| LockProtocol.ReleaseRemovesItsMarker | extensions/_shared/file-lock.ts:112-117 | releasing takes exactly the call's own marker out of the directory, and the directory away exactly when that leaves it empty |
| LockProtocol.ReleaseFreesTheLock | extensions/_shared/file-lock.ts:112-161 | when the holder is alone in the directory, releasing leaves no lock, and any other live call that is about to try, or to try again, can then acquire it |
| InterprocessLock.AcquiredIsSole | extensions/_shared/file-lock.ts:119-161 | acquired means that nobody else alive has the lock |
| InterprocessLock.OthersLeaveCall | extensions/_shared/file-lock.ts:59-161 | whatever others do, a call keeps its own program point and marker name |
| InterprocessLock.Host.ReleaseLock | extensions/_shared/file-lock.ts:112-117 | with others acting at any moment: where the call ends, for every combination of failures; when the unlink works its marker is gone, and when nothing fails the directory is gone unless other names are in it |
| InterprocessLock.Host.PublishAndConfirm | extensions/_shared/file-lock.ts:127-161 | the `try` block answers whether the lock was acquired, whatever fails in between; undisturbed in an empty directory it acquires |
| InterprocessLock.Host.Confirm | extensions/_shared/file-lock.ts:138-147 | a second look that fails leads to another attempt, never to an error |
| InterprocessLock.Host.TryAcquireLock | extensions/_shared/file-lock.ts:119-161 | `true` means sole holder at that moment; `false` leaves a call that never had the lock, or leaked its marker; an absent lock is acquired when nothing fails and nobody else takes a step |
| InterprocessLock.Host.UnlinkDead | extensions/_shared/file-lock.ts:70-110 | unlinking a dead marker goes on with the same list or gives up; undisturbed, exactly that name goes |
| InterprocessLock.Host.ReclaimOne | extensions/_shared/file-lock.ts:70-110 | one name of a listing is dealt with and taken off the list, or reclaiming gives up; undisturbed, a dead marker goes |
| InterprocessLock.Host.BreakStaleLock | extensions/_shared/file-lock.ts:70-110 | reclaiming goes through an arbitrarily old listing, keeps every invariant and ends before the next attempt; undisturbed, a lock of dead owners is gone afterwards |
| InterprocessLock.Host.AcquireWithRetries | extensions/_shared/file-lock.ts:163-194 | the retry loop ends as sole holder or without the lock; undisturbed, with one retry, it acquires a lock that is absent or left by dead owners |
| InterprocessLock.Host.WithInterprocessLock | extensions/_shared/file-lock.ts:163-194 | when the caller's function ran, there was a moment in the run at which this call was the sole holder and inside it; undisturbed, on a lock that is absent or left by dead owners, it runs, and unless the release fails no lock is left |
| InterprocessLock.Host.Renew | extensions/_shared/file-lock.ts:163-194 | every attempt publishes under a name never used before |
| HandoffLog.ReduceSelfHandoffRequest | extensions/_shared/handoff-state.ts:405-468 | the loop with its four variables is one fold in which each record may or may not follow the one before |
| HandoffLog.ReductionIsStable | extensions/_shared/handoff-state.ts:405-468 | whatever is appended: conflicts are permanent, terminal states never change and a named child never changes, short of a conflict |
| HandoffLog.FoldMeaning | extensions/_shared/handoff-state.ts:405-468 | a log is accepted exactly when all records about the id are about this request and each may follow its predecessor; the state is then the last record |
| HandoffLog.TransferredWasNeverAbandoned | extensions/_shared/handoff-state.ts:405-468 | a log that reads as transferred holds no cancelled or failed record of the request |
| HandoffLog.ReducedEntry | extensions/_shared/handoff-state.ts:405-468 | the reduction yields a record that is in the log, and names its entry |
| HandoffLog.FoldNone | extensions/_shared/handoff-state.ts:405-468 | no state exactly when no record concerns the id |
| HandoffFinalize.ParentGoalTransition | extensions/self-handoff/index.ts:337-367 | the search from the end finds the last matching goal entry on whose own branch the handoff is still at the right point |
| HandoffFinalize.ParentFile.FinalizeUnlocked | extensions/self-handoff/index.ts:458-543 | the log after finalizing, for every way in which each append can work, throw, or kill the process before or after writing |
| HandoffFinalize.ParentFile.FinalizeParentTransfer | extensions/self-handoff/index.ts:458-553 | nothing happens while another process holds the lock file; a death inside leaves it behind |
| HandoffFinalize.ParentFile.VerifyParentAlreadyTransferred | extensions/self-handoff/index.ts:555-585 | confirmed exactly when unlocked and the log and its branch read as transferred to this child |
| HandoffFinalize.ParentFile.AppendParentChildCreated | extensions/self-handoff/index.ts:384-456 | the log after recording the child, with the same failures |
| HandoffFinalize.ChildIsRecorded | extensions/self-handoff/index.ts:384-456 | a recorded child is awaited at a suspended goal, and recording the same child again appends nothing |
| HandoffFinalize.FinalizeProgress | extensions/self-handoff/index.ts:458-543 | from an awaited child every call ends awaited or confirmed, success means confirmed, and appends that work mean success |
| HandoffFinalize.FinalizeIsIdempotent | extensions/self-handoff/index.ts:458-543 | after success another call appends nothing and succeeds |
| HandoffFinalize.FinalizeKeepsTrack | extensions/self-handoff/index.ts:458-543 | wherever one call stops, at most one transferred goal exists, a retry will find it, and there are as many transferred records as the state says |
| HandoffFinalize.RunKeepsTrack | extensions/self-handoff/index.ts:458-543 | the same over any sequence of failed calls and foreign appends |
| HandoffFinalize.RetryCompletes | extensions/self-handoff/index.ts:458-543 | from every crash point a call whose appends work ends with exactly one transferred record and, with a goal, exactly one transferred goal |
| HandoffFinalize.ReclaimIsFinal | extensions/self-handoff/index.ts:458-543 | after a reclaim no later call appends anything, and the parent never confirms |
| HandoffFinalize.RecordingIsOnTrack | extensions/self-handoff/index.ts:384-456 | recording the child of a fresh attempt is where that run starts |
| GoalOwnership.LatestHandoffForRequest | extensions/goal/index.ts:391-404 | the lookup by id alone: a conflict exactly when the log is malformed or the first request of that id reads as one |
| GoalOwnership.LookupIs | extensions/goal/index.ts:391-404 | any record about the id would have given the same answer |
| GoalOwnership.OneRequestPerId | extensions/_shared/handoff-state.ts:387-468 | two requests with one id are in conflict whichever is asked for |
| GoalOwnership.OutboundGoalOwnership | extensions/goal/index.ts:442-476 | the parent's gate is shut exactly when the log is malformed or some request sent from here about this goal is in conflict, prepared, recorded or transferred |
| OwnershipProof.StepInv | extensions/self-handoff/index.ts:384-585 | every step of every process (open, navigate, save, prepare, suspend, withdraw, supersede, replace, record, finalize, reclaim, append failures, death, lock removal, retry, settle, fail, confirm, release, admit) keeps the ownership invariant |
| OwnershipProof.RunInv | extensions/self-handoff/index.ts:384-585 | the invariant over whole runs |
| OwnershipProof.NeverTransferredYet | extensions/_shared/handoff-state.ts:405-468 | a log that reads as anything but transferred never read as transferred |
| OwnershipProof.ReleasedThenLate | extensions/self-handoff/index.ts:799-966 | once a child is released, every record that abandons the handoff came after the transfer |
| OwnershipProof.TimelyAbandonShutsChildOut | extensions/goal/index.ts:676-750 | a parent that reclaims or withdraws in time keeps the child from ever being released |
| OwnershipProof.OpenedAfterTransfer | extensions/goal/index.ts:442-476 | a process that opened the parent after the transfer can never be talked out of it |
| OwnershipProof.ExclusiveOwnership | extensions/goal/index.ts:442-518 | when both the child was released and a parent process that remembers the handoff let work through on the same goal, that process had itself superseded the handoff after it was transferred |
| OwnershipProof.UpToDateParentIsShut | extensions/goal/index.ts:609-622 | a parent process that remembers the handoff and superseded nothing never works beside the released child |
| OwnershipProof.GateIsExact | extensions/goal/index.ts:442-476 | for every memory of a reachable log the gate is open exactly when the memory holds nothing about the request or reads it as failed or cancelled |
| OwnershipOrder.HandoffGoesInOrder | extensions/self-handoff/index.ts:1440-1700 | in every reachable state: no child before the file read as prepared, no transferred record, confirmation or release before the child waited for its user, no release before the file read as transferred |
| OwnershipOrder.NoSecondHandoff | extensions/self-handoff/index.ts:1165-1400 | a process whose memory reads a handoff of its goal as pending or transferred, or whose goal is on its way, cannot prepare another |
| OwnershipRecovery.RollbackGivesTheGoalBack | extensions/self-handoff/index.ts:1233-1254 | in every reachable state: when the memory of the command reads its request as prepared, putting the goal back and withdrawing makes it read as withdrawn, and the gate then lets that process work on the goal, unless another request shuts it |
| OwnershipRecovery.ReclaimGivesTheGoalBack | extensions/goal/index.ts:690-735 | in every reachable state: the four steps of a reclaim can be taken, make the pending request read as failed, and let the parent work on its goal |
| OwnershipRecovery.AbandonedReads | extensions/_shared/handoff-state.ts:405-468 | a record that cancels or fails what is prepared, or fails what has a child, is accepted and opens the gate |
| OwnershipRecovery.OnlyThisGoalMatters | extensions/goal/index.ts:442-476 | the records of handoffs of other goals or sessions never change the gate's answer for a goal |
| OwnershipRecovery.DeathLeavesTheLock | extensions/_shared/handoff-state.ts:671-699 | whoever holds the lock file may die; the file stays, and what was appended stays appended |
| OwnershipRecovery.LeftoverStopsTheFile | extensions/_shared/handoff-state.ts:671-699 | a leftover lock file stops every step that goes by the file |
| OwnershipRecovery.RemovingTheLockFreesIt | extensions/_shared/handoff-state.ts:671-699 | and removing it by hand lets them go on, with everything as it was |
| OwnershipLimits.RolledBackParentWorks | extensions/self-handoff/index.ts:1233-1254 | a run in which a parent rolls its handoff back and may work on the goal again |
| OwnershipLimits.ReclaimedParentWorks | extensions/goal/index.ts:690-735 | a run in which a parent reclaims its goal and may work on it again |
| OwnershipLimits.StaleParentWorksToo | extensions/goal/index.ts:442-476 | a run in which a parent process without any memory of the handoff works beside the released child |
| OwnershipLimits.SupersedingParentWorksToo | extensions/self-handoff/index.ts:1283-1325 | a run in which a parent process that remembers the handoff supersedes it after the transfer and works too |
| OwnershipLimits.LinearBranch | extensions/_shared/handoff-state.ts:405-468 | the branch of a log that never forked is the whole log |
| ChildGate.InspectChildHandoffOrientation | extensions/_shared/handoff-state.ts:479-561 | nothing is pending exactly when no inherited handoff is unsettled or in conflict; otherwise the latest such handoff decides, and it is pending only where session and branch agree on this child |
| ChildGate.UnresolvedChildOwnership | extensions/goal/index.ts:406-440 | the child's goal is held exactly when the log is malformed or some inherited request is in conflict, or is received, awaiting the user or failed about this goal |
| ChildGate.ReactivationBlockReason | extensions/goal/index.ts:478-518 | blocked exactly when the goal is outbound, or unresolved with no pending orientation of it on the branch |
| ChildGate.MayWorkExactly | extensions/goal/index.ts:478-518 | the exception for a pending orientation never lets autopilot work, unless a session claims to be its own child |
| ChildGate.OrientingIsUnresolved | extensions/_shared/handoff-state.ts:479-561 | whatever holds the tools holds the goal |
| ChildGate.OnlyTheReleaseFreesTheGoal | extensions/goal/index.ts:406-440 | whatever is appended to the child's log, a held goal comes free only by a transferred record, and after a failure never |
| ChildGate.ChildGates | extensions/self-handoff/index.ts:799-982 | in every run the child's tools are blocked exactly while it is received or awaiting the user, and its goal may be worked on exactly when it was released |
| ChildGate.ChildMayFail | extensions/goal/index.ts:409-440 | in every reachable state: a child that has received the handoff or waits may fail, and then its goal stays blocked and its tools come free |
| ChildGate.HeldExactly | extensions/goal/index.ts:409-440 | in the fields of the records: what holds a goal is a handoff of that very goal to this session, received and not released, or failed |
| ChildGate.OnlyThisGoalIsHeld | extensions/goal/index.ts:409-440 | handoffs of other goals never hold this one |
| ChildGate.OrientingExactly | extensions/_shared/handoff-state.ts:479-560 | in the fields of the records: the session is in its orientation exactly while such a handoff is received and not released, or reads as a conflict |
| ChildGate.BothGatesOpen | extensions/goal/index.ts:442-518 | both real gates open at once only for a parent process that superseded the handoff after it was transferred |
| CanonicalEquality.TokenUnique | extensions/_shared/structured-output.ts:43-51 | an escaped code unit or surrogate pair can be told from any other by what is printed |
| CanonicalEquality.QuoteUnique | extensions/_shared/structured-output.ts:43-51 | a quoted string ends in one place only and determines the string |
| CanonicalEquality.EqualPrintsSame | extensions/_shared/structured-output.ts:43-51 | deeply equal values print to the same text whatever the order of their members |
| CanonicalEquality.SortedKeysUnique | extensions/_shared/structured-output.ts:47-50 | a sorted list of distinct keys is determined by the set of its keys |
| CanonicalEquality.TextDecidesEquality | extensions/_shared/structured-output.ts:43-51 | two values without infinities print to the same text exactly when they are equal JSON values |
| CanonicalEquality.TextDecidesEqualityUpToInfinities | extensions/_shared/structured-output.ts:43-51 | for all values: same text exactly when equal after infinities became null |
| CanonicalEquality.InfinitiesPrintAsNull | extensions/_shared/structured-output.ts:44 | an infinity anywhere prints like null there |
| CanonicalEquality.OverflowPrintsAsNull | extensions/_shared/structured-output.ts:44 | a number too large prints like null without being equal to it |
| JsonStrings.QuotedIsRead | extensions/_shared/structured-output.ts:43-51 | by the rules of JSON, every printed string is read back as that string, whatever follows it |
| JsonStrings.UnicodeEscapeIsRead | extensions/_shared/structured-output.ts:43-51 | four hexadecimal digits after `\u` are read as the unit they were written for |
| JsonStrings.LiteralsAreJson | extensions/_shared/structured-output.ts:43-51 | the literal names are those of JSON |
| JsonStrings.StructureIsJson | extensions/_shared/structured-output.ts:43-51 | and so are the structural characters |
| SchemaMeaning.SameValueIsEquality | extensions/_shared/structured-output.ts:173-178 | the sameness that enum, const and uniqueItems use is equality on values without infinities |
| SchemaMeaning.FiniteMeaning | extensions/_shared/structured-output.ts:162-267 | without infinities in value and schema, satisfying the schema means the same with plain equality of values, at every depth |
| SchemaMeaning.InfinityPassesAsNull | extensions/_shared/structured-output.ts:173-178 | a value and a schema that show it: an infinity passes an enumeration of null alone |
| SchemaTerms.TypesMeaning | extensions/_shared/structured-output.ts:134-160 | every value has its own type and no other, but for integers, which are numbers, too; an infinity has none |
| SchemaTerms.LessIsTheOrder | extensions/_shared/structured-output.ts:162-267 | the comparison of numbers is the order of the integers with an infinity at either end |
| SchemaTerms.BoundsMeaning | extensions/_shared/structured-output.ts:162-267 | inclusive bounds include the bound and exclusive ones do not |
| SchemaTerms.LengthsMeaning | extensions/_shared/structured-output.ts:162-267 | length limits count things, inclusively |
| SchemaTerms.LengthIsPoints | extensions/_shared/structured-output.ts:162-267 | the length of a text is the number of its code points |
| SchemaTerms.EveryTextIsWritten | extensions/_shared/structured-output.ts:162-267 | and every text is written by code points |
| SchemaTerms.RequiredMeaning | extensions/_shared/structured-output.ts:162-267 | a required name is there exactly when some member has it |
| SchemaTerms.KeywordMeaning | extensions/_shared/structured-output.ts:72-118 | the value of a keyword is that of the one member with its name |
| StructuredOutput.CheckNode | extensions/_shared/structured-output.ts:72-118 | the checks on one schema node in turn accept exactly the supported keys with values of their kind |
| StructuredOutput.ValidateValue | extensions/_shared/structured-output.ts:162-267 | for every value and supported schema: old errors stay in front, the list never passes 20, and unless it was full it is unchanged exactly when the value satisfies the schema as the keywords mean it |
| StructuredOutput.ReportsInTurn | extensions/_shared/structured-output.ts:158-267 | checks made one after the other report their conjunction |
| StructuredOutput.FullListDecides | extensions/_shared/structured-output.ts:190-266 | stopping early at a full list never changes a verdict |
| StructuredOutput.ErrorList.Add | extensions/_shared/structured-output.ts:158-160 | a full list takes nothing more |
| StructuredOutput.CheckType | extensions/_shared/structured-output.ts:137-171 | reports exactly a value of the wrong type |
| StructuredOutput.DistinctTexts | extensions/_shared/structured-output.ts:231 | the set of printed items is as large as the array exactly when no two items are the same |
| StructuredOutput.TextCount | extensions/_shared/structured-output.ts:231 | the same for every prefix |
| StructuredOutput.CheckArray | extensions/_shared/structured-output.ts:222-233 | reports exactly a broken array keyword |
| StructuredOutput.CheckString | extensions/_shared/structured-output.ts:201-209 | reports exactly a broken string keyword, lengths in code points |
| StructuredOutput.CheckNumber | extensions/_shared/structured-output.ts:210-223 | reports exactly a broken bound |
| StructuredOutput.CheckItems | extensions/_shared/structured-output.ts:234-239 | reports exactly when some item fails the item schema |
| StructuredOutput.CheckRequired | extensions/_shared/structured-output.ts:248-254 | reports exactly when a required member is missing |
| StructuredOutput.CheckMembers | extensions/_shared/structured-output.ts:255-265 | reports exactly when some member fails its own schema, or the one for additional members |
| StructuredOutput.CheckAllOf | extensions/_shared/structured-output.ts:180-188 | reports exactly when some branch fails, though it copies only as many errors as fit |
| StructuredOutput.CheckAnyOf | extensions/_shared/structured-output.ts:189-193 | reports exactly when every branch fails |
| StructuredOutput.CheckOneOf | extensions/_shared/structured-output.ts:194-199 | reports exactly unless one branch, and only one, holds |
| StructuredOutput.ExactlyOne | extensions/_shared/structured-output.ts:194-199 | counting empty error lists decides "exactly one branch" |
| StructuredOutput.SomeSuccess | extensions/_shared/structured-output.ts:189-193 | counting them decides "some branch" |
| StructuredOutput.ValidateSchemaNode | extensions/_shared/structured-output.ts:65-121 | accepts exactly the supported schemas within the depth and node limits, and the counter grows by the number of nodes |
| StructuredOutput.ParseAndValidate | extensions/_shared/structured-output.ts:269-281 | which of the four outcomes occurs, exactly; an accepted value satisfies the schema and a mismatch has 1 to 20 errors; without infinities the meaning is that of plain equality |
| MemoryText.UnlinesSplit | extensions/memory/index.ts:165-180 | splitting at newlines and joining again gives the text back |
| MemoryText.SplitUnlines | extensions/memory/index.ts:165-180 | and the other way round for lines without newlines |
| MemoryText.MarkerTrimEnd | extensions/memory/index.ts:134-153 | trailing white space never makes or breaks a fence marker |
| MemoryText.NextFenceTrimEnd | extensions/memory/index.ts:141-156 | nor does it open or close a fence |
| MemoryFences.OpensMeaning | extensions/memory/index.ts:135-153 | a fence is opened by exactly the lines with at most three spaces, a run of at least three backticks or tildes, and, after backticks, no further backtick |
| MemoryFences.ClosesMeaning | extensions/memory/index.ts:141-153 | an open fence is closed by exactly the lines with at most three spaces, a run of the same character that is at least as long, and white space |
| MemoryFences.StaysOpen | extensions/memory/index.ts:141-153 | without such a line it stays open and nothing in it is a heading |
| MemoryFences.BlockIsOnePiece | extensions/memory/index.ts:141-190 | a fenced block is one piece: none of its lines is a heading, no fence is open after it, and a heading below it is found |
| MemoryText.TrimTrimEnd | extensions/memory/index.ts:159-161 | trimming the end first does not change what trimming yields |
| MemoryDocument.FenceAppend | extensions/memory/index.ts:141-156 | the fence state after two stretches of lines is that of the second started with that of the first |
| MemoryDocument.GroupAppend | extensions/memory/index.ts:141-180 | grouping two stretches of lines is grouping the second in that state and attaching its leading lines to the last heading of the first |
| MemoryDocument.TitlesAreOk | extensions/memory/index.ts:136-155 | every title found prints as a heading line that is found again |
| MemoryDocument.TrimmedIsNormal | extensions/memory/index.ts:159-161 | trimming blank lines twice is trimming once |
| MemoryDocument.GroupingOk | extensions/memory/index.ts:141-180 | fences never span a heading, and only the last part of a document can leave one open |
| MemoryRoundTrip.ParsedIsSettled | extensions/memory/index.ts:165-180 | every parsed document has the shape that printing keeps |
| MemoryRoundTrip.SettledRoundTrip | extensions/memory/index.ts:165-185 | such a document is read back unchanged exactly when no block holds a line that reads as a heading by itself |
| MemoryRoundTrip.RoundTrip | extensions/memory/index.ts:165-185 | for every text whatsoever: printing what was parsed and parsing again changes nothing exactly under that condition |
| MemoryRoundTrip.OrdinaryRoundTrip | extensions/memory/index.ts:134-185 | texts without lone carriage return, U+2028 and U+2029 always meet it, open fence or not |
| MemoryRoundTrip.CarriageReturnBreaksRoundTrip | extensions/memory/index.ts:136 | a heading line ending in a carriage return does not |
| MemoryEdit.ScanHeadings | extensions/memory/index.ts:141-156 | the loop with its fence variable finds exactly the headings outside fences |
| MemoryEdit.ParseDocument | extensions/memory/index.ts:165-180 | the arrays filled side by side are the document that the recursive reading gives |
| MemoryEdit.FindSection | extensions/memory/index.ts:198-200 | the first section of that title, ignoring case, or none |
| MemoryEdit.SetSection | extensions/memory/index.ts:324-345 | every refusal and every edit, in the order of the code's checks |
| MemoryEdit.RequestedTitleOk | extensions/memory/index.ts:206-211 | whatever title is asked for, the cleaned one prints as a heading |
| MemoryTerms.TitleMeaning | extensions/memory/index.ts:206-211 | the title asked for: after the hashes it starts with, the words of the request with one space between them |
| MemoryTerms.TrimmedWords | extensions/memory/index.ts:206-211 | collapsing white space and trimming leaves the words with one space between them |
| MemoryTerms.LineEndsAreUnified | extensions/memory/index.ts:326-326 | of every line that ends in a line feed, one carriage return before it goes, and nothing else |
| MemoryTerms.LeadingBlankLinesGo | extensions/memory/index.ts:159-161 | blank lines in front of a body go, and its first line keeps its indentation |
| MemoryTerms.SizeIsRefusedExactly | extensions/memory/index.ts:240-246 | an edit is refused for its size exactly when it leaves the file longer than 12000 UTF-16 units and longer than before |
| MemoryTerms.UnitsAreUtf16 | extensions/memory/index.ts:240-246 | lengths are counted in UTF-16 |
| MemoryTerms.DateMeaning | extensions/memory/index.ts:137-137 | a date is four digits, two and two, with hyphens between them |
| MemoryTerms.SpaceTable | extensions/memory/index.ts:141-211 | white space and line terminators are those of ECMAScript |
| MemoryEdit.StampKeeps | extensions/memory/index.ts:192-196 | stamping a body changes neither its fences nor its headings nor its normal form |
| MemoryEdit.WrittenReadsBack | extensions/memory/index.ts:324-345 | what an accepted edit wrote reads back as exactly the edited section list, exactly when the untouched parts hold no hidden heading |
| MemoryEdit.OrdinaryEditReadsBack | extensions/memory/index.ts:324-345 | so always for files with ordinary line ends: every other title, body and the order are unchanged |
| MemoryEdit.EditTwice | extensions/memory/index.ts:192-196 | the same edit on the same day changes nothing more |
| Scheduler.SchedulerState.PruneState | extensions/_shared/subagent-scheduler.ts:194-204 | exactly the live waiters and leases stay, and `changed` says truly whether any went |
| Scheduler.SchedulerState.ReconcileLimits | extensions/_shared/subagent-scheduler.ts:171-192 | an idle state takes the caller's limits, any other the stricter ones, and `changed` says truly whether anything did |
| Scheduler.SchedulerState.MergeLimits | extensions/_shared/subagent-scheduler.ts:185-190 | the stricter limit for each key in whatever order the keys come |
| Scheduler.SchedulerState.ComputeEligible | extensions/_shared/subagent-scheduler.ts:289-321 | counting, sorting and the loop with `continue` and `break` give the greedy choice |
| Scheduler.SchedulerState.PickEligible | extensions/_shared/subagent-scheduler.ts:308-321 | the same for the loop alone, from any usage |
| Scheduler.SchedulerState.Poll | extensions/_shared/subagent-scheduler.ts:266-339 | a poll grants exactly when the caller is in the greedy choice of the state it has registered in |
| Scheduler.SchedulerState.Release | extensions/_shared/subagent-scheduler.ts:373-381 | exactly the caller's own lease goes |
| Scheduler.SortedIsSorted | extensions/_shared/subagent-scheduler.ts:297-307 | waiters are ordered by aged priority, then request time, then id, and none is lost |
| SchedulerPriority.OrderOfWaiters | extensions/_shared/subagent-scheduler.ts:297-307 | in the waiters' own fields: foreground and aged waiters stand before young background ones, and within both groups by request time and id |
| SchedulerPriority.ForegroundFirst | extensions/_shared/subagent-scheduler.ts:297-307 | no young background waiter stands before a foreground one |
| SchedulerPriority.OnlyEarlierAreAhead | extensions/_shared/subagent-scheduler.ts:297-307 | only who asked earlier is ahead of an aged waiter |
| SchedulerPriority.NobodyIsOvertakenByYoungWork | extensions/_shared/subagent-scheduler.ts:289-321 | while young background work is admitted, every foreground or aged waiter is admitted or has its key used up |
| SchedulerPriority.AgedWorkIsNotOvertaken | extensions/_shared/subagent-scheduler.ts:289-321 | nobody who asked later is admitted while an aged waiter is left waiting, unless the key of that one is used up |
| SchedulerPriority.TheOldestIsServed | extensions/_shared/subagent-scheduler.ts:289-321 | the oldest of the foreground and aged waiters is admitted as soon as there is a slot, in all and under its key |
| SchedulerPriority.LivingExactly | extensions/_shared/subagent-scheduler.ts:194-204 | a waiter stays exactly when its process lives and its heartbeat is recent |
| SchedulerPriority.UnexpiredExactly | extensions/_shared/subagent-scheduler.ts:194-204 | a lease stays exactly when its process lives and it has not expired |
| SchedulerPriority.TheDeadHoldNothing | extensions/_shared/subagent-scheduler.ts:194-204 | after pruning, a dead process has no waiters and no leases |
| SchedulerPriority.AdmissionLasts | extensions/_shared/subagent-scheduler.ts:322-338 | who is admitted holds a lease in its own name for the lease time while it lives, and waits no more |
| SchedulerPriority.WaitingLasts | extensions/_shared/subagent-scheduler.ts:266-288 | who is not admitted waits on with the time of its first request, and with a fresh heartbeat when that is due |
| SchedulerProof.GreedyMeaning | extensions/_shared/subagent-scheduler.ts:308-321 | a waiter is chosen exactly when those chosen before it leave it room, in all and under its key |
| SchedulerProof.AdmittedHadRoom | extensions/_shared/subagent-scheduler.ts:308-321 | whoever is chosen in the end had room from the start |
| SchedulerProof.TakingOneSlot | extensions/_shared/subagent-scheduler.ts:308-321 | when a chosen waiter takes its slot, the choice among the rest is what it was without it |
| SchedulerProof.SortedWithout | extensions/_shared/subagent-scheduler.ts:297-324 | removing a waiter leaves the order of the others |
| SchedulerProof.TakingLeavesTheOthers | extensions/_shared/subagent-scheduler.ts:289-338 | at a fixed time, recomputing after one of the eligible took its lease gives exactly the others |
| SchedulerRuns.EligibleIgnoresHeartbeats | extensions/_shared/subagent-scheduler.ts:283-287 | a heartbeat changes nobody's admission |
| SchedulerRuns.OnePoll | extensions/_shared/subagent-scheduler.ts:266-339 | one poll serves its caller exactly when eligible and leaves the eligibility of all others |
| SchedulerRuns.PollingOrderNeverMatters | extensions/_shared/subagent-scheduler.ts:266-339 | whoever polls, how often and in whatever order: the processes that then hold leases are those of them that one central allocator would have served |
| SchedulerLimits.LimitsOnlyFall | extensions/_shared/subagent-scheduler.ts:171-192 | after reconciling the limits obey the caller's configuration, and in a busy state none has risen |
| SchedulerLimits.MutateObeys | extensions/_shared/subagent-scheduler.ts:171-242 | every mutation keeps the limits within every configuration seen since the state was last idle |
| SchedulerLimits.GrantFits | extensions/_shared/subagent-scheduler.ts:289-338 | a grant adds one lease and fits the limits in force, in all and under its key |
| SchedulerLimits.GrantsObeyEveryConfigSeen | extensions/_shared/subagent-scheduler.ts:171-339 | in every run with differing configurations, every grant fits the caps of all of them since the last idle moment |
| SchedulerLimits.OneConfigCaps | extensions/_shared/subagent-scheduler.ts:171-339 | with one shared configuration its caps hold in every state of every run |
| LspFraming.LspClient.Fail | extensions/code-intel/client.ts:56-61 | the first failure stays and the buffer is dropped |
| LspFraming.LspClient.ReceiveChunk | extensions/code-intel/client.ts:63-115 | one chunk: the limits, then everything that can be parsed |
| LspFraming.LspClient.Parse | extensions/code-intel/client.ts:70-113 | the endless loop stops after exactly the steps that can be taken |
| LspFraming.LspClient.ReadLength | extensions/code-intel/client.ts:71-85 | a header is read when its end is there, refused when it is too long or not one number in range |
| LspFraming.LspClient.TakeMessage | extensions/code-intel/client.ts:86-95 | a body is taken when all its bytes are there and counted |
| LspFramingProof.DrainAppend | extensions/code-intel/client.ts:63-115 | what was parsed from fewer bytes is parsed the same way when more arrive |
| LspFramingProof.CuttingNeverMatters | extensions/code-intel/client.ts:63-115 | two ways to cut one stream, neither failing, give the same state and the same messages |
| LspFramingProof.PrefixDrains | extensions/code-intel/client.ts:63-115 | no beginning of a stream of good frames fails |
| LspFramingProof.EveryCutDelivers | extensions/code-intel/client.ts:63-115 | every cut of such a stream within the limits into chunks of at most 65536 bytes delivers exactly the bodies in order and leaves nothing over |
| LspFramingProof.NumberDigits | extensions/code-intel/client.ts:78-83 | a printed length is read back as that length |
| LspHeaders.EndsAtTheBlankLine | extensions/code-intel/client.ts:72-77 | a header ends at the first blank line and at no other place |
| LspHeaders.HeaderLengthMeaning | extensions/code-intel/client.ts:78-82 | for every header and number: the header gives that length exactly when one of its lines is the name, spaces, the digits and spaces, and no other line starts with the name |
| LspHeaders.CutIsLines | extensions/code-intel/client.ts:78-78 | there is one way to cut a header at its line ends |
| LspHeaders.FoldMeaning | extensions/code-intel/client.ts:78-79 | names are read without case and without the high bit |
| LspFramingProof.SentIsGood | extensions/code-intel/client.ts:117-123 | every message within the limit is framed as a good frame |
| LspFramingProof.SendThenReceive | extensions/code-intel/client.ts:63-123 | what one side sends the other receives, exactly and in order, through any chunks |
| LspFramingProof.LongHeaderCut | extensions/code-intel/client.ts:72-77 | every header longer than 8189 bytes can be cut so that it is refused |
| LspFramingProof.HeaderLimitIsExact | extensions/code-intel/client.ts:72-77 | a good frame survives every cut exactly when its header is at most 8189 bytes long |
| LspFramingProof.PaddedHeaderShowsIt | extensions/code-intel/client.ts:72-80 | one frame that is delivered whole and refused in pieces |
| Positions.WalkRow | extensions/code-intel/service.ts:117-123 | the walk along the row finds the column at which the units are used up, or none |
| Positions.ReadLspPosition | extensions/code-intel/service.ts:112-125 | the conversion back, with its error cases |
| Positions.ColumnsAndUnits | extensions/code-intel/service.ts:105-125 | in each encoding a column and the units before it determine each other |
| Positions.ThereAndBack | extensions/code-intel/service.ts:104-125 | every valid position, and no other, converts, and converting back gives it again |
| Positions.AcceptedExactly | extensions/code-intel/service.ts:104-125 | the offsets accepted on the way back are exactly those some valid position has, and never inside a code point |
| Positions.OrderIsKept | extensions/code-intel/service.ts:105-111 | on one line, later columns are exactly those with larger offsets |
| PositionUnits.EncodingsAreRead | extensions/code-intel/service.ts:105-111 | the UTF-8 bytes and UTF-16 units of a code point are read back as that code point |
| PositionUnits.UnitsAreCounted | extensions/code-intel/service.ts:105-111 | the units before a column are as many as the encoded text before it has |
| PositionUnits.OffsetsAreLengths | extensions/code-intel/service.ts:105-111 | an offset is the length of the encoded text before the position |
| PositionUnits.RowsAreLines | extensions/code-intel/service.ts:104-104 | the rows are the lines of the text between all three kinds of line end, and no carriage return is cut from its line feed |
| CoordinatorLedger.Ledger.ClaimRequestReply | extensions/_shared/coordinator-state.ts:584-625 | what a claim answers and what the ledger holds after it, with two readings of the clock; an error or a refusal leaves the ledger alone |
| CoordinatorLedger.Ledger.ClaimPeerWake | extensions/_shared/coordinator-state.ts:689-718 | the same with one reading |
| CoordinatorLedger.Ledger.MarkQueued | extensions/_shared/coordinator-state.ts:628-633 | a reply is marked exactly when it is claimed with this very binding; another binding and a missing claim are different errors, and either leaves the ledger alone |
| CoordinatorLedger.MarkingOf | extensions/_shared/coordinator-state.ts:584-633 | not claimed means that no claim has this id; a marked claim is in the ledger; every error leaves it as it was |
| CoordinatorLedger.Ledger.MarkRequestReplyQueued | extensions/_shared/coordinator-state.ts:628-644 | and then, after success only, the sender's status of that very request gets its answer time, if it has none yet |
| CoordinatorLedger.AnswerIsKept | extensions/_shared/coordinator-state.ts:636-643 | an answer time never changes, and marking one request changes nothing else in any status |
| CoordinatorLedger.ClaimKeepsGuards | extensions/_shared/coordinator-state.ts:591-625 | no claim evicts an unexpired one, the ledger never passes 100 entries, and a grant leaves its guard behind |
| CoordinatorLedger.HeldOrPruned | extensions/_shared/coordinator-state.ts:591-625 | whatever the clock does, a granted binding is held until a later grant reads a time at or past its expiry |
| CoordinatorLedger.GrantIsGuarded | extensions/_shared/coordinator-state.ts:591-625 | with a clock that never goes back, from its grant on, a binding is guarded until it has expired |
| CoordinatorLedger.GrantedAgainAfterPruning | extensions/_shared/coordinator-state.ts:584-718 | for every run and clock, a second grant needs another grant in between that read a time at or past the expiry, and then a reading before it |
| CoordinatorLedger.NoDipNoSecondGrant | extensions/_shared/coordinator-state.ts:584-718 | when the readings have no such dip, no binding is granted twice |
| CoordinatorLedger.TwiceExactlyWhenTheClockDips | extensions/_shared/coordinator-state.ts:584-718 | with given readings, in a run of any length, some binding can be granted twice if and only if they dip |
| CoordinatorLedger.GrantedAtMostOnce | extensions/_shared/coordinator-state.ts:584-718 | so over any run with a clock that never goes back, each binding is granted at most once |
| CoordinatorLedger.UnexpiredClaimsSurvive | extensions/_shared/coordinator-state.ts:591-601 | a granted claim that has not expired is still in the ledger at the end of any run |
| CoordinatorLedger.RunIsSound | extensions/_shared/coordinator-state.ts:553-601 | every ledger a run can write is one the reader accepts: unique ids, at most 100 |
| CoordinatorLedger.ClockGoingBackGrantsTwice | extensions/_shared/coordinator-state.ts:591-625 | three claims with a clock that goes back grant one binding twice |
| CoordinatorInbox.StepInv | extensions/_shared/coordinator-state.ts:473-503 | every step of senders, workers, shutdowns, pruners, discarding readers and dying processes keeps the invariant, whichever reads fail |
| CoordinatorInbox.NoUnexpiredMessageIsLost | extensions/_shared/coordinator-state.ts:1026-1137 | at every moment of every run, an enqueued message that has not expired and was not consumed is in its inbox or among its session's receipts, unless its own file or directory was removed unread, or a pruner took it undelivered |
| CoordinatorInbox.LostExactlyWhenHarmful | extensions/_shared/coordinator-state.ts:1194-1209 | for every finding of a pruner, announcement and time: some run loses a message to it if and only if the presence was not read, was old enough, is the one in force or was followed by it, and a message sent to that one can be alive |
| CoordinatorInbox.ReadingLosesNothing | extensions/_shared/coordinator-state.ts:1058-1209 | in every run in which all reads succeed, an enqueued message that has not expired and was not consumed is in its inbox or among its session's receipts |
| CoordinatorInbox.FailedReadLosesAMessage | extensions/_shared/coordinator-state.ts:1196-1207 | a run in which one failed read of an old presence loses a message that has not expired, of a runtime that was never announced again |
| CoordinatorInbox.RevivedRuntimeLosesAMessage | extensions/_shared/coordinator-state.ts:1194-1209 | a run in which a live runtime whose old presence could not be read is announced again, is sent a message and is then removed |
| CoordinatorInbox.FailedReadOfAMessageLosesIt | extensions/_shared/coordinator-state.ts:1063-1072 | a run in which a reader that cannot read a message removes it |
| CoordinatorInbox.AdoptionIsIdempotent | extensions/_shared/coordinator-state.ts:1116-1137 | there is one receipt per id, it is the message's own, and storing it again changes nothing |
| CoordinatorInbox.AMessageArrives | extensions/_shared/coordinator-state.ts:1076-1137 | a worker of its session can always store a message, take it out of the inbox and consume it, unless the receipts are full, and touches nothing else |
| CoordinatorInbox.LeavesSafely | extensions/_shared/coordinator-state.ts:1076-1137 | a message that leaves an inbox undelivered, and was not misread before, was removed unread or taken by a harmful prune; leaving changes nothing about its delivery |
| CoordinatorInbox.DeliveredStays | extensions/_shared/coordinator-state.ts:1116-1170 | no step takes a delivered message back, except a reader that cannot read its receipt |
| CoordinatorInbox.OrphanExpired | extensions/_shared/coordinator-state.ts:1217-1239 | a directory untouched for the retention time holds only expired messages |
| CoordinatorHost.OthersAreSteady | extensions/_shared/coordinator-state.ts:1026-1241 | whatever others do meanwhile: nothing in an inbox is lost, a held lock stays held with its inbox only shrinking, and what is delivered stays so |
| CoordinatorHost.Room.EnqueueMessage | extensions/_shared/coordinator-state.ts:1026-1053 | sent exactly when, under the lock, the presence could be read, its target was live, in the session meant, able to answer if asked, and had room, and the write did not fail; then it is in the inbox |
| CoordinatorHost.Room.PersistSessionReceipt | extensions/_shared/coordinator-state.ts:1116-1137 | refused exactly when the receipts are full and none has this id; otherwise the message itself is safe with its session |
| CoordinatorHost.Room.RemoveInboxItem | extensions/_shared/coordinator-state.ts:1112-1114 | removes only what was copied, and removing twice does no harm |
| CoordinatorHost.Room.TakeOver | extensions/_shared/coordinator-state.ts:1099-1104 | with others acting between any two steps, everything listed for the session is safe with it afterwards; it is refused only if the receipts were full |
| CoordinatorHost.Room.AdoptSessionInboxMessages | extensions/_shared/coordinator-state.ts:1076-1110 | on success, whatever the runtimes that were dead at the beginning held for this session is safe with it; it fails only if the receipts were full |
| CoordinatorHost.Room.ProcessInbox | extensions/session-coordinator/index.ts:891-898 | every message of this session that was in the inbox is safe with it or among those left there, and one is left only if the receipts were full |
| CoordinatorHost.Room.RemoveRuntimeState | extensions/_shared/coordinator-state.ts:481-503 | the inbox is removed only when everything that was in it is safe; it stays only if its lock was held, a message was for another session, or the receipts were full |
| CoordinatorHost.Room.PruneStale | extensions/_shared/coordinator-state.ts:1194-1209 | removes what is dead and long unannounced, or has an old presence that could not be read, and nothing else, unless the lock is held; with a presence that was read, everything in the inbox has expired |
| CoordinatorHost.Room.RemoveFound | extensions/_shared/coordinator-state.ts:481-503 | what a pruner found is removed exactly when its lock is free, and everything that was in the inbox is safe |
| CoordinatorHost.Room.PruneOrphanInbox | extensions/_shared/coordinator-state.ts:1217-1240 | the same for inboxes without a presence; one stays only if it was locked, announced or touched |
| CoordinatorHost.Room.PruneRoom | extensions/_shared/coordinator-state.ts:1186-1241 | pruning any number of them by one reading of the clock, with others acting meanwhile: what was in an inbox stays there or is safe, and whatever was left was in use or locked |
| CoordinatorInbox.PruningIsHarmless | extensions/_shared/coordinator-state.ts:1186-1241 | removing a whole inbox takes only messages that are delivered, expired or misread, unless a shutdown could not list it or the prune is harmful |
| JobStore.Store.FailOrphans | extensions/_shared/job-store.ts:247-256 | jobs of vanished owners fail at a higher revision, all others stay |
| JobStore.Store.PruneJobs | extensions/_shared/job-store.ts:247-271 | what is retained, and in which order |
| JobStore.Store.UpsertStoredJob | extensions/_shared/job-store.ts:293-325 | the snapshot is merged into the record of its id, or added |
| JobStore.Store.RequestCancellation | extensions/_shared/job-store.ts:340-357 | only an unfinished job that is not yet being cancelled changes |
| JobStore.Store.ClaimStoredJobAnswer | extensions/_shared/job-store.ts:359-386 | claimed exactly when the owner asks for the open question of a job that is not being cancelled |
| JobStore.Store.HeartbeatStoredJobs | extensions/_shared/job-store.ts:388-405 | the owner's unfinished jobs are renewed, and the answer names exactly those to be cancelled |
| JobFencing.MergedLineage | extensions/_shared/job-store.ts:293-317 | however old the snapshot, merging never lowers a revision, leaves a terminal state or loses a cancel request |
| JobUpdates.UpdateIsStored | extensions/_shared/job-store.ts:293-325 | in the store, for every snapshot: under the exact condition on the two revisions and statuses its status, revision and given fields are stored and the fields left out keep their values; otherwise the record stays as it was |
| JobUpdates.NewerUpdateIsStored | extensions/_shared/job-store.ts:293-325 | a newer snapshot of a job that runs or asks is always stored |
| JobUpdates.CancelingJobEnds | extensions/_shared/job-store.ts:293-325 | a newer snapshot of a finished job ends one that is being cancelled |
| JobUpdates.NewJobIsStored | extensions/_shared/job-store.ts:319-325 | a snapshot of a job that is not in the store is added as it is |
| JobUpdates.CreatedWithinCapacity | extensions/_shared/job-store.ts:327-338 | a job is created exactly when fewer than the allowed number are active |
| JobUpdates.CancelIsStored | extensions/_shared/job-store.ts:340-357 | a request to cancel an unfinished job is stored and closes its question |
| JobUpdates.CancelReachesTheOwner | extensions/_shared/job-store.ts:340-405 | in every run: from then on every heartbeat of the owner names the job until it has ended, and no answer can be claimed |
| JobUpdates.ClaimIsStored | extensions/_shared/job-store.ts:359-386 | a claimed answer lets the job run at the next revision, and is remembered |
| JobUpdates.OrphansFail | extensions/_shared/job-store.ts:195-256 | every change first fails exactly the jobs whose owner is gone, in the fields of the record |
| JobUpdates.HeartbeatKeepsTheJob | extensions/_shared/job-store.ts:195-405 | within the lease of its last heartbeat a live owner's job is untouched by every other change |
| JobUpdates.ByStartInOrder | extensions/_shared/job-store.ts:258-271 | the stored jobs are in the order of their starts, a missing one first |
| JobUpdates.ByStartIsStable | extensions/_shared/job-store.ts:258-271 | jobs that started together keep their order |
| JobUpdates.FinishedExactly | extensions/_shared/job-store.ts:258-264 | a finished job is forgotten by age exactly when it is too old |
| JobUpdates.PruningKeepsTheLatest | extensions/_shared/job-store.ts:247-271 | all unfinished jobs stay and, of the finished ones, as many as there is room for: the latest |
| JobFencing.PrunedKeeps | extensions/_shared/job-store.ts:247-271 | pruning drops terminal records only |
| JobFencing.RecordsOnlyMoveForward | extensions/_shared/job-store.ts:247-386 | under any interleaving of all operations, while a record is retained its revision never falls, terminal stays terminal and a cancel request is never lost |
| JobFencing.LiveJobsAreRetained | extensions/_shared/job-store.ts:195-271 | an unfinished job whose owner is alive is never dropped or failed by pruning |
| JobFencing.NeverEarly | extensions/_shared/job-store.ts:293-317 | a question always posted at one revision is never open below it |
| JobFencing.SpentStays | extensions/_shared/job-store.ts:293-386 | a question that was closed stays closed against stale snapshots |
| JobFencing.ClaimedAtMostOnce | extensions/_shared/job-store.ts:359-386 | such a question is claimed at most once while its record is retained |
| JobWake.JobWaker.SessionStart | extensions/_shared/job-wake.ts:134-140 | a hub is made for an interactive session that has none |
| JobWake.JobWaker.Notify | extensions/_shared/job-wake.ts:182-187 | the latest outcome of a job replaces the earlier one, and something will move it |
| JobWake.JobWaker.Schedule | extensions/_shared/job-wake.ts:116-121 | a timer is armed exactly when something waits and nothing holds it |
| JobWake.JobWaker.Take | extensions/_shared/job-wake.ts:89-93 | the hub is emptied and what the model has seen is left out |
| JobWake.JobWaker.FlushIdle | extensions/_shared/job-wake.ts:107-115 | what a firing timer does to the hub and what it sends |
| JobWake.JobWaker.AgentEnd | extensions/_shared/job-wake.ts:142-153 | what the end of a run does, by the reason it ended |
| JobWake.JobWaker.AgentSettled | extensions/_shared/job-wake.ts:154-165 | what happens once Pi stops retrying |
| JobWake.JobWaker.BeginHandoff | extensions/_shared/job-wake.ts:167-172 | a handoff of this session holds the batch and disarms the timer |
| JobWake.JobWaker.RollBackHandoff | extensions/_shared/job-wake.ts:173-178 | only the same attempt lets go |
| JobWake.JobWaker.Stop | extensions/_shared/job-wake.ts:122-132 | teardown removes the hub for all its members |
| JobWakeProof.StepConserves | extensions/_shared/job-wake.ts:81-190 | every outcome is in exactly one place: waiting, sent, or gone because it was observed, superseded or stopped |
| JobWakeProof.StepMoves | extensions/_shared/job-wake.ts:81-190 | after every step whatever waits has an armed timer, a handoff or an error holding it, and the timer belongs to a waker that can act |
| JobWakeProof.NoWakeIsLost | extensions/_shared/job-wake.ts:81-190 | both over every run; so each outcome is sent at most once and none is lost |
| JobWakeProof.FiringDelivers | extensions/_shared/job-wake.ts:107-115 | an unheld timer that fires in an idle session delivers everything in one message that starts a turn, except what was observed |
| JobWakeProof.NeverAgain | extensions/_shared/job-wake.ts:88-187 | what was sent or is gone is never sent again |
| JobWakeProof.InterruptedNeverStartsATurn | extensions/_shared/job-wake.ts:142-153 | what waited when the user interrupted a run never starts a turn, whatever follows |
| JobWakeProof.FailedNeverStartsATurn | extensions/_shared/job-wake.ts:154-162 | nor does what waited when a run failed for good |
| JobWakeDelivery.FinishedStartsATurn | extensions/_shared/job-wake.ts:142-153 | when a run finishes, exactly what waits and is not known yet is told in one message that starts a turn, unless a handoff holds it |
| JobWakeDelivery.InterruptedIsToldQuietly | extensions/_shared/job-wake.ts:142-153 | when it is interrupted, it is told without a turn, handoff or not |
| JobWakeDelivery.FailedIsHeldThenToldQuietly | extensions/_shared/job-wake.ts:142-162 | when it fails, it is held; it is told quietly once the agent settles, and with a turn when a retry finishes |
| JobWakeDelivery.HandoffHoldsIt | extensions/_shared/job-wake.ts:142-187 | a handoff holds what waits, and its rollback arms a timer for it |
| JobWakeDelivery.TimerTells | extensions/_shared/job-wake.ts:107-115 | a firing timer tells it in an idle session and is armed again in a busy one |
| JobWakeDelivery.ObservationsAreKept | extensions/_shared/job-wake.ts:40-60 | one observation is kept for each job, the latest, and beyond the bound only the oldest is dropped |
| ExactEdits.ReplaceExactly | extensions/safe-edit/state.ts:41-56 | every refusal in the code's order, and otherwise the simultaneous replacement |
| ExactEdits.SpliceAll | extensions/safe-edit/state.ts:51-52 | splicing from the last span to the first gives the gaps of the original interleaved with the new texts |
| ExactEdits.PlacedExactly | extensions/safe-edit/state.ts:45-48 | an edit is placed at a point exactly when its text is not empty, occurs there and nowhere else, overlaps counted, and its replacement has no NUL |
| ExactEdits.OccurrenceMeaning | extensions/safe-edit/state.ts:45-48 | a text occurs at a place exactly when it stands between something of that length and the rest |
| ExactEdits.OneEdit | extensions/safe-edit/state.ts:41-58 | one edit of a text that holds its old text once puts the new text in its place, and nothing else |
| ExactEdits.OneOrder | extensions/safe-edit/state.ts:49-50 | spans that do not overlap can be sorted in one way only |
| ExactEdits.OrderIsIrrelevant | extensions/safe-edit/state.ts:41-56 | the edit list may come in any order: same acceptance, same result |
| ExactEdits.GapsAreKept | extensions/safe-edit/state.ts:51-52 | every character outside all spans is in the result, shifted by what the spans before it added |
| Bundles.ExtensionState.EvictUntilFits | extensions/integration-bundles/index.ts:216-220 | evicts exactly the shortest prefix of the order that makes the tools fit, or all of it |
| Bundles.ExtensionState.EnforceModelCap | extensions/integration-bundles/index.ts:200-222 | the same over all loaded bundles that are not always loaded |
| Bundles.ExtensionState.ApplyActiveSet | extensions/integration-bundles/index.ts:258-269 | the active set is what Pi makes of the desired tools after that, and the budget error says truly whether they fit |
| Bundles.ExtensionState.PreflightLoad | extensions/integration-bundles/index.ts:286-299 | evicts the shortest prefix that makes room for the bundle, or puts every bundle back when none does |
| Bundles.ExtensionState.ActivateLoad | extensions/integration-bundles/index.ts:300-307 | dates the load without changing what is wanted, evicts nothing more, and fails exactly when Pi leaves one of the bundle's tools inactive |
| Bundles.ExtensionState.RequestLoad | extensions/integration-bundles/index.ts:280-308 | all or nothing except exactly when the preflight fits and Pi leaves a tool of the bundle inactive; on success the bundle is fully active and, if Pi activates nothing else, the active tools stay within the cap; always-loaded bundles are never touched |
| Bundles.UnactivatedLoadStays | extensions/integration-bundles/index.ts:300-306 | one bundle that Pi does not activate: the load fails, and the bundle is loaded all the same |
| Bundles.EvictedExactly | extensions/integration-bundles/index.ts:216-220 | eviction unloads the bundles of the prefix and changes nothing else |
| Bundles.WantedExactly | extensions/integration-bundles/index.ts:155-179 | which tools are wanted, for every tool |
| Bundles.RefusedExactly | extensions/integration-bundles/index.ts:270-276 | a bundle is refused exactly when it has no tools, one of its patterns names none, or one of its tools is excluded |
| Bundles.EvictableOrdered | extensions/integration-bundles/index.ts:211-213 | the order of eviction is the order of loading |
| Bundles.LoadedWithinCap | extensions/integration-bundles/index.ts:280-302 | an accepted load wants all the tools of the bundle, stays within the cap and touches no always-loaded bundle |
| Bundles.OnlyTheOldestGo | extensions/integration-bundles/index.ts:291-295 | nothing that stays was loaded before what goes |
| Bundles.NothingMoreToEvict | extensions/integration-bundles/index.ts:200-222 | when the tools fit already, enforcing the cap evicts nothing, so the preflight's eviction is the only one |
| Bundles.EvictionShrinks | extensions/integration-bundles/index.ts:155-179 | unloading bundles never increases the set or the number of wanted tools |
| Bundles.NoChoiceOfEvictionsHelps | extensions/integration-bundles/index.ts:286-299 | a load is refused for the budget only when no choice of evictable bundles, in whatever order, would make room |

## Left out

- Real file systems, clocks, PID probing, signals and randomness: a system call is an atomic step that may fail, "process alive" and the time are chosen by the environment, and new names are names that were never used.
- `staleMs`, `timeoutMs` and `retryMs` of the lock: the age test is a free choice and the number of retries is a parameter.
- The contents of the legacy `owner.json`: only its name is there; the code requires writers of it to be gone.
- `AbortSignal` handling everywhere, and `atomicWriteJson`/`atomicWriteText` below one atomic write.
- HandoffLog.ReduceSelfHandoffRequest: does not model the field checks of the record parser; data the parser refuses is one kind of entry.
- OwnershipProof.StepInv: one process at a time has the child session open, session replacement is one step with rollback only before it, and no malformed record enters the parent's log; goal entries that a process saves are unconstrained.
- ChildGate.ChildGates: the child's log is modelled as far as it is about its own handoff, without forks; the two inspections themselves are modelled for any log and any branch, in a session that has a file.
- Kickoff texts and their hashes, `inspectOrientationOutcome`, `validateTransferredChildState`, the work plan, editor restoration and all notifications.
- CanonicalEquality.TextDecidesEquality: does not model how a double is printed; finite doubles print by an injective rendering, integral ones among them as digits, and `JSON.parse` is not modelled.
- StructuredOutput.ValidateValue: objects are lists of members with distinct keys, so keys found on a JavaScript prototype are not modelled; problems carry path and keyword, not the message.
- Lone surrogates in memory texts, case folding beyond a parameter `lower`, and the secret patterns, which are a parameter.
- The `replace` action of the memory tool, file selection and the prompt text of the memory extension.
- Scheduler.SchedulerState.ComputeEligible: does not model `localeCompare`; ids are numbers, and `Array.sort` and `filter` are functions that are proved to sort and to keep.
- The heartbeat timer, queue timeout and delays of the scheduler: a run is any sequence of polls, releases, heartbeats and withdrawals at any times.
- LspFraming.LspClient.TakeMessage: does not model UTF-8 decoding and the JSON-RPC checks, which are a parameter `accepts`, nor the matching of responses with requests.
- Back-pressure on the sending side of the language client, process start and exit.
- CoordinatorInbox.StepInv: messages without a target session and the delivery ranks of outgoing statuses are not there; the clock never goes back and a lease of one runtime never ends before an earlier one; announcing is one step; ids of envelopes are unique, as random UUIDs make them, because the code would leave the second of two messages with one id undelivered; reading a whole directory is one step, and adopters take no lock, which only allows more runs.
- CoordinatorLedger.Ledger.MarkRequestReplyQueued: does not model a process that dies between the two files it writes.
- CoordinatorLedger.Ledger.ClaimRequestReply: does not model reading an unreadable ledger, which throws before anything changes.
- Error texts and labels of jobs, the read-only snapshots (`effectiveSnapshot`), and the choice of fresh job ids, which are required to be fresh.
- JobWakeProof.NoWakeIsLost: one session's hub with any number of extensions, each of which starts once; a message that Pi refuses counts as sent, as the code ignores it; the bound of the observed list is there, the wording of messages is not.
- File checks, previews and their age in safe-edit; byte sizes and Unicode validity of edits are parameters.
- Bundles.ExtensionState.RequestLoad: `refreshPolicy`, globs, triggers and skill mentions are inputs, and what Pi activates is a parameter.
- `mcp-client`, `deep-research`, `managed-process`, the catalog and launcher code, Apple tooling, workflows and OCR: network, foreign processes and table look-ups.
