# noo-noo, modelled and proved

noo-noo is a disk-hygiene tool for macOS with a daemon, `noo-nood`. This project models the parts of
it where a mistake loses data or reports a wrong number, and proves what they promise for every
input, every failure of the system and every interleaving.

Each component comes as a specification function on values (a table, a disk, a run) and, where the
source changes things step by step, as a method or a class that is proved equal to that function.
The properties are lemmas about the functions. Whatever the outside decides (a failing system call,
a probe, a crash, another process, the order in which a map is walked) is an argument, so a lemma
quantified over it holds whatever the outside does.

| files | what they model |
|---|---|
| `FileSystem`, `Relocation`, `RelocationSafety` | moving a directory to another volume: copy, verify, swap, link, drop the backup |
| `RelocQueue`, `EnqueueRace`, `PendingRuns`, `PendingSafety`, `QueuedPaths` | the durable queue of deferred moves, enqueueing by several processes, and the run that replays the queue |
| `Extents`, `ExtentWalk`, `TreeSizing` | how many bytes trees really occupy: the union of physical extents |
| `InstanceLock` | one daemon per socket: a protocol over any number of processes |
| `TriggerLanes`, `PressureWatch` | two trigger lanes with a priority consumer; the sliding-window trigger |
| `AutoCleanGates`, `Suggestions`, `AuditLedger`, `AutoClean`, `AutoCleanSafety`, `Tick` | the unattended clean: gates, budget, dedup table, audit table, the tick |
| `RealProducts`, `LinearTrend`, `DayBuckets`, `Batches` | growth rate, day buckets and scan batches |
| `FamilyNames`, `Families` | sibling families of temporary directories and the handles they are printed as |
| `Options`, `Sets`, `Sorting`, `Triggers` | shared definitions |

## Where a promise fails

The code is kept as it is. For each promise that is false of it there is a theorem that says exactly
when the code meets it, and an input that shows it fails.

- **A destination that existed is overwritten.** `prepareDest` and gate 5 say "refusing to
  overwrite", and the failures after them say "source untouched", but both read any failing `lstat` as "nothing there". A pre-existing
  destination is safe from every failure exactly when `lstat` reports it
  (`RelocationSafety.DestinationSparedIff`); after a completed move the destination is the only
  copy, so a retry can lose it (`RelocationSafety.RetryOfAMoveIff`).
- **A backup with nothing in it can be replaced.** A failing `lstat` of a leftover backup lets the swap
  go ahead. That is harmless exactly for an original with a file in it, which no rename replaces; an
  empty directory or a link is replaced (`RelocationSafety.BackupSparedIff`).
- **Two daemons can be bound to one socket.** A release unlinks the lock file before it closes it, so
  a contender that opened the file earlier can lock a file nobody else will open. Taking a free lock
  is safe, in every continuation, exactly when the locked file is still the one at the lock path,
  which the code does not check (`InstanceLock.LockIsSafeIff`); `InstanceLock.TheWindowBreaksIt` is a
  run from a clean start that ends with two.
- **The budget can be passed.** `Take` adds in 64 bits. The cap is kept exactly when the first sum
  past it still fits (`AutoCleanGates.BudgetKeepsCapIff`, `AutoCleanSafety.TickKeepsCapIff`), and it
  is the configured cap exactly when that many bytes fit (`AutoCleanGates.CapIsConfiguredIff`).
- **A zero cap does not refuse everything**, as the comment on `NewBudget` says: sizes of zero are
  accepted, and retried rows declare zero (`AutoCleanGates.NoCapRefusesIff`,
  `AutoCleanSafety.NoCapTickIff`).
- **A handle that is refused.** The family of a name like `-123456` has the handle `-*`, which the
  parser refuses, so the family is reported but never found again
  (`FamilyNames.HandleRoundTrip`, `Families.FoundAgainIff`).
- **Grouping of trees matters when a file cannot be opened.** A call skips every name of an inode after
  the first, so a first name that fails hides a later one that opens
  (`TreeSizing.OpenErrorsBreakGrouping`). On a given disk the figures agree exactly when every byte
  of an inode missed that way also belongs to one that is not (`TreeSizing.GroupingMattersIff`); on
  every disk, exactly when each inode opens alike (`TreeSizing.GroupingAgreesIff`); and no grouping
  or order ever matters exactly when the trees agree on which inodes open
  (`TreeSizing.GroupingNeverMattersIff`).
- **The last sample of a day is not fixed by the samples** when two of the same instant differ in
  size (`DayBuckets.DeterminedIffTiesAgree`).
- **Look-up and insert are two statements**, so two processes can queue one target twice
  (`EnqueueRace.TwoProcessesDuplicate`). In every interleaving there is one pending row per target
  exactly when no insert finds a row that was inserted for its target since its look-up and is still
  pending (`EnqueueRace.OnePendingIffUnraced`).

Comments that say something other than the code, where the model follows the code: `Apply` in
`internal/autoclean/apply.go` is commented as daily only and allows manual triggers too;
`PendingSkippedBudget` is commented as "gates were not even consulted" but gates run before the
budget, so an entry past the budget can still be marked blocked; `Start` is commented as touching
nothing on disk when refused, but a server refused because something answers on the socket has
created and unlinks the lock file (never the socket, `InstanceLock.RefusedNeverUnlinks`).

## Model

| member | source | states |
|---|---|---|
| `FileSystem.Disk.Copy` | internal/modules/offload/offload.go:440-444 | a copy passes through one half-done state and ends in any state at the destination, and nowhere else; both are on the trail a crash can cut |
| `FileSystem.Disk.RemoveAll` | internal/modules/offload/offload.go:385-389 | a recursive delete may stop with any subset of the files left; a missing path is a success |
| `FileSystem.Disk.Rename` | internal/modules/offload/offload.go:366-369 | a rename that works moves the whole entry and one that fails changes nothing |
| `Relocation.Apply` | internal/modules/offload/offload.go:312-392 | result, final disk and every state on the way of one attempt are the specified run, for every answer of the system |
| `Relocation.CopyAndVerify` | internal/modules/offload/offload.go:440-461 | the copy is accepted only with the file count and bytes of the source, measured after the copy |
| `Relocation.SwapAndLink` | internal/modules/offload/offload.go:361-382 | a leftover backup or a failed swap stops the move before anything but the destination has changed |
| `Relocation.PutBack` | internal/modules/offload/offload.go:371-378 | restore drops a half-made link, renames the backup back, and removes the copy only once the original is back |
| `RelocationSafety.NoLoss` | internal/modules/offload/offload.go:346-392 | at every state of an attempt the whole original is at the target or its backup, and once removal of the backup has begun the target is a link that leads to a copy with the same count and bytes |
| `RelocationSafety.Outcomes` | internal/modules/offload/offload.go:312-392 | every attempt ends in one of the listed ways: moved with the backup gone, stale backup behind a good link, original restored, original at the backup after a failed restore, untouched, or touched at the destination only |
| `RelocationSafety.OnlyThreePaths` | internal/modules/offload/offload.go:346-392 | no state of an attempt differs from the start outside target, backup and destination |
| `RelocationSafety.WritesIff` | internal/modules/offload/offload.go:319-350 | an attempt writes anything if and only if it is a relocate of a movable playbook asset that nothing uses, as its gate asks, the guard agrees, the destination is the root or below it with nothing seen there, and its parent can be made; otherwise it fails for the first condition that does not hold |
| `RelocationSafety.EndsAs` | internal/modules/offload/offload.go:346-392 | how an attempt that may start ends: the failure for the first thing that goes wrong, and the move if nothing does |
| `RelocationSafety.MovedIff` | internal/modules/offload/offload.go:312-392 | a tree with a file in it is moved if and only if these conditions hold, every call works, the copy arrives with as many files and bytes, and the backup path is free |
| `RelocationSafety.SizeIs` | internal/modules/offload/offload.go:445-458 | what is compared is the number of files and the length of their contents end to end |
| `RelocationSafety.NoCopyLeftBehind` | internal/modules/offload/offload.go:363-376 | a failed attempt whose clean-up works leaves no copy at the destination |
| `RelocationSafety.DestinationSparedIff` | internal/modules/offload/offload.go:425-436 | a destination that existed is never altered, if and only if its lstat does not fail (or the action is refused before) |
| `RelocationSafety.RerunKeepsHeld` | internal/modules/offload/offload.go:312-392 | one more attempt, from any state that holds the original, holds it at every state, whatever fails but lstat of the destination (and, for an original with nothing in it, lstat of the backup) |
| `RelocationSafety.RetriesNeverLose` | internal/modules/offload/offload.go:312-392 | any number of attempts, each cut by a crash anywhere and with any other failures, leaves the original held |
| `RelocationSafety.BackupSparedIff` | internal/modules/offload/offload.go:361-366 | with lstat of the destination working, every attempt from every state holds the original if and only if the original has something in it |
| `RelocationSafety.RetryOfAMoveIff` | internal/modules/offload/offload.go:425-436 | after a completed move a retry holds the only copy through every failure if and only if lstat of the destination does not fail |
| `RelocQueue.RelocationQueue.Enqueue` | internal/store/reloc_queue.go:74-96 | returns the lowest pending row of the target, or appends a queued row |
| `RelocQueue.RelocationQueue.MarkAttempt` | internal/store/reloc_queue.go:133-149 | stamps and counts an attempt on a pending row and refuses any other |
| `RelocQueue.RelocationQueue.Resolve` | internal/store/reloc_queue.go:156-189 | writes an outcome on a pending row, refuses `queued` and refuses any other row |
| `RelocQueue.RelocationQueue.ListPending` | internal/store/reloc_queue.go:102-127 | every pending row exactly once, oldest first, lower id first among equals |
| `RelocQueue.FirstPendingSound` | internal/store/reloc_queue.go:76-79 | the look-up finds the first pending row of a target if and only if there is one |
| `RelocQueue.InsertKeepsOnePendingIff` | internal/store/reloc_queue.go:74-96 | a bare insert keeps one pending row per target if and only if the look-up finds none |
| `RelocQueue.RunsKeep` | internal/store/reloc_queue.go:74-189 | from any sequence of calls: one pending row per target, terminal rows frozen, none back to `queued`, requests fixed, attempts never lowered |
| `RelocQueue.CallWrites` | internal/store/reloc_queue.go:133-189 | every column of a row after any call: a mark stamps and counts, a resolution writes status, reason, time and bytes, both on pending rows only, and nothing else touches a row |
| `RelocQueue.CallAdds` | internal/store/reloc_queue.go:74-96 | only an enqueue for a target without a pending row adds one: queued, never attempted, nothing freed |
| `RelocQueue.OldestFirst` | internal/store/reloc_queue.go:98-110 | pending rows are listed by queueing time, then id |
| `RelocQueue.AttemptsCountMarks` | internal/store/reloc_queue.go:133-149 | the attempts of a row grow by exactly the marks made while it was pending |
| `EnqueueRace.OnePendingIffUnraced` | internal/store/reloc_queue.go:74-96 | with look-up and insert as separate steps of any number of processes, every table of an interleaving has one pending row per target if and only if no insert is raced |
| `EnqueueRace.TwoProcessesDuplicate` | internal/store/reloc_queue.go:74-96 | two processes that both look before either inserts leave two pending rows |
| `RelocQueue.EnqueueIsIdempotent` | internal/store/reloc_queue.go:68-96 | re-enqueueing a pending target returns the one pending row and changes nothing; any other target gets a fresh row |
| `PendingRuns.RecheckGates` | internal/modules/offload/pending.go:222-280 | the first of the gates 0 to 5 that blocks an entry, against the disk as it is now |
| `PendingRuns.RecheckOne` | internal/modules/offload/pending.go:160-217 | result, queue, disk, every state and every write, in their order, of one re-check, with cancels by other processes and failing stores between its steps |
| `PendingRuns.RunPending` | internal/modules/offload/pending.go:132-155 | any trigger but daily or manual changes nothing; otherwise the run stands where its re-checks, one after the other up to a stop, lead |
| `PendingRuns.EnqueueDeferred` | internal/modules/offload/pending.go:76-95 | queues exactly what an apply would not refuse structurally, pinned to the destination configured now |
| `PendingSafety.RunVerdict` | internal/modules/offload/pending.go:132-217 | for every entry a run reached, at the end of the whole run: applied only with the target linked to a checked copy and the backup gone, blocked after an attempt only with the data where that failure leaves it, skipped for budget only with row and data unchanged |
| `PendingSafety.RunRowTells` | internal/modules/offload/pending.go:173-217 | at the end of a run the row of every entry it reached tells how it ended, column by column: applied with the freed bytes of its result and its time, blocked with a reason and no time, unrecorded as it was or cancelled |
| `PendingSafety.RunFrees` | internal/modules/offload/pending.go:193-203 | the freed bytes of applied rows grow by exactly what the run reports as freed and recorded |
| `PendingSafety.GateReason` | internal/modules/offload/pending.go:228-279 | the reason recorded is that of the first gate that does not hold |
| `PendingSafety.ChargedIff` | internal/modules/offload/pending.go:160-179 | the budget is charged if and only if the gates pass and it is not spent, whether or not the mark goes through |
| `PendingSafety.AttemptIsAllowed` | internal/modules/offload/pending.go:157-185 | every move a run attempts had, when the run started, a pending row, the destination the user consented to, a movable real directory nothing uses and nothing seen at the destination, and fewer attempts than the budget before it |
| `PendingSafety.MarkBeforeMove` | internal/modules/offload/pending.go:166-204 | at every point at which a crash may cut a run, for every listed entry: once any of its paths has changed its row, pending at the start, carries one more attempt, and its row is newly applied only where the target is a link to a checked copy and the backup is gone |
| `PendingSafety.AttemptWrites` | internal/modules/offload/pending.go:173-203 | an attempt writes the mark before any state of the disk and its outcome after all of them, to its own row only |
| `PendingSafety.Attempts` | internal/modules/offload/pending.go:160-186 | a re-check attempts the move if and only if the gates pass, the budget is not spent and the mark goes through on a row still pending |
| `QueuedPaths.QueueStaysUnder` | internal/modules/offload/pending.go:76-95 | rows queued under one configuration stay so, one pending row per target, through any calls |
| `QueuedPaths.ListedIsSeparate` | internal/modules/offload/pending.go:141-154 | for such a queue, a playbook with distinct asset names and queued directories that do not lie inside one another, the entries of a run are separate: no destination is shared |
| `QueuedPaths.QueueRunVerdict` | internal/modules/offload/pending.go:132-217 | the verdict on row and data at the end of a run, and the agreement of queue and disk at every crash point, for every entry of such a queue |
| `PendingSafety.OtherRowsKept` | internal/modules/offload/pending.go:141-154 | rows a run does not list keep everything |
| `PendingSafety.BudgetHolds` | internal/modules/offload/pending.go:166-175 | with a budget of at least zero, relocation is attempted at most that often |
| `PendingSafety.RunHolds` | internal/modules/offload/pending.go:132-204 | wherever a crash cuts a run, the original of every listed entry is held |
| `PendingSafety.LeavesAlone` | internal/modules/offload/pending.go:147-153 | re-checks of other entries leave an entry's row and paths alone at every state |
| `Extents.ExtentSet.Add` | internal/sizer/extent_darwin.go:87-92 | appends the interval to its device, and ignores an empty or negative length |
| `Extents.Sweep` | internal/sizer/extent_darwin.go:100-118 | the sweep over sorted extents returns the number of addresses covered by at least one |
| `Extents.ExtentSet.Total` | internal/sizer/extent_darwin.go:94-121 | the sum over devices of covered addresses, devices in any order; sorting in place changes no address, so a second call agrees |
| `Extents.AddsUnion` | internal/sizer/extent_darwin.go:87-92 | after any list of adds the addresses are those before and those of the pieces |
| `Extents.TotalIgnoresOrder` | internal/sizer/extent_darwin.go:94-121 | the total does not depend on the order of the adds |
| `Extents.TotalGrows` | internal/sizer/extent_darwin.go:94-121 | an add never lowers the total and raises it by at most its length |
| `ExtentWalk.AddFileExtents` | internal/sizer/extent_darwin.go:139-182 | the loop ends, and gives every set the pieces of the specified walk and its error count |
| `ExtentWalk.WalkIsOrdered` | internal/sizer/extent_darwin.go:145-180 | what is added is in file order, disjoint in the file, inside the file and its last block, and never a hole |
| `ExtentWalk.AddsLessThanSizePlusBlock` | internal/sizer/extent_darwin.go:146-151 | a walk adds fewer bytes than the size plus one block, if the system maps no more than it is asked |
| `ExtentWalk.AsksForWholeBlocks` | internal/sizer/extent_darwin.go:123-151 | each query asks for what is left in whole blocks, of 4096 bytes when the file system does not say |
| `ExtentWalk.HelpfulWalkIsClean` | internal/sizer/extent_darwin.go:164-181 | where the file system always finds the next data or says there is none, a walk reports no error |
| `ExtentWalk.CleanWalkCovers` | internal/sizer/extent_darwin.go:139-182 | a walk without errors has added every mapped byte, at its own place |
| `ExtentWalk.WalkAddsOnlyMapped` | internal/sizer/extent_darwin.go:153-163 | no byte is added that is not mapped where it is said to be |
| `ExtentWalk.CleanFileIsCounted` | internal/sizer/extent_darwin.go:139-182 | the address set of a cleanly walked file holds the place of every mapped byte |
| `TreeSizing.WalkExtents` | internal/sizer/extent_darwin.go:264-305 | counters, hard-link memory and every given set after one tree, errors and early stop included |
| `TreeSizing.UniqueAllocated` | internal/sizer/extent_darwin.go:199-210 | the figure is the number of distinct device addresses of what the walk added; an error on a root gives nothing |
| `TreeSizing.Union.Add` | internal/sizer/extent_darwin.go:226-237 | one tree's own figure, and its pieces in the union |
| `TreeSizing.Union.AddAll` | internal/sizer/extent_darwin.go:239-255 | the figure of several trees as one item, and their pieces in the union; after an error the union keeps what was walked |
| `TreeSizing.CallCountsInodes` | internal/sizer/extent_darwin.go:288-293 | whatever fails, the number of files reported is the number of different inodes met |
| `TreeSizing.CallCounts` | internal/sizer/extent_darwin.go:264-303 | files, logical bytes, blocks of 512 bytes and errors of a call are a recount of its visits, each inode at its first |
| `TreeSizing.CallMeasures` | internal/sizer/extent_darwin.go:264-305 | one call measures the bytes of the inodes whose first name opens, each byte once |
| `TreeSizing.CleanCall` | internal/sizer/extent_darwin.go:264-305 | a call in which every name opens measures the bytes of every inode under the roots |
| `TreeSizing.GroupingMattersIff` | internal/sizer/extent_darwin.go:199-259 | on a given disk the union of any groups has the figure of one call if and only if every byte of an inode whose first name fails and opens first in a later group belongs to another counted inode |
| `TreeSizing.GroupingAgreesIff` | internal/sizer/extent_darwin.go:199-259 | groups and a call have the same figure on every disk if and only if for each inode its first name in the call opens exactly when its first name in some group does |
| `TreeSizing.GroupingNeverMattersIff` | internal/sizer/extent_darwin.go:199-259 | every grouping in every order has the figure of one call, on every disk, if and only if the trees agree on which inodes open |
| `TreeSizing.GroupingDoesNotMatter` | internal/sizer/extent_darwin.go:212-259 | in particular for cleanly walked trees any grouping, in any order and with repeats, gives the union that one call over them gives, hard links across groups included |
| `TreeSizing.UnionBetween` | internal/sizer/extent_darwin.go:212-218 | the union is at least each item's figure and at most their sum |
| `TreeSizing.OpenErrorsBreakGrouping` | internal/sizer/extent_darwin.go:289-300 | with a hard link that cannot be opened one call and separate calls differ |
| `InstanceLock.LockIsSafeIff` | internal/ipc/server.go:176-231 | after any run whose locks were fresh, taking a free lock leaves at most one process bound in every continuation with fresh locks if and only if the locked file is still at the lock path |
| `InstanceLock.OneInstance` | internal/ipc/server.go:115-144 | in every interleaving of starts, stops and crashes in which that holds, at most one process is bound and nobody removes the socket of another that listens |
| `InstanceLock.RefusedNeverUnlinks` | internal/ipc/server.go:249-267 | in every interleaving, that proviso or not, a refused server has never removed the socket |
| `InstanceLock.RefusedIff` | internal/ipc/server.go:128-144 | a process is refused if and only if the lock is held or somebody answers on the socket, and listens if and only if the socket path is free |
| `InstanceLock.StopLeavesNothing` | internal/ipc/server.go:249-267 | a server that stops leaves no socket, no lock file and no lock |
| `InstanceLock.TheWindowBreaksIt` | internal/ipc/server.go:224-231 | a run with one lock on an unlinked file ends with two bound processes |
| `TriggerLanes.TicksNeverOverlap` | cmd/noo-nood/tick.go:84-89 | in every run ticks, queued and synchronous, are closed pairs one after the other |
| `TriggerLanes.AtMostOnePressureFirst` | cmd/noo-nood/main.go:250-269 | from queueing a daily to taking it at most one pressure trigger is taken |
| `TriggerLanes.DailiesAreAccountedFor` | cmd/noo-nood/main.go:281-302 | every daily fired is taken, queued or dropped, and it is dropped only while an earlier one is queued |
| `TriggerLanes.PressureIsAccountedFor` | cmd/noo-nood/main.go:210-214 | every pressure trigger posted while fewer than four are queued is queued or taken |
| `TriggerLanes.RunsWhatItTook` | cmd/noo-nood/main.go:245-268 | what comes from the daily lane is run as a daily tick, what comes from the pressure lane as a pressure tick, and nothing else is run |
| `TriggerLanes.HistoryIsTrue` | cmd/noo-nood/main.go:261-263 | the consumer leaves only once shutdown was asked for |
| `TriggerLanes.DailyIsNear` | cmd/noo-nood/main.go:250-269 | each move of the consumer takes a queued daily, leaves, or comes closer, and nobody else pushes it back |
| `TriggerLanes.FourMovesSuffice` | cmd/noo-nood/main.go:250-269 | a queued daily is taken within four moves of the consumer, unless it leaves |
| `PressureWatch.SampleAll` | internal/pressure/watch.go:33-51 | the merged reading is the highest memory ratio and the least measured free space, and any failing sampler fails it |
| `PressureWatch.Watch` | internal/pressure/watch.go:64-111 | the buffer is the verdicts of the last min(n, length) successful samples, and the triggers are the specified ones |
| `PressureWatch.FiresAreSpaced` | internal/pressure/watch.go:94-108 | every trigger comes at a full window at least four fifths high, and consecutive triggers are more than sixty minutes apart |
| `PressureWatch.AnHourApart` | internal/pressure/watch.go:16-21 | consecutive triggers are more than 3600 seconds apart |
| `PressureWatch.SustainedIs` | internal/pressure/watch.go:90-105 | a window is sustained if and only if enough samples were taken and of the last so many at least four in five measured no more free space than the threshold |
| `PressureWatch.BufLenIs` | internal/pressure/watch.go:65-68 | the window is the debounce window counted in whole sample intervals, and at least three |
| `PressureWatch.SustainedFires` | internal/pressure/watch.go:94-108 | a sustained window fires if and only if the trigger before it is further back than the cooldown |
| `PressureWatch.HighIffSomeMeasuredIs` | internal/pressure/watch.go:43-90 | a merged reading is high if and only if some reading that measured its disk is |
| `AutoCleanGates.EvaluateSuggestion` | internal/autoclean/config.go:122-181 | the action and the first gate that blocks it, in the fixed gate order |
| `AutoCleanGates.FirstGate` | internal/autoclean/config.go:131-178 | the gate named is the first that does not hold |
| `AutoCleanGates.DeclaredSize` | internal/autoclean/config.go:60-108 | the size and the idle days a suggestion declares, from its own field or its evidence |
| `AutoCleanGates.PassesIff` | internal/autoclean/config.go:110-189 | a suggestion passes if and only if auto-clean is enabled and acknowledged, its module allowed, and it is idle and large enough or proves itself; the size threshold is the configured one, of either sign, if and only if it fits in 64 bits |
| `AutoCleanGates.CapIsConfiguredIff` | internal/autoclean/budget.go:21-26 | the cap is the configured number of gibibytes if and only if that fits in 64 bits |
| `AutoCleanGates.Budget.Take` | internal/autoclean/budget.go:32-41 | accepts a charge that is not negative and whose 64-bit sum is within the cap, and charges it; otherwise nothing changes |
| `AutoCleanGates.BudgetKeepsCapIff` | internal/autoclean/budget.go:32-41 | a series of charges is admitted as an unlimited counter would admit it if and only if the first sum past the cap fits in 64 bits; otherwise more is admitted than the cap |
| `AutoCleanGates.SmallSizesKeepCap` | internal/autoclean/budget.go:3-9 | with sizes below 64 bits less the cap, what is admitted sums to at most the cap |
| `AutoCleanGates.NoCapRefusesIff` | internal/autoclean/budget.go:17-26 | a cap of zero or less refuses everything if and only if the first size is not zero |
| `AutoClean.SafetyGuard` | internal/autoclean/apply.go:128-174 | passes exactly a module that is allowed and has a deleter, and, unless it proves itself, a target under a root that the core check allows |
| `AutoClean.Apply` | internal/autoclean/apply.go:219-283 | result, audit rows and deleter calls of one action: the row before the delete, closed after it; nothing on a pressure trigger |
| `AutoClean.RunAutoClean` | cmd/noo-nood/tick.go:455-509 | what a tick reports, writes, deletes and dismisses, up to the first charge the budget refuses |
| `AutoCleanSafety.HandedIsAdmitted` | cmd/noo-nood/tick.go:479-492 | the actions handed over are the gate-passing ones, in order, up to the first the budget refuses |
| `AutoCleanSafety.TickKeepsCapIff` | cmd/noo-nood/tick.go:477-491 | that is the list up to the first declared size that is negative or past the cap, with a sum within it, if and only if the first sum past the cap fits in 64 bits |
| `AutoCleanSafety.NoCapTickIff` | internal/autoclean/budget.go:17-26 | with no cap a tick hands over nothing if and only if nothing passes or the first declared size is not zero |
| `AutoCleanSafety.EveryDeleteIsAudited` | internal/autoclean/apply.go:242-259 | every deleter call of a tick happens after the guard agreed, while its own new row is in progress; a pressure trigger calls none |
| `AutoCleanSafety.EveryDeleteIsAllowed` | internal/autoclean/apply.go:128-174 | every deleter call is for a suggestion that was handed over on a daily or manual trigger, whose module is allowed and has a deleter, and that proves itself or lies within the roots with the core check agreeing at its own delete |
| `AutoCleanSafety.EveryAllowedIsDeleted` | internal/autoclean/apply.go:219-259 | every suggestion handed over that meets these conditions, with its row recorded, is deleted |
| `AutoCleanSafety.TurnIs` | cmd/noo-nood/tick.go:481-505 | one turn spelled out: whether the deleter is called and with which row open, every column of the row that stays, what is counted, and which suggestion is dismissed |
| `AutoCleanSafety.OnlyDeletedAreDismissed` | cmd/noo-nood/tick.go:492-504 | a suggestion a clean changes is one it deleted, and is dismissed |
| `AutoCleanSafety.LedgerAgreesWithReport` | cmd/noo-nood/tick.go:479-508 | when closing updates succeed, no row stays in progress and the reported pair is the change of the roll-up, failed deletes included |
| `AutoCleanSafety.StrandedIffUpdateLost` | internal/autoclean/apply.go:268-273 | a row stays in progress if and only if a closing update is lost, and the roll-up misses a delete if and only if that of a success is |
| `AuditLedger.Audit.Record` | internal/store/autoclean_events.go:44-56 | appends the row and returns its id, or fails and changes nothing |
| `AuditLedger.Audit.Update` | internal/store/autoclean_events.go:60-66 | writes end, outcome and freed bytes of one row and nothing else |
| `AuditLedger.Audit.StatsSince` | internal/store/autoclean_events.go:72-82 | count and freed bytes of exactly the successful rows since a time |
| `AuditLedger.DeletedSinceIs` | internal/store/autoclean_events.go:72-82 | the count is the number of rows deleted and started no earlier |
| `Suggestions.SuggestionTable.HasOpenSuggestion` | internal/store/suggestions.go:115-126 | says whether the module and target have an undismissed row |
| `Suggestions.SuggestionTable.ListOpen` | internal/store/suggestions.go:43-67 | every open row exactly once, newest first |
| `Suggestions.NewestFirst` | internal/store/suggestions.go:41-49 | open rows are listed from the newest |
| `Suggestions.PersistNew` | cmd/noo-nood/tick.go:383-409 | the in-place compaction leaves the persisted suggestions at the front, though it overwrites the list it reads |
| `Suggestions.PersistKeepsFirstOccurrences` | cmd/noo-nood/tick.go:379-409 | what is persisted is exactly the first occurrences, not yet open, of what the store did not fail on, in order, with fresh ids |
| `Suggestions.PersistGrows` | cmd/noo-nood/tick.go:396-403 | old rows stay, and each persisted suggestion has an open row of its own under its new id |
| `Suggestions.NeverOpenTwice` | internal/store/suggestions.go:22-126 | however persisting and dismissing follow one another, no module and target is open twice |
| `Tick.OpenLeakSuggestions` | cmd/noo-nood/tick.go:417-449 | the self-proving open rows that are not fresh and still there; rows of vanished targets are dismissed |
| `Tick.RetriedIff` | cmd/noo-nood/tick.go:428-446 | an open row is tried again, exactly once and with no size, if and only if it is of leaks or worktrees, not fresh, and its target is still there |
| `Tick.SweptIff` | cmd/noo-nood/tick.go:432-440 | the table changes in exactly the open self-proving rows that are not fresh, whose target is gone and whose dismissal is not refused: they are dismissed at that time |
| `Tick.CleanableHasNoRepeats` | cmd/noo-nood/tick.go:132-132 | the list given to the engine repeats no id and no module and target |
| `Tick.RunTick` | cmd/noo-nood/tick.go:84-141 | one tick end to end: what is persisted, retried, handed over and written; pressure ticks clean nothing; pending moves run only on an acknowledged daily, at most one is attempted, and queue, disk and their order are those of that run |
| `LinearTrend.LinearFit` | internal/trend/trend.go:80-107 | the loop computes the least-squares fit by its formula |
| `LinearTrend.SteadyFit` | internal/trend/trend.go:85-106 | bytes that grow by the same amount from each 24 hours to the next give that amount as the rate per day, over as many days as there are steps |
| `LinearTrend.FitWindow` | internal/trend/trend.go:102-106 | points that end k times 24 hours after they began have a window of k days |
| `LinearTrend.WindowIsNearest` | internal/trend/trend.go:102-106 | the window of any fit is the nearest number of days, or one when that is less |
| `LinearTrend.FitIffTwoDays` | internal/trend/trend.go:95-100 | the denominator is never negative, and positive if and only if two points are on different days |
| `LinearTrend.FitIsBest` | internal/trend/trend.go:76-107 | the slope, with its intercept, has the least squared error of all lines |
| `LinearTrend.FitBetweenRates` | internal/trend/trend.go:80-107 | over ascending days the slope lies between the least and the greatest rate from one day to the next |
| `LinearTrend.NeverFallingNeverNegative` | internal/trend/trend.go:80-107 | bytes that never fall give a rate that is not negative |
| `DayBuckets.DayBucket` | internal/trend/trend.go:40-59 | one strictly ascending point for exactly the days sampled, each with the bytes of a last sample of its day |
| `DayBuckets.OrderDoesNotMatter` | internal/trend/trend.go:36-39 | samples in any order, with any repeats, give the same points when ties agree |
| `DayBuckets.DistinctTimesAgree` | internal/trend/trend.go:48-52 | samples at distinct instants have no ties that differ |
| `DayBuckets.DeterminedIffTiesAgree` | internal/trend/trend.go:46-52 | the samples fix the points if and only if no day ends on two samples of one instant with different sizes |
| `DayBuckets.TrendIffTwoDays` | internal/trend/trend.go:40-100 | a bucketed history has a trend if and only if it was sampled on two days |
| `DayBuckets.SteadyHistory` | internal/trend/trend.go:40-107 | a history whose buckets follow one another and grow by the same amount is fitted as growing by it a day |
| `DayBuckets.GrowingNeverShrinks` | internal/trend/trend.go:40-107 | a history that never shrinks has no negative rate |
| `Batches.CountBatches` | internal/trend/trend.go:129-145 | the loop counts the timestamps that start a batch; with a negative gap, all of them |
| `Batches.CountsGroups` | internal/trend/trend.go:123-145 | the count is the number of groups of timestamps linked by chains of steps no longer than the gap, however the groups are represented |
| `Batches.OneBatchIff` | internal/trend/trend.go:123-145 | there is one batch if and only if all timestamps are linked |
| `Batches.LongerGapNeverMore` | internal/trend/trend.go:139-141 | the count never grows as the gap grows, negative gaps included |
| `Batches.OrderDoesNotMatter` | internal/trend/trend.go:133-135 | the count does not depend on the order of the timestamps |
| `FamilyNames.KeySplits` | internal/leaks/family.go:52-80 | a name with a key is the key's prefix and separator and a suffix of six or more that is all digits or looks random; without a separator it is all digits |
| `FamilyNames.DigitSiblings` | internal/leaks/family.go:64-72 | one stem followed by any six or more digits always gives the same key |
| `FamilyNames.RandomSiblings` | internal/leaks/family.go:73-78 | one prefix and separator followed by any random-looking suffix give the same key, unless the suffix ends in six digits |
| `FamilyNames.WordsHaveNoKey` | internal/leaks/family.go:55-59 | a name whose last part is a word in one case is in no family |
| `FamilyNames.LooksRandomIff` | internal/leaks/family.go:45-50 | a suffix looks random if and only if it is six or more letters and digits and no word in one case |
| `FamilyNames.NewlineHidesDigits` | internal/leaks/family.go:49-49 | a newline before the end of the stem hides the digits |
| `FamilyNames.HandleRoundTrip` | internal/leaks/family.go:82-97 | reading back a printed handle gives the root and key again if and only if the name is not one separator and digits; then it is refused |
| `FamilyNames.HandleIs` | internal/leaks/family.go:38-43 | a handle is the root, a slash, prefix, separator and a star |
| `FamilyNames.ParsesIff` | internal/leaks/family.go:83-97 | a path reads as a handle if and only if its last part ends in a star after something that is not one separator |
| `FamilyNames.HandlesDiffer` | internal/leaks/family.go:38-43 | different families of one root have different handles |
| `Families.ListFamilies` | internal/leaks/family.go:102-146 | one family for each key of an admitted entry, with exactly its entries as sorted members, in strict order of handle; nothing for an unreadable root |
| `Families.ListingPartitions` | internal/leaks/family.go:109-138 | each admitted entry is in exactly one family |
| `Families.MembersAre` | internal/leaks/family.go:108-131 | the members listed are the paths of exactly the entries not left out by name, with a key, not claimed, and a directory or regular file of the user |
| `Families.NotAfterIff` | internal/leaks/family.go:141-144 | members and handles are in byte order |
| `Families.ListingLosesNothing` | internal/leaks/family.go:109-145 | the families have as many members in all as there are admitted entries |
| `Families.FamilyForHandle` | internal/leaks/family.go:158-169 | finds a family if and only if the handle reads as a place with an entry of that key, and returns it whole |
| `Families.FoundAgainIff` | internal/leaks/family.go:158-169 | a reported family is found again from its handle if and only if its members are not one separator and digits |
| `Families.FoundAgainHolds` | internal/leaks/family.go:99-119 | what is found again holds every reported member, and what it holds beyond them was skipped by the scan |

## Left out

- RelocationSafety.NoLoss: assumes that the destination is neither the target nor its backup, which a playbook and a destination root on another volume give; the other lemmas about moves assume the same.
- PendingSafety.RunVerdict: assumes that no path of one listed entry is, or lies inside, a path of another, since a path stands for a whole tree here; `PendingSafety.RunHolds`, `PendingSafety.AttemptIsAllowed` and `PendingSafety.MarkBeforeMove` assume the same. `QueuedPaths.ListedIsSeparate` derives it from how rows are queued, but for queued directories inside one another (as `~/.claude` and `~/.claude/jobs` would be) and for rows queued under an earlier configuration, which gate 0 blocks.
- PendingRuns.RecheckOne: another process may cancel the row before the mark or after the last state of an apply, not between two states of it.
- TreeSizing.GroupingNeverMattersIff: is about trees whose roots can be walked; an error on a root gives no figure to compare.
- ExtentWalk.AddsLessThanSizePlusBlock: holds for a file system that maps no more than it is asked for, which the walk itself does not check.
- AutoCleanSafety.LedgerAgreesWithReport: assumes that the clock of each delete is not before the time the roll-up starts at.
- AuditLedger.Audit.StatsSince: sums without a limit on the size of numbers, where SQLite reports an overflow.
- Path cleaning: paths are taken as clean and absolute, so `Clean`, `Abs`, `Rel` and `Join` act on them as on clean paths; `..` inside a path is not resolved.
- Directory structure: a path holds a whole tree, a link or nothing; parents made by `MkdirAll`, and paths inside one another, are not tracked (target, backup and destination are assumed disjoint where a lemma says so).
- Content of copied trees: the source compares file count and total bytes, and nothing more is claimed of a copy.
- A link at the destination that a failing `lstat` hides: the modelled copy replaces it instead of following it.
- 64-bit wrap of extent addresses, of byte sums of trees and of freed totals; wrap-around is modelled for the budget, its cap and the minimum size.
- Server and trigger lanes as objects: both are step systems over values, because their claims range over interleavings; fields of one object and goroutine stacks are not modelled.
- A lock file or socket directory that cannot be opened, the pid written into the lock file, and `net.ErrClosed` handling of the accept loop.
- Fairness: `TriggerLanes.FourMovesSuffice` counts the consumer's moves and does not say that the scheduler lets it move, or that a tick ends.
- Errors of `EnqueueDeferred`'s store call.
- Foreign calls (`ditto`, `lsof`, `pgrep`, `diskutil`, `fcntl`, git, the deleters, `core.Safety.CanDelete`): their answers are arguments. `FreedByDelete` is a number.
- Number parsing of evidence strings: a suggestion carries what its evidence converts to. Evidence and severity are not stored in the modelled table.
- SQL, WAL and migrations: a table is a sequence of rows and a call is atomic.
- Floating point: rates, samples and fractions are reals. Saturation of `Time.Sub`, daylight saving and clock jitter.
- A non-positive sample interval of the watcher, which the ticker rejects by panicking.
- The unsynchronised live auto-clean configuration: a tick reads one value.
- The scan, collection of suggestions, notifications, leak storms, `lastTickNew`, the pending run's log and audit lines.
- `Scan` and `Plan` of the offload module, playbook data, symlink-risk report: they filter and report, and change nothing.
- `Recurrences` and `DaysUntilFull`; family classification, sizing and deletion (`classifyFamily`, `inspectFamily`, `applyFamily`), which re-check each member with foreign probes.
- Byte strings: names are sequences of characters, each standing for one byte; no UTF-8 decoding is needed since every separator, digit and newline is one byte.
