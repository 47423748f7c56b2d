# A verified model of crash-recoverable workspace commits

`vsh` executes shell and Python programs against a virtual file system and then commits the result to the
real workspace. A commit is a small transaction engine: the canonical diff is lowered into an ordered list of
filesystem operations; each operation runs as intent record, host mutation, completion record; ownership markers
are cleared, the tree is verified, a commit marker is written and the transaction store is updated. Recovery reads
the durable leftovers of an interrupted commit and either finalizes or reverses it.

This project models that engine, the codecs that carry its leftovers across a crash, and five protocols around it,
and proves them correct with Dafny 4.11. `dafny verify dfyconfig.toml` checks everything.

## The files

| file | models |
|---|---|
| `Types.dfy` | fixed-width integers, paths, node states, operations, journal records |
| `Engine.dfy` | the host as a tree plus stage, links and quarantine; applying, inferring and undoing one operation |
| `Rollback.dfy`, `Reentry.dfy` | executions, the journal they leave, reverse-order rollback, and rollback of a half-rolled-back tree |
| `Planning.dfy`, `Ordering.dfy` | admission of an artifact, its lowering, and what the order of the lowered operations guarantees |
| `Correctness.dfy` | the meaning of a lowered plan: every step finds what it needs, and the run ends in the planned tree |
| `Bytes.dfy`, `Paths.dfy`, `Journal.dfy` | integers and paths as bytes, and the checksummed journal with its torn-tail reader |
| `AcceptedLog.dfy`, `AcceptedPlan.dfy`, `AcceptedArtifact.dfy` | what each reader accepts, whatever the bytes |
| `PlanCodec.dfy`, `PlanDurability.dfy` | the durable plan, encoder and reader, and which prepared plans survive the round trip |
| `Recovery.dfy` | what recovery does with any durable leftover, and why it ends with the base or the planned tree |
| `Verification.dfy`, `Interference.dfy` | the final verification field by field; every operation, applied or reversed, on a host that somebody else has been at |
| `Overlay.dfy` | a plan made against a snapshot and carried out on a live tree |
| `Committer.dfy`, `CommitRun.dfy`, `EndToEnd.dfy` | staging, revalidation, pinning, the commit with its fault points, recovery, and all of it composed |
| `Stranding.dfy`, `Counterexamples.dfy` | when a commit is not atomic: what recovery cannot undo, and two inputs that lead there |
| `Example.dfy` | one small transaction through commit, crash and recovery, meeting the hypotheses of the theorems |
| `Artifact.dfy`, `ArtifactFields.dfy` | the fields of the pending artifact: how each is written, read, and read back |
| `Sealing.dfy`, `Pending.dfy` | buffered hashing, the bounded encoder, sealing in a single pass, and the artifact encoded, sealed and decoded |
| `HookGate.dfy` | the commit gate under a hook, with any number of threads |
| `Session.dfy` | the Bash host and worker in lockstep, and the worker pool |
| `Review.dfy` | the bounded content shown to a hook |
| `Snapshot.dfy` | the worklist that captures the base snapshot |

## How the host is modelled

A tree maps paths (sequences of component names) to nodes: a stamp (kind, size, mode, times, identity) and data.
Nodes made by the transaction get identities handed out by the host. No step advances a time, so comparing trees
compares them modulo time. A directory's entries change only while the directory has owner-write permission. An
operation is atomic and durable, as is each journal write, except that the journal may be cut at any byte. Between
the steps of one transaction nobody else writes to the workspace; commit and recovery exclude one another through the
workspace lock. Hashes are parameters of which only the 32-byte length is used.

A plan is exact against the snapshot that the execution saw. The tree that the commit meets is another one, of which
the theorems ask little: it is well-formed, and where a path has the same stamp in both trees it has the same content
or the same listing (`Trusted`). What was read is true of the snapshot, and directories are recorded with their stamps
(`Snapshotted`). Everything else is up to revalidation: if it finds nothing then the plan is exact against the live
tree too, and the commit ends with the live tree overlaid with the diff (`Overlaying.Overlay`). Nodes that the commit
adds have identities that the live tree does not use, and no node carries a marker of this transaction yet (`Fresh`);
that is asked for once, when the commit begins. Markers that other transactions left behind may be about.

A prepared plan is read back only when its diff, and not just its operations, is within the configured bounds:
preparation checks the one and decoding the other. The theorems about recovery therefore name that condition, and
`PreparedPlanCanBeUnreadable` and `OversizedDiffIsStranded` show what happens without it.

Three more conditions stand in the theorems about commits, because without them a commit is not atomic.

- `AvoidsMarkers`: the run meets no operation that is to put an entry in the place of an ownership marker, the name
  `.vsh-runtime-owner` in a directory that the commit created. Admission does not ask for this; a plan without an entry
  of that name in a created directory avoids the markers (`UnclashedAvoids`), and so does one that a read-only directory
  stops before. The condition is exact. Every run of a plan that meets a marker gets to the first such operation
  (`ClashIsReached`), and losing the process right after its intent leaves what recovery refuses for good, with the
  created directory still there: whether a directory, a file or a symbolic link was to be put in that place, the
  operation has begun, has not run, and looks like nobody's work (`MetMarkerStrands`, `LoseAtMarker`). A directory or a
  file strands without a lost process as well, since it fails after its intent (`ClashFails`). A symbolic link replaces
  the marker once it is moved, and no check lets that marker be cleared any more (`LinkReplacesMarker`); from there
  until the next operation begins recovery restores the base (`LinkClashUnwinds`).
- `Guarded`: either the conflict bound is positive or the tree is still what the execution saw. With a bound of zero
  revalidation looks at the first observation only (`ZeroBoundPasses`), and a commit can begin on a file that was edited
  in the meantime; the mode change that meets it fails after its intent, and what was quarantined before stays away
  (`ZeroBoundStrands`).
- `Roomy`, a part of `Accepted`, and `LogFits` where the plan is still to be lowered: the bound on the journal admits
  the whole log of the transaction, 8 + 179 bytes for each operation. The committer never checks this; recovery refuses
  a longer journal and leaves the tree as it finds it (`LeftoverIsUnwound` says so in both directions). The default
  limits leave room for any admitted transaction (`DefaultLimitsFit`).

Proofs hide the definitions they do not need, which keeps each of them small for the solver.

## Model

| member | source | states |
|---|---|---|
| Engine.PutBack | crates/vsh-commit/src/committer.rs:2544-2614 | Renaming a subtree into quarantine and back leaves the tree exactly as it was, descendants included |
| Rollback.StepKeepsWellFormed | crates/vsh-commit/src/committer.rs:1480-1703 | No operation leaves an entry whose parent is not a directory |
| Rollback.MarkersPresent | crates/vsh-commit/src/committer.rs:1705-1714 | The ownership markers written so far stay in place as files until they are cleared |
| Rollback.UndoQuarantine | crates/vsh-commit/src/committer.rs:2544-2614 | An applied quarantine is inferred as applied, and undoing it restores the whole subtree at its path |
| Rollback.UndoCreateDirectory | crates/vsh-commit/src/committer.rs:2615-2698 | A created directory is inferred and removed, whether or not its marker was already cleared |
| Rollback.UndoInstall | crates/vsh-commit/src/committer.rs:2699-2814 | An installed file or link is inferred and removed, with or without its completion record |
| Rollback.UndoMode | crates/vsh-commit/src/committer.rs:2815-2932 | A mode change is inferred and reversed to the mode before it |
| Rollback.InferUnapplied | crates/vsh-commit/src/committer.rs:2259-2526 | An intent whose mutation never happened is inferred as having had no effect |
| Rollback.UndoStep | crates/vsh-commit/src/committer.rs:2109-2156 | Reversing operation i after the first i + 1 leads back to the state after the first i |
| Rollback.SkipUnapplied | crates/vsh-commit/src/committer.rs:2117-2145 | Rollback passes over operations that never ran, including one with a dangling intent |
| Rollback.RollbackRestores | crates/vsh-commit/src/committer.rs:2109-2156 | From any executed prefix, with or without a dangling intent, with any cleared subset of markers, reverse rollback succeeds and restores the base tree; every parent is writable again when its entries are put back |
| Interference.DirectoryModeOutcome | crates/vsh-commit/src/committer.rs:2475-2524 | On any host: a directory mode is put back iff the parent is the witnessed one and the directory the very one, with the old mode or the new; it then has the old mode, and otherwise rollback stops with nothing changed |
| Interference.FileModeOutcome | crates/vsh-commit/src/committer.rs:2207-2256 | On any host: a file mode is put back iff it is the very file, with the content it should have and one of the two modes; otherwise rollback stops with nothing changed |
| Interference.QuarantineOutcome | crates/vsh-commit/src/committer.rs:2544-2614 | On any host: a completed quarantine is put back iff the slot holds the recorded node as expected and its place is free; otherwise rollback stops with nothing changed |
| Interference.BegunQuarantineOutcome | crates/vsh-commit/src/committer.rs:2282-2318 | On any host: what becomes of a quarantine that only began, for each of node in place or not, slot taken or not |
| Interference.CreationOutcome | crates/vsh-commit/src/committer.rs:2615-2698 | On any host: a created directory goes with its marker iff it is the recorded one, or carries its marker, and nothing else is in it; one with other content loses its marker only; any other stops rollback with nothing changed |
| Interference.InstallOutcome | crates/vsh-commit/src/committer.rs:2699-2761 | On any host: an installed file is removed iff it is the recorded, or the staged, node and shows what was installed; otherwise rollback stops with nothing changed |
| Interference.LinkOutcome | crates/vsh-commit/src/committer.rs:2762-2814 | On any host: the same for a link, by the identity that its intent or completion recorded |
| Interference.UndoTakesItsOwn | crates/vsh-commit/src/committer.rs:2529-2933 | On any host, and whatever was inferred before: an undo by itself takes away or puts back only what shows the expected state and has the recorded, marked or staged identity |
| Interference.StuckIsConflict | crates/vsh-commit/src/committer.rs:2014-2059 | Where rollback stops recovery is a conflict: what was reversed before stays reversed, and the workspace is kept |
| Interference.LastStuckIsConflict | crates/vsh-commit/src/committer.rs:2014-2059 | If that is the last operation that began, the tree is left as it is |
| Interference.ThirdModeIsConflict | crates/vsh-commit/src/committer.rs:2515-2524 | So for a directory that has neither the old mode nor the new one, whatever else is on the disk |
| Reentry.RefusesAgain | crates/vsh-commit/src/committer.rs:2259-2275 | Meeting an already undone operation again changes nothing, and is a conflict if it had completed and was not a mode change |
| Reentry.SecondRollback | crates/vsh-commit/src/committer.rs:2109-2156 | Rolling back again after stopping half-way restores the base exactly when only completed mode changes had been undone, and is otherwise a conflict that touches nothing |
| Reentry.PartialRollback | crates/vsh-commit/src/committer.rs:2109-2156 | A rollback interrupted after any number of undos stops in a state the execution passed through |
| Planning.Admit | crates/vsh-commit/src/plan.rs:35-143 | Admission fails with the first entry that breaks a rule, and succeeds iff none does |
| Planning.EntryRules | crates/vsh-commit/src/plan.rs:52-133 | An entry is admitted iff it keeps eight rules, told one by one down to the permission bits; otherwise the error names the first rule it breaks |
| Planning.SortRanked | crates/vsh-commit/src/plan.rs:397-401 | The sort orders by depth and neither loses nor repeats an entry |
| Planning.CollectRoots | crates/vsh-commit/src/plan.rs:379-411 | The destructive entries, parents first, without those an earlier root contains |
| Planning.CollectContents | crates/vsh-commit/src/plan.rs:452-505 | Content operations in diff order with consecutive stage slots, and the two groups of directory modes; overflow iff the slots exceed 32 bits |
| Planning.CheckBounds | crates/vsh-commit/src/plan.rs:528-541 | The first bound broken by the operations or their paths, if any |
| Planning.Prepare | crates/vsh-commit/src/plan.rs:374-563 | The prepared plan is the lowering of the diff: access grants, quarantines, creations, contents, restrictions, within the bounds; or the error that says which bound it breaks |
| Ordering.RootsCover | crates/vsh-commit/src/plan.rs:402-411 | Destructive roots form an antichain that covers every destructive entry |
| Ordering.LoweredIsOrderly | crates/vsh-commit/src/plan.rs:374-563 | Every lowered operation serves a diff entry, every entry finds the operations it needs, phases and depths are in order, roots are disjoint and slots distinct |
| Ordering.OperationsAt | crates/vsh-commit/src/plan.rs:374-526 | Which operations the path of an entry gets, told by the kinds, modes and content of its two sides alone; none for a directory that keeps its mode |
| Correctness.FateOf | crates/vsh-commit/src/committer.rs:1480-1703 | What a run makes of each single path is determined by the operations that touch it |
| Interference.QuarantineApplies | crates/vsh-commit/src/committer.rs:1495-1535 | On any host: a quarantine takes away the subtree iff its root shows the expected state and the slot is free; otherwise it fails with nothing changed |
| Interference.CreationApplies | crates/vsh-commit/src/committer.rs:1536-1559 | On any host: a creation needs a free path, and leaves the directory with the marker of this operation in it |
| Interference.InstallApplies | crates/vsh-commit/src/committer.rs:1560-1586 | On any host: an install needs a free path and leaves the staged node, which must show what is to be installed |
| Interference.LinkApplies | crates/vsh-commit/src/committer.rs:1587-1611 | On any host: a link is moved from the stage, over anything but a directory |
| Interference.FileModeApplies | crates/vsh-commit/src/committer.rs:1612-1666 | On any host: a file mode changes only on the pinned file while it shows the expected state |
| Interference.DirectoryModeApplies | crates/vsh-commit/src/committer.rs:1667-1702 | On any host: a directory mode changes only on the pinned directory with the expected mode |
| Interference.UnreadyFails | crates/vsh-commit/src/committer.rs:1480-1500 | Without its parent directory, or without permission to change its entries, an operation fails with nothing changed |
| Correctness.TargetAbsent | crates/vsh-commit/src/plan.rs:413-505 | When a creation or an install takes its turn, its path is free, unless it is that of a marker |
| Correctness.RootIntact | crates/vsh-commit/src/plan.rs:413-431 | When a quarantine takes its turn, its root is still the base node |
| Correctness.ParentReady | crates/vsh-commit/src/plan.rs:507-526 | When an operation changes entries, its parent is a directory, and writable iff the base or the plan makes it so |
| Correctness.AccessGranted | crates/vsh-commit/src/plan.rs:490-526 | Access grants precede, and restrictions follow, every operation that changes entries of the directory |
| Correctness.NextStep | crates/vsh-commit/src/committer.rs:1100-1152 | The next operation of a run finds what it awaits; unless it is to go where a marker is, it succeeds, or its parent is never writable and it changes nothing |
| Correctness.RunsUntilForbidden | crates/vsh-commit/src/committer.rs:1100-1152 | Up to the first operation that clashes with a marker, a run completes iff every entry change happens in a directory that the base or the plan makes owner-writable; otherwise it stops right before the first that does not |
| Correctness.NothingMet | crates/vsh-commit/src/committer.rs:1100-1152 | A run that meets no marker reaches no operation that clashes with one |
| Correctness.ClashesSayAll | crates/vsh-commit/src/plan.rs:413-505 | If no operation of a planned run clashes with a marker, no entry of the diff has its name in a created directory |
| Correctness.FinalNode | crates/vsh-commit/src/plan.rs:374-563 | Path by path, the run ends with what the plan says |
| Correctness.LoweringIsFaithful | crates/vsh-commit/src/plan.rs:374-563 | A complete run with its markers cleared realizes exactly the planned tree |
| Correctness.PlannedModesPrivate | crates/vsh-commit/src/plan.rs:434-526 | No other operation of a lowered plan touches the node of a mode change, or takes it away |
| Overlaying.ExactOnLive | crates/vsh-commit/src/committer.rs:1059-1077 | What was read and every write precondition still true of the live tree make the plan exact against it, and against its overlay with the diff |
| Overlaying.NoClashOnLive | crates/vsh-commit/src/committer.rs:1705-1714 | A plan that leaves the marker names alone against the snapshot does so against the live tree |
| ByteCodec.IntegersReadBack | crates/vsh-commit/src/journal.rs:61-104 | Little-endian 32-, 64- and signed 128-bit integers read back as written |
| Paths.ParseText | crates/vsh-commit/src/plan.rs:775-793 | The text of a normalized path parses to that path |
| Paths.ParsedText | crates/vsh-commit/src/plan.rs:775-793 | A text that parses is the text of the path it parses to |
| OperationLog.ReadJournal | crates/vsh-commit/src/journal.rs:148-276 | One pass over the file computes the reading of its bytes, error cases included; the next three rows say what that reading accepts |
| AcceptedLog.AcceptedIsLog | crates/vsh-commit/src/journal.rs:148-276 | Whatever bytes are accepted are a magic, whole frames each with the digest of its payload, records in sequence (the two older intents included), and a torn tail; the answer is what these records tell, and says torn iff the tail is not empty |
| AcceptedLog.LogIsAccepted | crates/vsh-commit/src/journal.rs:148-276 | And every such log within the bound is accepted with that answer |
| AcceptedLog.DamageIsReported | crates/vsh-commit/src/journal.rs:201-203 | Behind good frames, the first whole frame whose stored digest is not that of its payload is a checksum error, whatever follows |
| AcceptedLog.RecordsAreEntries | crates/vsh-commit/src/journal.rs:55-104 | The log that a transaction writes is such a log |
| OperationLog.AcceptedIsSequential | crates/vsh-commit/src/journal.rs:170-275 | Whatever bytes are accepted, completions are 0..n, intents 0..n or one more that is pending, and stamps belong to completed files and only to the second format |
| OperationLog.RecordReadsBack | crates/vsh-commit/src/journal.rs:55-104 | Every record the writer may write next is taken for what it is |
| OperationLog.TornFrame | crates/vsh-commit/src/journal.rs:178-208 | A frame cut anywhere short of its end reads as a torn tail and nothing else |
| OperationLog.TornTail | crates/vsh-commit/src/journal.rs:148-276 | A log cut anywhere after its magic yields exactly the whole records before the cut, and reports a torn tail iff bytes are left over |
| OperationLog.PairedIsSequenced | crates/vsh-commit/src/journal.rs:209-272 | Alternating intents and completions are accepted, and the reader learns exactly their contents |
| OperationLog.LogSize | crates/vsh-commit/src/journal.rs:55-104 | A transaction of n operations writes at most 8 + 179 n bytes |
| OperationLog.DefaultLimitsFit | crates/vsh-commit/src/committer.rs:97-107 | Under the default limits the log of any admitted transaction is accepted, wherever it is cut |
| OperationLog.Journal.Intent | crates/vsh-commit/src/journal.rs:55-70 | Appends exactly the frame of this intent |
| OperationLog.Journal.Done | crates/vsh-commit/src/journal.rs:72-80 | Appends exactly the frame of this completion |
| OperationLog.Journal.MetadataDone | crates/vsh-commit/src/journal.rs:82-95 | Appends exactly the frame of this completion with its stamp |
| PlanCodec.StateBack | crates/vsh-commit/src/plan.rs:816-868 | A node state the decoder accepts reads back as written, whatever follows |
| PlanCodec.OperationBack | crates/vsh-commit/src/plan.rs:675-773 | Each of the six operations reads back as written, whatever follows |
| PlanCodec.FinalsBack | crates/vsh-commit/src/plan.rs:634-642 | The final states read back iff all their paths are within the bound; the first longer one is a limit error |
| PlanCodec.RoundTrip | crates/vsh-commit/src/plan.rs:565-648 | A plan within the bounds that preparation checks decodes to itself iff its final states are within them too, and is otherwise refused with a limit error |
| AcceptedPlan.AcceptedIsPlan | crates/vsh-commit/src/plan.rs:598-648 | Whatever bytes the decoder accepts are the encoding, in one of the two formats, of the plan it answers with, followed by the digest of all of it, with nothing left over and within every bound |
| AcceptedPlan.PlanIsAccepted | crates/vsh-commit/src/plan.rs:598-648 | And every such encoding, in either format, is accepted as that plan |
| PlanCodec.Encode | crates/vsh-commit/src/plan.rs:565-596 | Produces the sealed encoding iff every count and path length fits 32 bits |
| PlanCodec.DecodePlan | crates/vsh-commit/src/plan.rs:598-648 | The cursor-based decoder computes the reading of the bytes, error cases included |
| PlanCodec.Reader.Take | crates/vsh-commit/src/plan.rs:935-946 | Takes exactly the next bytes, or reports truncation and stays |
| PlanCodec.Reader.DecodeState | crates/vsh-commit/src/plan.rs:838-868 | Reads a state, with a stamp of another mode only where file modes are planned |
| PlanCodec.Reader.DecodeOperation | crates/vsh-commit/src/plan.rs:728-773 | Reads an operation; the first format knows no file-mode operation |
| PlanDurability.PreparedReadsBack | crates/vsh-commit/src/plan.rs:528-541 | A plan prepared from an exact diff survives the round trip iff the diff itself is within the bounds; the format and shifted stamps need no further condition |
| PlanDurability.PreparedPlanCanBeUnreadable | crates/vsh-commit/src/plan.rs:629-638 | Deleting a directory with one file in it: one operation, two final states, prepared under a bound of one and refused by recovery |
| CrashRecovery.RecoveryFailsClosed | crates/vsh-commit/src/committer.rs:1908-2059 | A conflict or refusal keeps plan, journal and marker; finalizing needs the marker and leaves the tree alone; rolling back needs its absence |
| Interference.UnmarkedOutcome | crates/vsh-commit/src/committer.rs:1966-2059 | Without a commit marker, what recovery answers in each stored state, as rollback succeeds or not |
| Interference.BadPlanIsRefused | crates/vsh-commit/src/committer.rs:2064-2090 | A durable plan that is too large, not the encoding of a plan, or about the root is refused with nothing changed |
| Interference.GoodPlanIsRead | crates/vsh-commit/src/committer.rs:2064-2090 | Any other is read |
| Interference.BadJournalIsRefused | crates/vsh-commit/src/committer.rs:2092-2107 | A journal that is not a log within the bound is refused with nothing changed |
| Interference.DamagedRecordIsRefused | crates/vsh-commit/src/committer.rs:2092-2107 | A damaged record behind good ones is refused as such, with nothing changed |
| CrashRecovery.StaleLeftoverIsConflict | crates/vsh-commit/src/committer.rs:2043-2050 | A leftover of a transaction that went stale is a conflict; with no intent in its journal nothing at all changes |
| CrashRecovery.DisturbedQuarantineIsMissed | crates/vsh-commit/src/committer.rs:2304-2311 | An unfinished quarantine is put back iff the held node still looks as expected; otherwise rollback reports success and leaves it |
| CrashRecovery.DisturbedQuarantineIsLost | crates/vsh-commit/src/committer.rs:2014-2059 | The path of such a quarantine is missing after recovery, and when recovery reports a rollback the directory that held the subtree is gone as well |
| CrashRecovery.RecordedIsJournaled | crates/vsh-commit/src/committer.rs:1100-1152 | What recovery learns from a run's journal is faithful to the run |
| CrashRecovery.HeldFits | crates/vsh-commit/src/journal.rs:55-104 | What a run of n operations holds as its journal, cut anywhere, has at most 8 + 179 n bytes |
| CrashRecovery.LeftoverIsUnwound | crates/vsh-commit/src/committer.rs:1861-2062 | From any leftover before the commit marker, its journal cut at any byte, one recovery restores the base and fails the transaction if the journal is within the configured bound; a longer one is refused with everything as it was |
| CrashRecovery.InterruptedRecoveryIsSafe | crates/vsh-commit/src/committer.rs:2014-2059 | Recovering a half-unwound leftover, its transaction already marked failed or not, restores the base iff only mode changes had been undone, and otherwise conflicts with nothing touched or dropped |
| CrashRecovery.LostRecoveryIsSafe | crates/vsh-commit/src/committer.rs:2014-2059 | The same for a recovery that was lost after any number of undos, or after it marked the transaction failed, and is run again |
| CrashRecovery.UndoneRecoveryConflicts | crates/vsh-commit/src/committer.rs:2268-2275 | Recovery is not idempotent: lost after undoing everything, before the transaction directory is gone, it calls its own work a conflict next time, with the tree already the base |
| CrashRecovery.UnbegunRecovers | crates/vsh-commit/src/committer.rs:1966-2059 | A transaction of which nothing began is settled as failed with the tree as it is, and is a conflict if it went stale |
| CrashRecovery.FinishedVerifies | crates/vsh-commit/src/committer.rs:1759-1822 | A complete run always passes the final verification |
| FinalVerification.VerifiedIsAsPlanned | crates/vsh-commit/src/committer.rs:1759-1822 | Verification succeeds iff every final path is absent as planned or shows the planned kind, size, permissions and content, every recorded stamp is the stamp of its node, and every directory mode is on the recorded directory |
| FinalVerification.StampForIsRecorded | crates/vsh-commit/src/committer.rs:1786-1794 | The stamp held against a path is that of the last change of its mode that recorded one |
| FinalVerification.MarkedOutcome | crates/vsh-commit/src/committer.rs:1910-1964 | With the commit marker durable recovery commits iff the tree shows what was planned and the store can follow; otherwise it is a conflict with nothing changed |
| FinalVerification.DifferingIsConflict | crates/vsh-commit/src/committer.rs:1924-1939 | One path that is not as planned is enough |
| CrashRecovery.MarkedIsFinalized | crates/vsh-commit/src/committer.rs:1910-1964 | With the commit marker durable, recovery commits, and the tree is the planned one |
| Committing.StageContent | crates/vsh-commit/src/committer.rs:1323-1393 | Succeeds iff every replacement's content is in the store with its size and every link mode can be had, and then every install finds its content |
| Committing.Revalidate | crates/vsh-commit/src/committer.rs:760-795 | Returns the first conflicts in order, up to the bound; with a bound of zero only the first observation is looked at |
| Committing.RevalidationIsExact | crates/vsh-commit/src/committer.rs:760-795 | With a positive bound it finds nothing iff every observation and every write precondition still holds |
| Committing.ConflictsNameTheAspect | crates/vsh-commit/src/committer.rs:1438-1477 | A conflict names metadata, content or listing, the first of these that no longer holds; a host error is reported only if no earlier aspect changed |
| Committing.PinParents | crates/vsh-commit/src/committer.rs:1218-1273 | Pins every recorded parent iff each is a directory exactly as recorded; a parent that was a file or a link makes the commit stale |
| Committing.SeenIsUnchanged | crates/vsh-commit/src/committer.rs:1240-1266 | As recorded means: the very stamp, field by field |
| Committing.ParentPinned | crates/vsh-commit/src/committer.rs:1201-1216 | When its turn comes, the parent of every operation is pinned and in place |
| Committing.MarkerStillThere | crates/vsh-commit/src/committer.rs:1716-1757 | After a complete run every check made before clearing an ownership marker passes, last created first |
| Committing.CurrentIsStillTrue | crates/vsh-commit/src/committer.rs:760-795 | A tree on which revalidation finds nothing still shows the metadata that was read and meets every write precondition |
| Committing.StagedIsPrivate | crates/vsh-commit/src/committer.rs:1323-1393 | With identities that the tree does not use, what is staged and created can never be taken for anything else |
| CommitRun.AbandonedTwice | crates/vsh-commit/src/committer.rs:2014-2059 | Whatever a run left, losing its recovery anywhere and recovering again restores the base or is a conflict with nothing touched or dropped; a conflict needs an undone operation other than a mode change |
| CommitRun.Committer.RunOperation | crates/vsh-commit/src/committer.rs:1100-1152 | Intent, mutation and completion of one operation: on any host, which records it writes, where it stops, and that it mutates only while the parent is the pinned one; of a sound run, one that meets no marker leaves at every exit what one recovery takes back to the base, and every failure has one of the named reasons; one that meets a marker strands at its intent, and only a symbolic link gets past it |
| CommitRun.IntentNamesItsSource | crates/vsh-commit/src/committer.rs:1395-1436 | On any host: nothing begins without a pinned parent and the node to be changed in place or moved from the stage; the intent names that very node |
| CommitRun.Committer.CarryOut | crates/vsh-commit/src/committer.rs:1120-1152 | The part of it after the intent |
| CommitRun.Committer.ClearMarkers | crates/vsh-commit/src/committer.rs:1153-1168 | Removes markers last created first until one is not where it was left; of a sound run, exactly the ownership markers |
| CommitRun.ClearedAreOwn | crates/vsh-commit/src/committer.rs:1716-1757 | On any tree: nothing is ever removed but a marker of this transaction and operation, in the pinned directory that the journal says it created; and when clearing succeeds none is left |
| CommitRun.Committer.VerifyFinal | crates/vsh-commit/src/committer.rs:1759-1822 | Decides whether the tree shows everything as planned, field by field |
| CommitRun.Committer.Complete | crates/vsh-commit/src/committer.rs:1153-1196 | A commit marker is written, and success reported, only when the tree shows everything as planned; of a sound run, once every operation ran only process loss can interfere, and what it leaves is decided by the marker |
| CommitRun.Committer.PrepareAndCommit | crates/vsh-commit/src/committer.rs:1002-1196 | On any live tree: before committing nothing changes; with a positive conflict bound committing begins only on a tree that is still what the execution saw; from there on, if the plan avoids the markers, wherever it stops, one recovery restores the tree or settles its overlay, the commit marker telling which; if it meets an ownership marker, stopping at that intent strands it; every failure has a reason that holds |
| CommitRun.Committer.Resolve | crates/vsh-commit/src/committer.rs:925-984 | What a surviving committer makes of each stored state |
| CommitRun.Committer.Rollback | crates/vsh-commit/src/committer.rs:2109-2156 | The reverse loop computes the rollback of the journaled operations |
| CommitRun.Committer.Recover | crates/vsh-commit/src/committer.rs:1861-2062 | Recovery of one transaction workspace, its refusals and conflicts included |
| CommitRun.Committer.RecoverLost | crates/vsh-commit/src/committer.rs:1861-2062 | Recovery with the process lost before the transaction directory is removed |
| CommitRun.Committer.CommitThenRecover | crates/vsh-commit/src/committer.rs:1002-1196 | Crash atomicity on any live tree: under any fault injection, lost or resolved in process, a plan that avoids the markers ends after one recovery with the starting tree and a failed transaction or its overlay and a committed one, nothing left behind; one that meets a marker and stops at that intent ends in a conflict with the tree changed; only a stale transaction whose process was lost stays a conflict otherwise; a tree that changed since is never touched |
| CommitRun.Committer.CommitLoseRecovery | crates/vsh-commit/src/committer.rs:1002-1196 | Commit, lose the recovery anywhere, recover again: the starting tree or its overlay, or a conflict in which the second recovery changed nothing, for a stale transaction or an undone operation other than a mode change |
| EndToEnd.PreparedIsAccepted | crates/vsh-commit/src/committer.rs:879-923 | What preparation and encoding produce is what the commit needs |
| EndToEnd.OversizedDiffIsStranded | crates/vsh-commit/src/plan.rs:629-638 | Beyond decoding's bounds recovery refuses every leftover and changes nothing |
| EndToEnd.UnobstructedSucceeds | crates/vsh-commit/src/committer.rs:1002-1196 | With content in the store, dependencies unchanged, parents in place and directories writable, no failure reason applies |
| EndToEnd.UnclashedAvoids | crates/vsh-commit/src/plan.rs:413-505 | A plan that leaves the marker names alone avoids the markers of every live tree it carries over to |
| EndToEnd.LoseAtMarker | crates/vsh-commit/src/committer.rs:1002-1196 | Avoiding the markers is needed: any plan that meets one, lost right after that intent, ends in a conflict, with a tree that is not the starting one |
| EndToEnd.CommitArtifact | crates/vsh-commit/src/committer.rs:821-923 | From an admitted artifact to the settled workspace, on any live tree and under any fault injection, for every plan whose lowering avoids the markers |
| Stranding.RefusedIsStranded | crates/vsh-commit/src/committer.rs:2117-2145 | An operation that began, did not run, and looks like nobody's work is a conflict to recovery, which takes nothing back of what ran before it |
| Stranding.ClashFails | crates/vsh-commit/src/committer.rs:1536-1586 | A directory or file at the name of a marker fails after its intent, changing nothing |
| Stranding.ClashIsHopeless | crates/vsh-commit/src/committer.rs:2259-2526 | Whatever is to be put at that name, symbolic links included: begun and not run it is ambiguous, in a tree that is no longer the base |
| Stranding.ClashIsStranded | crates/vsh-commit/src/committer.rs:2259-2526 | Lost right after the intent of any such operation, of whatever kind, recovery is a conflict whenever it is asked, the created directory still there |
| Stranding.ClashIsReached | crates/vsh-commit/src/committer.rs:1100-1152 | Every run reaches the first such operation unless a read-only directory stops it before |
| Stranding.MetMarkerStrands | crates/vsh-commit/src/committer.rs:1100-1152 | Every plan that meets a marker has such a point, at its first clash |
| Stranding.LinkReplacesMarker | crates/vsh-commit/src/committer.rs:1587-1611 | A symbolic link at that name replaces the marker once it moves, and no pin or witness lets the marker be cleared any more |
| Stranding.LinkClashUnwinds | crates/vsh-commit/src/committer.rs:2109-2156 | Once such a link has moved, with or without its completion record and until the next operation begins, rollback restores the base |
| Stranding.EditedFileFails | crates/vsh-commit/src/committer.rs:2259-2526 | A mode change of a file with another modification time fails after its intent, and recovery can make nothing of it |
| Counterexamples.ClashIsAdmitted | crates/vsh-commit/src/plan.rs:35-143 | Creating a directory together with an entry at its marker's name is admitted and exact |
| Counterexamples.ClashStrands | crates/vsh-commit/src/plan.rs:35-143 | However it is lowered, a run reaches the clash, and losing it there is a conflict with the directory left behind |
| Counterexamples.ZeroBoundPasses | crates/vsh-commit/src/committer.rs:760-795 | Revalidation with a bound of zero finds nothing on that tree |
| Counterexamples.TidyAccepted | crates/vsh-commit/src/committer.rs:879-923 | Deleting one file and making another private is accepted, and its encoding read back, under a configuration with that bound |
| Counterexamples.EditIsHonest | crates/vsh-commit/src/committer.rs:1059-1077 | The edited tree is one a host may present, and the plan was recorded from the tree before the edit |
| Counterexamples.ZeroBoundStrands | crates/vsh-commit/src/committer.rs:760-795 | A plan accepted under a conflict bound of zero, and a tree the host may present in which a file was edited: the commit deletes another file, fails at the edited one, and recovery is a conflict with the other file gone |
| Example.DeletionAccepted | crates/vsh-commit/src/plan.rs:374-563 | Deleting a directory with a file in it is admitted, prepared and encoded as the commit needs it, under bounds of two operations and three path bytes |
| Example.DeletionUnwinds | crates/vsh-commit/src/committer.rs:1861-2062 | Lost after its one operation, with or without the completion record, both entries come back |
| Example.DeletionFinalizes | crates/vsh-commit/src/committer.rs:1910-1964 | Lost after its commit marker, the deletion is committed and the tree is the planned one |
| Example.SecondRecoveryConflicts | crates/vsh-commit/src/committer.rs:2259-2275 | Recovery lost after the undo, or after it marked the transaction failed: the base is back, and recovering again is a conflict |
| Example.DeletionCarriesOver | crates/vsh-commit/src/committer.rs:1059-1077 | Another file edited since the snapshot: the deletion carries over, and ends in the live tree without the two entries, the edit kept |
| Sealing.HashSink.Extend | crates/vbash/src/artifact.rs:1432-1449 | The bytes given to the hasher followed by the live buffer are the concatenation of all writes, however the input was split |
| Sealing.HashSink.Finish | crates/vbash/src/artifact.rs:1451-1454 | The digest is that of the concatenation |
| Sealing.Encoder.Extend | crates/vbash/src/artifact.rs:1508-1546 | The size observed and the write that hits the limit are the same whether bytes are stored, hashed or counted |
| Sealing.SlotEndsHeader | crates/vbash/src/artifact.rs:236-244 | The reserved digest slot is the last 32 bytes of the binding, in both sealed formats, with or without intent |
| Sealing.WritePending | crates/vbash/src/artifact.rs:202-298 | Writes the groups of fields in order, the evidence digest over the review and the outcome, the receipt-detail byte left out |
| PendingArtifact.SealOnceRefines | crates/vbash/src/artifact.rs:173-195 | Sealing in one pass outputs the encoding of the sealed artifact, or fails with the same error at the same write |
| PendingArtifact.SealOnceIsTwoPass | crates/vbash/src/artifact.rs:83-105 | It succeeds iff computing the evidence by its own pass first and encoding second does, with the same bytes; a denied transaction, which has evidence, is sealed in neither way |
| PendingArtifact.SealPendingAndEncode | crates/vbash/src/artifact.rs:173-195 | The implementation with its patched slot, and the identity that follows from the seal |
| PendingArtifact.SealPendingAndSize | crates/vbash/src/artifact.rs:157-171 | The size without the bytes, with the same errors |
| PendingArtifact.ExecutionEvidenceDigest | crates/vbash/src/artifact.rs:83-105 | The evidence digest by a hashing encoder of its own, denials included |
| ArtifactFields.PathBack | crates/vbash/src/artifact.rs:1172-1185 | A path within its bound reads back, whatever follows |
| ArtifactFields.StateBack | crates/vbash/src/artifact.rs:1212-1265 | A node state that the format can carry reads back, whatever follows |
| ArtifactFields.EffectBack | crates/vbash/src/artifact.rs:713-828 | Each of the eight effects reads back, whatever follows |
| ArtifactFields.EffectsBack | crates/vbash/src/artifact.rs:633-711 | The numbered effect events read back, within their bound |
| ArtifactFields.ReviewBack | crates/vbash/src/artifact.rs:615-711 | The review reads back: intent, risk metrics, effects, completeness |
| ArtifactFields.DecisionBack | crates/vbash/src/artifact.rs:1039-1096 | An approval, automatic or pending with its risk manifest, reads back |
| ArtifactFields.OutputBack | crates/vbash/src/artifact.rs:446-597 | The output of either interpreter reads back within its bounds, as far as the serializer of result values is faithful |
| ArtifactFields.StatsBack | crates/vbash/src/artifact.rs:1124-1148 | Execution statistics read back |
| ArtifactFields.TimingsBack | crates/vbash/src/artifact.rs:1150-1170 | Stage timings read back |
| ArtifactFields.DiffBack | crates/vbash/src/artifact.rs:879-900 | A canonical diff reads back, within the bound on entries |
| ArtifactFields.ReadSetBack | crates/vbash/src/artifact.rs:902-933 | Observations read back, within the bound on dependencies |
| ArtifactFields.WriteSetBack | crates/vbash/src/artifact.rs:935-952 | Preconditions read back, within the same bound |
| PendingArtifact.EncodedDecodes | crates/vbash/src/artifact.rs:300-395 | What was encoded, in any of the three formats, is decoded field by field to that very artifact |
| PendingArtifact.SealedDecodes | crates/vbash/src/artifact.rs:300-395 | The bytes of a single-pass seal decode to the sealed artifact |
| PendingArtifact.AcceptedIsSealed | crates/vbash/src/artifact.rs:107-137 | Whatever bytes are accepted, the decoded artifact is well made, names itself and its content correctly, and under a seal the digest of its re-encoded review, decision, output and statistics is the bound one, its review whole and about the bound intent |
| AcceptedArtifact.AcceptedIsArtifact | crates/vbash/src/artifact.rs:300-395 | Whatever bytes are accepted are, field by field, the writing of the artifact that was decoded, within every bound and with nothing left over |
| AcceptedArtifact.AcceptedIsTidy | crates/vbash/src/artifact.rs:300-395 | Events, flags and changes are in strict order, changes say what they are, no path is observed or written twice; the unsealed format says only what it can; under a seal the review is whole and about the bound intent; diff and dependencies are the bound ones |
| AcceptedArtifact.EncodedIsPlain | crates/vbash/src/artifact.rs:202-298 | What is encoded obeys the same: plain without a seal, under one bound to the digest of its review and outcome; a denial is never encoded |
| AcceptedArtifact.InexpressibleIsRefused | crates/vbash/src/artifact.rs:208-234 | What only a sealed artifact can say is refused unsealed, before a byte is written; the header is refused for nothing else |
| PendingArtifact.AcceptedReadsBack | crates/vbash/src/artifact.rs:300-395 | What was accepted and is encoded again is accepted again as the same artifact |
| HookGate.EveryRunIsSafe | crates/vbash/src/runtime.rs:831-1141 | Over all runs of any number of threads: at most one reservation; in the hook's scope only after an approval of complete evidence, a consent to follow policy on the exact event, or an independent approval; after an action that rejects, never any and the record is Rejected; after one that withdraws the automatic approval only from an explicit approval |
| HookGate.RejectionStays | crates/vbash/src/runtime.rs:1072-1090 | A checked rejection, carried out while the store is still in the state it was about, makes the record Rejected for the rest of the run, with nothing reserved |
| HookGate.LoweringStays | crates/vbash/src/runtime.rs:1056-1071 | A review, a failing hook or a cancellation makes an automatic approval pending, and nothing is reserved from it any more |
| HookGate.ActionsMove | crates/vbash/src/runtime.rs:831-1141 | The stored state moves only as the store allows, and a reservation comes with taking the transaction |
| HookGate.ActionsAreNarrow | crates/vbash/src/runtime.rs:831-1141 | No action touches another thread; a commit that was admitted or refused is over |
| HookGate.FinalStatesStay | crates/vbash/src/runtime.rs:1114-1141 | A rejected or reserved transaction stays so whatever threads still attempt |
| HookGate.Runtime.PrepareCommit | crates/vbash/src/runtime.rs:859-884 | An event is demanded iff the stored state is in the hook's scope |
| HookGate.Runtime.ValidatePreparation | crates/vbash/src/runtime.rs:967-1011 | A decision is admitted iff the preparation still describes the store and carries the very event; otherwise which of the errors |
| HookGate.Runtime.ResolveCommit | crates/vbash/src/runtime.rs:907-1096 | For every preparation, decision and state: the answer, the record and the reservations; the same as its actions in a run, so that what holds of all runs holds of it |
| HookGate.Runtime.Commit | crates/vbash/src/runtime.rs:819-846 | Demands the hook iff the state is in its scope, and otherwise commits iff the state is approved; as its actions in a run |
| HookGate.Runtime.ApproveIndependently | crates/vbash/src/runtime.rs:791-811 | Approves iff pending; as its action in a run |
| HookGate.Runtime.DiscardCancelled | crates/vbash/src/runtime.rs:766-783 | Withdraws an automatic approval and nothing else; as its action in a run |
| HookGate.Runtime.CommitThroughHandler | crates/vbash/src/hook.rs:470-488 | As its actions in a run: in scope a commit needs the handler's consent; a failing handler leaves no automatic approval |
| Session.SessionsNeverMix | crates/vsh-bash/src/host.rs:683-887 | In every run replies answer the request just sent, counters agree at Done and Ready, and a worker returns to the pool with both channels empty |
| Session.OnlyGivingUpFails | crates/vsh-bash/src/guest.rs:133-174 | Without a host-side give-up the protocol never fails a worker |
| Session.HostTakesItsOwn | crates/vsh-bash/src/host.rs:683-887 | Whatever is on the channel: the host takes only a frame of its own session and step; any other ends the worker unanswered |
| Session.GuestTakesItsOwn | crates/vsh-bash/src/guest.rs:133-174 | Whatever is on the channel: the guest takes only a later run, a shutdown, or the reply at its own step; any other breaks it |
| Session.GuestSendsItsOwn | crates/vsh-bash/src/guest.rs:133-174 | What the guest sends carries its own session and step, and only a guest that runs or reports sends |
| Session.HostDecides | crates/vsh-bash/src/host.rs:683-887 | A session starts only on a pooled worker, under a later number; shutdown needs a pooled worker, giving up nothing |
| Session.Pool.Checkout | crates/vsh-bash/src/host.rs:450-477 | Admits iff there is a free place, handing out the last idle worker; active counts the leases and active plus idle stays within the bound |
| Session.Pool.Release | crates/vsh-bash/src/host.rs:485-497 | Only a worker that succeeded and is not worn out returns, only while there is room; the lease ends in any case |
| Review.CollectContent | crates/vbash/src/review.rs:10-51 | At most the maximum of bytes, each path and blob once, only what the store holds and the policy allows; what is left out is not allowed or larger than what remains; complete iff every content side and every content read is included; fails iff the store lacks something wanted and allowed, and names it |
| Review.ContentCollector.Blob | crates/vbash/src/review.rs:75-102 | A new request that is allowed, in the store and small enough is shown, and nothing else is; a missing one is an error |
| Snapshot.CaptureSnapshot | crates/vsh-commit/src/host.rs:700-847 | Succeeds iff nodes, directory depth and total size are within the limits, and then captures every path outside the runtime directory exactly once; otherwise names a limit that is broken |

## Left out

- Times: the model never advances them, so a change time that moves with a rename is compared only where the code compares it, and a tree restored by rollback equals the base modulo time.
- Link counts and inode reuse: `SetFileMode` demands a single-linked file and identities are never reused by the host.
- Owner-read and search permission: admission's rule about inaccessible states is modelled, but reading a file or searching a directory never fails for lack of permission.
- `CommitPlan::new` compares digests of the diff and the dependency sets with the binding; the comparison is not modelled, the per-entry rules are.
- Path comparison among equal depths: the code breaks ties by path, the model by a stable sort of a diff that is already in path order.
- Staging: a link target that leaves the workspace is refused by the code; the model has no target syntax. A failing blob store is a missing blob.
- UTF-8: names are byte strings and the decoder's text check is not modelled.
- Recovery of several transaction workspaces at once, their directory names, and the report's counters: one workspace is recovered and the outcome stated.
- Crashes before the plan and the journal are durable, during an undo, and during the deletion of a workspace: recovery returns an error there or repeats the deletion; no host change is at stake before the first operation.
- A durable plan that names the workspace root: the code reports a conflict when it meets such an operation with an intent, the model refuses the plan as a whole. No preparation produces one.
- The commit marker is a flag: its bytes, like the plan's, are a fixed header, the transaction and a digest.
- Host mutations and undos are functions from host to host, called by the committer's methods; handles, `sync` calls and relative system calls are not modelled.
- External writers while a commit or a recovery is at work: the theorems about whole commits leave them out. What each operation, each undo, the clearing of markers, the final verification and recovery do on a host that somebody else has changed is said by `Interference.dfy`, `Verification.dfy`, `ClearedAreOwn`, `DisturbedQuarantineIsMissed` and `DisturbedQuarantineIsLost`. Between the snapshot and the commit the tree may change in any way.
- Stranding.LinkClashUnwinds: a run that goes on to further operations after a symbolic link replaced a marker is not followed, and the contracts of the committer leave open how it ends.
- An ownership marker that another transaction left in the live tree is known in the overlay by its stamp, not by its bytes.
- Windows branches, host I/O errors and poisoned locks.
- PlanCodec.Encode: the code checks each path length as it writes, the model all of them before writing; the outcome is the same.
- PendingArtifact.DecodePending: the oldest format and the decoder's cursor are not modelled; a path that is not in normal form is refused, where the code normalises it; dependencies are kept in the order in which they are stored, and their maps compared as sets.
- ArtifactFields.OutputBack: result values are known by the pieces that their serializer writes; that it reads its own bytes back is a hypothesis of the theorems that need it. Counts and lengths take 64 bits.
- HookGate.Runtime.ResolveCommit: the bound on the reason text, the approval's time window beyond its expiry, and receipts are not modelled; cancellation before the commit is a thread that abandons its decision.
- Session.SessionsNeverMix: sequence numbers are unbounded, where the code fails the session when they overflow; frame contents beyond the request's identity, limits and accounting are not modelled.
- Snapshot.CaptureSnapshot: the tree is quiescent and every name is representable, so the stability check and the name errors do not arise; lazily loaded content is not captured.
- The message codec of the worker protocol, the guest interpreters, policies, the blob and transaction stores, the Python packages and the command-line tools.
