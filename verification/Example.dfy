/**
 One concrete transaction, deleting a directory with a file in it, taken through a commit, a
 crash at its most delicate points, and recovery. It shows that the hypotheses of the theorems
 about recovery are met, and that recovering twice is not the same as recovering once.
 */
module Example {
  import opened Types
  import opened Engine
  import opened Rollback
  import opened Planning
  import opened Ordering
  import opened Correctness
  import opened OperationLog
  import opened PlanCodec
  import opened PlanDurability
  import opened CrashRecovery
  import opened Overlaying
  import opened CommitRun
  import opened EndToEnd
  import Reentry

  const DIRECTORY: Path := [[97]]
  const FILE: Path := [[97], [98]]

  function DirectoryNode(inode: u64): Node {
    Node(DirectoryStamp(inode), NoBytes)
  }

  /** The workspace root, a directory "a" and a file "a/b" of one byte. */
  function BaseTree(blob: Digest): Tree {
    map[[] := DirectoryNode(1),
        DIRECTORY := DirectoryNode(2),
        FILE := Node(FileStamp(File, 1, 0x1a4, 0, None, FileId(0, 3)), Bytes(blob))]
  }

  const EMPTIED: Image := map[[] := DirectoryState(0x1ed)]

  lemma DeletionIsTrue(blob: Digest)
    ensures WellFormed(BaseTree(blob)) && WellFormedImage(EMPTIED) && Canonical(DeletionPlan(blob).diff)
    ensures DeletionPlan(blob).diff[0].path == DIRECTORY && DeletionPlan(blob).diff[1].path == FILE
    ensures forall e :: e in DeletionPlan(blob).diff ==> EntryTrue(DeletionPlan(blob), e, BaseTree(blob), EMPTIED)
  {
    assert Parent(DIRECTORY) == [] && Parent(FILE) == DIRECTORY;
  }

  lemma DeletionIsExact(blob: Digest)
    ensures ExactDiff(DeletionPlan(blob), BaseTree(blob), EMPTIED)
    ensures NoMarkerClash(DeletionPlan(blob), EMPTIED) && RealChanges(DeletionPlan(blob).diff)
  {
    var plan, base := DeletionPlan(blob), BaseTree(blob);
    DeletionAdmissible(blob);
    DeletionIsTrue(blob);
    assert plan.diff[0] in plan.diff && plan.diff[1] in plan.diff;
    forall p | Differs(base, EMPTIED, p)
      ensures Named(plan, p)
    {
      assert p == DIRECTORY || p == FILE;
    }
  }

  /** The host before the commit, and after its one operation. */
  function Before(blob: Digest): Host {
    Host(BaseTree(blob), map[], map[], map[])
  }

  function Deleted(blob: Digest): Host {
    Host(Without(BaseTree(blob), DIRECTORY), map[], map[], map[0 := Relative(BaseTree(blob), DIRECTORY)])
  }

  function DeletionAttempt(transaction: Digest, blob: Digest): Attempt {
    Attempt(transaction, [Quarantine(DIRECTORY, FromStamp(DirectoryStamp(2)), 0)], [Alloc(FileId(0, 4), FileId(0, 5))])
  }

  function DeletionRecords(): seq<Record> {
    [Intent(0, None, Witness(Directory, FileId(0, 1))), Completed(0, Witness(Directory, FileId(0, 2)))]
  }

  lemma DeletedIsEmpty(blob: Digest)
    ensures Deleted(blob).tree.Keys == {[]}
  {
    assert DIRECTORY <= FILE;
  }

  lemma DeletionRuns(transaction: Digest, blob: Digest)
    ensures StepsTo(DeletionAttempt(transaction, blob), 0, Before(blob), Deleted(blob))
  {
    hide StepsTo, Without, Relative;
    var a, h := DeletionAttempt(transaction, blob), Before(blob);
    assert Parent(DIRECTORY) == [];
    assert StateMatches(h.tree, DIRECTORY, Some(a.ops[0].expected));
    QuarantineRuns(a, 0, h);
  }

  /** The operation runs, and both of its records are true. */
  lemma DeletionExecutes(transaction: Digest, blob: Digest)
    ensures var a, hosts := DeletionAttempt(transaction, blob), [Before(blob), Deleted(blob)];
            && Executes(a, hosts) && Shaped(a.ops, 1) && Recorded(a, hosts, DeletionRecords())
            && Awaits(a.ops[0], hosts[0]) && Deleted(blob).tree.Keys == {[]}
  {
    hide Without, Relative, StepsTo, WellFormed;
    var a, hosts, rs := DeletionAttempt(transaction, blob), [Before(blob), Deleted(blob)], DeletionRecords();
    assert Parent(DIRECTORY) == [];
    DeletionIsTrue(blob);
    DeletionRuns(transaction, blob);
    assert Ran(a, hosts, 0);
    assert RecordTrue(a, hosts, rs, 0);
    assert RecordTrue(a, hosts, rs, 1);
    DeletedIsEmpty(blob);
  }

  lemma DeletionMeets(c: Config, hash: Hash, a: Attempt, p: PreparedPlan, blob: Digest)
    requires c.maxOperations == 2 && c.maxPathBytes == 3 && Roomy(c, a) && |Sealed(hash, Body(p))| <= c.maxPlanBytes
    requires a.transaction == p.transaction && a.ops == p.operations && |a.allocs| == 1
    requires p.operations == [QuarantineOp(DeletionPlan(blob), DeletionPlan(blob).diff[0], 0)]
    requires p.finalStates == FinalStates(DeletionPlan(blob).diff)
    requires Quotable(DeletionPlan(blob)) && Prepared(DeletionPlan(blob), p.transaction, p.baseSnapshot, 2, 3, Ok(p))
    ensures Accepted(c, hash, DeletionPlan(blob), a, p, Sealed(hash, Body(p)), BaseTree(blob), EMPTIED)
  {
    DeletionIsExact(blob);
    DeletionDecodes(p, blob, 2, 3);
    PreparedIsAccepted(c, hash, DeletionPlan(blob), p, a.allocs, BaseTree(blob), EMPTIED);
  }

  /** Preparation and encoding under the smallest bounds that admit this transaction. */
  lemma DeletionAccepted(hash: Hash, transaction: Digest, snapshot: Digest, blob: Digest) returns (c: Config, p: PreparedPlan)
    ensures Accepted(c, hash, DeletionPlan(blob), DeletionAttempt(transaction, blob), p, Sealed(hash, Body(p)), BaseTree(blob), EMPTIED)
  {
    p := DeletionPrepares(transaction, snapshot, blob, 2, 3);
    c := Config(2, 2, 3, |Sealed(hash, Body(p))|, 8 + 179 * 2, 1);
    DeletionMeets(c, hash, DeletionAttempt(transaction, blob), p, blob);
  }

  /** The disk after the operation, with the first `n` of its records durable. */
  function DiskAfter(hash: Hash, p: PreparedPlan, blob: Digest, n: nat, marker: bool): Disk
    requires n <= 2
  {
    Disk(Deleted(blob).tree, Some(Committing),
         Some(Workspace(Sealed(hash, Body(p)), Log(hash, false, DeletionRecords()[..n]), map[], map[], Deleted(blob).quarantine, marker)))
  }

  lemma DeletionLeavesOver(hash: Hash, transaction: Digest, p: PreparedPlan, blob: Digest, n: nat)
    requires 1 <= n <= 2
    ensures var d := DiskAfter(hash, p, blob, n, false);
            && Leftover(hash, DeletionAttempt(transaction, blob), [Before(blob), Deleted(blob)], d.tree, d.workspace.value,
                     DeletionRecords()[..n], {})
            && |d.workspace.value.journal| <= 8 + 179
  {
    var a, hosts := DeletionAttempt(transaction, blob), [Before(blob), Deleted(blob)];
    DeletionExecutes(transaction, blob);
    PrefixRecorded(a, hosts, DeletionRecords(), n);
    HoldsWhole(hash, a, hosts, DeletionRecords()[..n]);
    var d := DiskAfter(hash, p, blob, n, false);
    HeldFits(hash, a, hosts, d.workspace.value.journal, DeletionRecords()[..n]);
    assert After(HostOf(d.tree, d.workspace.value), hosts[1], {});
  }

  /** Lost after the operation, with or without its completion record: both entries come back. */
  lemma DeletionUnwinds(hash: Hash, transaction: Digest, snapshot: Digest, blob: Digest, n: nat) returns (c: Config, p: PreparedPlan)
    requires 1 <= n <= 2
    ensures p.transaction == transaction
    ensures RecoverDisk(c, hash, DiskAfter(hash, p, blob, n, false))
            == (Disk(BaseTree(blob), Some(TransactionState.Failed), None), RolledBack)
  {
    var a, hosts := DeletionAttempt(transaction, blob), [Before(blob), Deleted(blob)];
    c, p := DeletionAccepted(hash, transaction, snapshot, blob);
    DeletionLeavesOver(hash, transaction, p, blob, n);
    LeftoverIsUnwound(c, hash, a, p, hosts, DiskAfter(hash, p, blob, n, false), DeletionRecords()[..n], {});
  }

  lemma DeletionFinishes(transaction: Digest, blob: Digest)
    requires Planned(DeletionPlan(blob), DeletionAttempt(transaction, blob), BaseTree(blob), EMPTIED)
    requires NoMarkerClash(DeletionPlan(blob), EMPTIED)
    ensures var a, hosts := DeletionAttempt(transaction, blob), [Before(blob), Deleted(blob)];
            CrashRecovery.Finished(DeletionPlan(blob), a, hosts, EMPTIED, Deleted(blob).tree)
  {
    hide ExactDiff, Orderly, Quotable, Executes, NoMarkerClash;
    var a := DeletionAttempt(transaction, blob);
    DeletionExecutes(transaction, blob);
    assert Markers(a.ops, 1) == {};
    assert Deleted(blob).tree - {} == Deleted(blob).tree;
  }

  lemma DeletionJournaled(hash: Hash, transaction: Digest, blob: Digest)
    ensures var a, hosts := DeletionAttempt(transaction, blob), [Before(blob), Deleted(blob)];
            && a.Valid() && Holds(hash, a, hosts, Log(hash, false, DeletionRecords()[..2]), DeletionRecords())
            && |Log(hash, false, DeletionRecords()[..2])| <= 8 + 179
  {
    var a, hosts := DeletionAttempt(transaction, blob), [Before(blob), Deleted(blob)];
    DeletionExecutes(transaction, blob);
    HoldsWhole(hash, a, hosts, DeletionRecords());
    HeldFits(hash, a, hosts, Log(hash, false, DeletionRecords()), DeletionRecords());
    assert DeletionRecords()[..2] == DeletionRecords();
  }

  /** Lost after the commit marker, the transaction is finalized and both entries are gone. */
  lemma DeletionFinalizes(hash: Hash, transaction: Digest, snapshot: Digest, blob: Digest) returns (c: Config, p: PreparedPlan)
    ensures p.transaction == transaction
    ensures RecoverDisk(c, hash, DiskAfter(hash, p, blob, 2, true))
            == (Disk(Deleted(blob).tree, Some(Committed), None), Finalized)
    ensures Realizes(Deleted(blob).tree, EMPTIED)
  {
    var a, hosts := DeletionAttempt(transaction, blob), [Before(blob), Deleted(blob)];
    c, p := DeletionAccepted(hash, transaction, snapshot, blob);
    DeletionIsExact(blob);
    DeletionFinishes(transaction, blob);
    DeletionJournaled(hash, transaction, blob);
    MarkedIsFinalized(c, hash, DeletionPlan(blob), a, p, hosts, EMPTIED, DiskAfter(hash, p, blob, 2, true), DeletionRecords());
  }

  lemma DeletionIsPrivate(transaction: Digest, blob: Digest)
    ensures var a := DeletionAttempt(transaction, blob);
            a.Valid() && Reentry.Private(a, Before(blob))
  {
  }

  /** The tree is already the base, and yet recovery calls it a conflict; settled or not. */
  lemma SecondRecoveryConflicts(hash: Hash, transaction: Digest, snapshot: Digest, blob: Digest, settled: bool)
    returns (c: Config, p: PreparedPlan, lost: Disk)
    ensures p.transaction == transaction && |p.operations| == 1
    ensures lost == RecoveryLost(c, hash, DiskAfter(hash, p, blob, 2, false), if settled then Settling else Undoing(0))
    ensures lost.tree == BaseTree(blob) && lost.state == Some(if settled then TransactionState.Failed else RecoveryRequired)
    ensures RecoverDisk(c, hash, lost) == (lost, Conflicted)
  {
    hide DiskAfter, Leftover, Decode, RecoverDisk, RecoveryLost, Interrupted, ReadLog, Before, Deleted, DeletionRecords, Reentry.Private;
    var a, hosts := DeletionAttempt(transaction, blob), [Before(blob), Deleted(blob)];
    c, p := DeletionAccepted(hash, transaction, snapshot, blob);
    DeletionLeavesOver(hash, transaction, p, blob, 2);
    DeletionIsPrivate(transaction, blob);
    DeletionDisk(hash, p, blob);
    lost := UndoneDeletion(c, hash, a, p, hosts, DiskAfter(hash, p, blob, 2, false), DeletionRecords()[..2],
                           if settled then Settling else Undoing(0));
  }

  lemma DeletionDisk(hash: Hash, p: PreparedPlan, blob: Digest)
    ensures var d := DiskAfter(hash, p, blob, 2, false);
            && d.workspace.Some? && d.workspace.value.plan == Sealed(hash, Body(p)) && d.state == Some(Committing)
    ensures Before(blob).tree == BaseTree(blob) && |DeletionRecords()| == 2
  {
  }

  /** Lose the recovery of a leftover after everything was undone, and recover again. */
  lemma UndoneDeletion(c: Config, hash: Hash, a: Attempt, p: PreparedPlan, hosts: seq<Host>, d: Disk, rs: seq<Record>, loss: Loss)
    returns (lost: Disk)
    requires d.workspace.Some? && |d.workspace.value.journal| <= c.maxJournalBytes && PlanHeld(c, hash, a, p, d.workspace.value.plan) && d.state == Some(Committing)
    requires Leftover(hash, a, hosts, d.tree, d.workspace.value, rs, {}) && Stop(loss, |a.ops|) == 0
    requires Reentry.Private(a, hosts[0]) && |rs| >= 2 && !a.ops[0].IsMode()
    ensures lost == RecoveryLost(c, hash, d, loss) && lost.tree == hosts[0].tree
    ensures lost.state == Some(if loss.Settling? then TransactionState.Failed else RecoveryRequired)
    ensures RecoverDisk(c, hash, lost) == (lost, Conflicted)
  {
    hide RecoverDisk, RecoveryLost, Decode, ReadLog, Shaped, Holds, Reentry.Private, HalfUnwound, Interrupted, Journaled, Awaits;
    var js := HeldReadsBack(c, hash, a, hosts, d.workspace.value.journal, rs);
    lost := Interrupted(d, p, js, loss);
    RecordedIsJournaled(a, hosts, rs, js);
    InterruptedIsHalfUnwound(hash, a, p, hosts, d, js, rs, loss, {});
    LostIsInterrupted(c, hash, a, d, p, js, loss);
    UndoneRecoveryConflicts(c, hash, a, p, hosts, d, js, rs, loss, {});
  }

  // ------------------------------------------------- a live tree that moved on

  const OTHER: Path := [[122]]

  /** Since the snapshot, a file was edited that the plan has nothing to do with. */
  function EditedSince(t: Tree, blob: Digest, inode: u64): Tree {
    t[OTHER := Node(FileStamp(File, 1, 0x1a4, 7, None, FileId(0, inode)), Bytes(blob))]
  }

  lemma EditedIsSound(blob: Digest, beside: Digest, inode: u64)
    ensures var t := EditedSince(BaseTree(blob), beside, inode); WellFormed(t) && Concrete(t)
  {
    assert Parent(DIRECTORY) == [] && Parent(FILE) == DIRECTORY && Parent(OTHER) == [];
  }

  lemma NothingElseChanged(blob: Digest, before: Digest, now: Digest)
    ensures Trusted(EditedSince(BaseTree(blob), before, 8), EditedSince(BaseTree(blob), now, 9))
  {
    hide WellFormed, Concrete;
    var snapshot, live := EditedSince(BaseTree(blob), before, 8), EditedSince(BaseTree(blob), now, 9);
    EditedIsSound(blob, now, 9);
    assert live.Keys == snapshot.Keys;
    forall p | p in snapshot && p in live && snapshot[p].stamp == live[p].stamp
      ensures Vouches(snapshot, live, p)
    {
      assert p != OTHER;
    }
  }

  lemma DeletionOverlay(blob: Digest, before: Digest, now: Digest)
    ensures Overlay(EditedSince(BaseTree(blob), now, 9), DeletionPlan(blob), EMPTIED[OTHER := NodeState(File, 1, 0x1a4, Blob(before))])
            == EMPTIED[OTHER := NodeState(File, 1, 0x1a4, Blob(now))]
  {
    var plan, live := DeletionPlan(blob), EditedSince(BaseTree(blob), now, 9);
    var was, becomes := EMPTIED[OTHER := NodeState(File, 1, 0x1a4, Blob(before))], EMPTIED[OTHER := NodeState(File, 1, 0x1a4, Blob(now))];
    assert plan.diff[0] in plan.diff && plan.diff[1] in plan.diff;
    assert Named(plan, DIRECTORY) && Named(plan, FILE) && !Named(plan, OTHER) && !Named(plan, []);
    assert Overlay(live, plan, was).Keys == becomes.Keys;
  }

  lemma DeletionObserved(blob: Digest, before: Digest, now: Digest)
    ensures Snapshotted(DeletionPlan(blob), EditedSince(BaseTree(blob), before, 8))
    ensures StillTrue(DeletionPlan(blob), EditedSince(BaseTree(blob), now, 9))
  {
  }

  /**
   The plan, made against a tree in which "z" held one thing, carries over to a tree in which it
   holds another, and then leads to that tree without the directory.
   */
  lemma DeletionCarriesOver(blob: Digest, before: Digest, now: Digest)
    ensures var snapshot, live := EditedSince(BaseTree(blob), before, 8), EditedSince(BaseTree(blob), now, 9);
            var final := EMPTIED[OTHER := NodeState(File, 1, 0x1a4, Blob(before))];
            && Carries(DeletionPlan(blob), snapshot, final, live)
            && Overlay(live, DeletionPlan(blob), final) == EMPTIED[OTHER := NodeState(File, 1, 0x1a4, Blob(now))]
  {
    hide ExactDiff, Overlay, Trusted, Snapshotted, StillTrue;
    DeletionBeside(blob, before);
    NothingElseChanged(blob, before, now);
    DeletionObserved(blob, before, now);
    DeletionOverlay(blob, before, now);
  }

  lemma BesideIsTrue(blob: Digest, beside: Digest, e: DiffEntry)
    requires e in DeletionPlan(blob).diff
    ensures var final := EMPTIED[OTHER := NodeState(File, 1, 0x1a4, Blob(beside))];
            EntryTrue(DeletionPlan(blob), e, EditedSince(BaseTree(blob), beside, 8), final)
  {
    DeletionIsTrue(blob);
  }

  lemma DeletionBeside(blob: Digest, beside: Digest)
    ensures ExactDiff(DeletionPlan(blob), EditedSince(BaseTree(blob), beside, 8), EMPTIED[OTHER := NodeState(File, 1, 0x1a4, Blob(beside))])
  {
    hide Admissible, WellFormed, Concrete, EntryTrue;
    var plan, base := DeletionPlan(blob), EditedSince(BaseTree(blob), beside, 8);
    var final := EMPTIED[OTHER := NodeState(File, 1, 0x1a4, Blob(beside))];
    DeletionAdmissible(blob);
    EditedIsSound(blob, beside, 8);
    DeletionIsTrue(blob);
    assert Parent(OTHER) == [];
    assert plan.diff[0] in plan.diff && plan.diff[1] in plan.diff;
    forall e | e in plan.diff
      ensures EntryTrue(plan, e, base, final)
    {
      BesideIsTrue(blob, beside, e);
    }
    forall p | Differs(base, final, p)
      ensures Named(plan, p)
    {
      assert p == DIRECTORY || p == FILE;
    }
  }
}
