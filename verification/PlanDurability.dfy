/**
 Which prepared plans survive the trip to disk and back.
 */
module PlanDurability {
  import opened Types
  import opened Engine
  import opened Paths
  import opened Planning
  import opened Ordering
  import opened Correctness
  import opened PlanCodec
  import opened OperationLog

  /** A diff entry is a change, at a path that has a textual form. */
  ghost predicate RealChanges(diff: seq<DiffEntry>) {
    forall e :: e in diff ==> e.before != e.after && ValidPath(e.path)
  }

  // ------------------------------------------------------------------- slots

  predicate SlotBelow(op: Operation, bound: nat) {
    op.Quarantine? || op.InstallFile? || op.InstallSymlink? ==> op.slot < bound
  }

  lemma ContentSlots(plan: CommitPlan)
    requires Canonical(plan.diff) && Quotable(plan)
    ensures forall op :: op in ContentOps(plan, plan.diff, |RootEntries(plan.diff)|) ==> SlotBelow(op, SlotCount(plan.diff))
  {
    hide ContentOps, RootEntries, Justified, InOrder;
    ContentOpsOrdered(plan, plan.diff, |RootEntries(plan.diff)|);
  }

  /** Only quarantines and contents have slots. */
  lemma GroupSlots(l: Lowering, slots: nat, op: Operation)
    requires forall x :: x in l.grants || x in l.restrictions ==> x.SetDirectoryMode?
    requires forall x :: x in l.creates ==> x.CreateDirectory?
    requires forall i :: 0 <= i < |l.quarantines| ==> l.quarantines[i].Quarantine? && l.quarantines[i].slot == i
    requires |l.quarantines| <= slots && forall x :: x in l.contents ==> SlotBelow(x, slots)
    requires op in l.Ops()
    ensures SlotBelow(op, slots)
  {
  }

  lemma SlotsBelow(plan: CommitPlan)
    requires Canonical(plan.diff) && ModesAgree(plan)
    ensures forall op :: op in Lower(plan).Ops() ==> SlotBelow(op, SlotCount(plan.diff))
  {
    hide SlotBelow, ContentOps, RootEntries;
    var l := Lower(plan);
    ContentSlots(plan);
    forall op | op in l.Ops()
      ensures SlotBelow(op, SlotCount(plan.diff))
    {
      GroupSlots(l, SlotCount(plan.diff), op);
    }
  }

  // ------------------------------------------------------ what the plan carries

  /** A state observed on a host node is one the decoder accepts. */
  lemma ObservedDecodes(s: NodeState, n: Node)
    requires Observed(s, n)
    ensures Decodable(s, false)
  {
  }

  /** An entry that keeps its content changes the mode, and only to permission bits. */
  lemma KeptMode(plan: CommitPlan, e: DiffEntry)
    requires EntryError(plan, e).None? && KeepsContent(e) && e.before != e.after
    ensures e.after.value.mode < 0x200
  {
  }

  lemma OperationDecodes(plan: CommitPlan, op: Operation, e: DiffEntry, base: Tree, final: Image, shifted: bool)
    requires Serves(plan, op, e) && EntryTrue(plan, e, base, final) && EntryError(plan, e).None?
    requires e.before != e.after && ValidPath(e.path) && Short(e.path)
    requires SlotBelow(op, 0x1_0000_0000) && (op.SetFileMode? ==> shifted)
    ensures DecodableOperation(op, shifted)
  {
    if e.before.Some? {
      ObservedDecodes(plan.writeSet[e.path].value, base[e.path]);
    }
    if op.SetFileMode? {
      KeptMode(plan, e);
    }
  }

  lemma FinalDecodes(plan: CommitPlan, e: DiffEntry, base: Tree, final: Image, shifted: bool)
    requires EntryTrue(plan, e, base, final) && EntryError(plan, e).None?
    requires e.before != e.after && ValidPath(e.path) && Short(e.path)
    requires KeepsContent(e) ==> shifted
    ensures DecodableFinal(FinalState(e), shifted)
  {
    if KeepsContent(e) {
      KeptMode(plan, e);
      ObservedDecodes(e.before.value, base[e.path]);
    }
  }

  lemma OperationsDecode(plan: CommitPlan, p: PreparedPlan, base: Tree, final: Image, i: nat)
    requires ExactDiff(plan, base, final) && ModesAgree(plan) && RealChanges(plan.diff)
    requires p.operations == Lower(plan).Ops() && SlotCount(plan.diff) <= MAX_U32 && Encodable(p)
    requires i < |p.operations|
    ensures DecodableOperation(p.operations[i], SetsFileMode(p.operations))
  {
    hide Lower, SlotCount, DecodableOperation, EntryError;
    LoweredIsOrderly(plan);
    SlotsBelow(plan);
    var op := p.operations[i];
    assert op in p.operations && Justified(plan, op);
    var e :| Serves(plan, op, e);
    var j :| 0 <= j < |plan.diff| && plan.diff[j] == e;
    assert EntryTrue(plan, e, base, final);
    assert Short(p.operations[i].path);
    OperationDecodes(plan, op, e, base, final, SetsFileMode(p.operations));
  }

  lemma FinalsDecode(plan: CommitPlan, p: PreparedPlan, base: Tree, final: Image, i: nat)
    requires ExactDiff(plan, base, final) && ModesAgree(plan) && RealChanges(plan.diff)
    requires p.operations == Lower(plan).Ops() && p.finalStates == FinalStates(plan.diff) && Encodable(p)
    requires i < |plan.diff|
    ensures DecodableFinal(p.finalStates[i], SetsFileMode(p.operations))
  {
    LoweredIsOrderly(plan);
    var e := plan.diff[i];
    assert e in plan.diff && EntryTrue(plan, e, base, final);
    assert Served(plan, p.operations, e);
    assert Short(p.finalStates[i].0);
    if KeepsContent(e) {
      var k :| 0 <= k < |p.operations| && p.operations[k] == ContentOp(plan, e, 0);
    }
    FinalDecodes(plan, e, base, final, SetsFileMode(p.operations));
  }

  /** Recovery's bounds, asked of the diff. */
  predicate DiffFits(diff: seq<DiffEntry>, maxOperations: nat, maxPath: nat) {
    |diff| <= maxOperations && forall i :: 0 <= i < |diff| ==> |Text(diff[i].path)| <= maxPath
  }

  /**
   A plan prepared from an exact diff and encoded is read back as it was exactly when the diff
   itself, and not only the operations, is within the bounds; otherwise recovery refuses it.
   */
  lemma PreparedReadsBack(hash: Hash, plan: CommitPlan, base: Tree, final: Image, p: PreparedPlan,
                          maxOperations: nat, maxPath: nat)
    requires ExactDiff(plan, base, final) && ModesAgree(plan) && RealChanges(plan.diff)
    requires Prepared(plan, p.transaction, p.baseSnapshot, maxOperations, maxPath, Ok(p)) && Encodable(p)
    ensures Decode(hash, Sealed(hash, Body(p)), maxOperations, maxPath)
            == if DiffFits(plan.diff, maxOperations, maxPath) then Ok(p) else Err(Limit)
  {
    hide Lower, SlotCount, Decode, Sealed, Body;
    forall i | 0 <= i < |p.operations|
      ensures DecodableOperation(p.operations[i], SetsFileMode(p.operations))
    {
      OperationsDecode(plan, p, base, final, i);
    }
    forall i | 0 <= i < |p.finalStates|
      ensures DecodableFinal(p.finalStates[i], SetsFileMode(p.operations))
    {
      FinalsDecode(plan, p, base, final, i);
    }
    RoundTrip(hash, p, maxOperations, maxPath);
    assert forall i :: 0 <= i < |plan.diff| ==> p.finalStates[i].0 == plan.diff[i].path;
  }

  // ------------------------------------------------------ the bound is needed

  /** What the host says of a directory with this inode. */
  function DirectoryStamp(inode: u64): FileStamp {
    FileStamp(Directory, 0, 0x1ed, 0, None, FileId(0, inode))
  }

  /** Delete directory "a" and the file "b" inside it. */
  function DeletionPlan(blob: Digest): CommitPlan {
    var a: Path := [[97]];
    var b: Path := [[97], [98]];
    var root, directory, file := FromStamp(DirectoryStamp(1)), FromStamp(DirectoryStamp(2)), NodeState(File, 1, 0x1a4, Blob(blob));
    CommitPlan(
      [DiffEntry(a, Some(directory), None, false), DiffEntry(b, Some(file), None, false)],
      map[[] := ReadObservation(Some(Some(root)), None, None), a := ReadObservation(Some(Some(directory)), None, None)],
      map[a := Some(directory), b := Some(file)])
  }

  lemma DeletionRoots(blob: Digest)
    ensures RootEntries(DeletionPlan(blob).diff) == [DeletionPlan(blob).diff[0]]
  {
    var diff := DeletionPlan(blob).diff;
    var x, y := diff[0], diff[1];
    assert diff == [x, y] && diff[..1] == [x] && [x][..0] == [];
    assert Select([x], Destructive) == [x];
    assert Select(diff, Destructive) == [x, y];
    assert [x, y][1..] == [y] && [y][1..] == [];
    assert SortBy([y], Depth) == [y];
    assert SortBy([x, y], Depth) == [x, y];
    assert Roots([x]) == [x];
    assert [x][0].path <= y.path;
    assert Covered([x], y);
  }

  lemma {:induction false} SelectsNothing(diff: seq<DiffEntry>, wanted: DiffEntry -> bool)
    requires forall e :: e in diff ==> !wanted(e)
    ensures Select(diff, wanted) == []
  {
    if diff != [] {
      SelectsNothing(diff[..|diff| - 1], wanted);
    }
  }

  lemma {:induction false} NoContents(plan: CommitPlan, diff: seq<DiffEntry>, first: nat)
    requires forall e :: e in diff ==> !NeedsContent(e) && (e.before.Some? ==> Expects(plan, e))
    ensures ContentOps(plan, diff, first) == []
  {
    if diff != [] {
      NoContents(plan, diff[..|diff| - 1], first);
    }
  }

  /** A diff that only deletes lowers to the quarantine of its roots. */
  lemma DeletionsLower(plan: CommitPlan)
    requires Quotable(plan) && forall e :: e in plan.diff ==> e.after.None?
    ensures (forall e :: e in RootEntries(plan.diff) ==> Expects(plan, e))
    ensures Lower(plan).Ops() == QuarantineOps(plan, RootEntries(plan.diff))
    ensures SlotCount(plan.diff) == |RootEntries(plan.diff)|
  {
    RootEntriesMembers(plan.diff);
    SelectsNothing(plan.diff, NeedsCreate);
    SelectsNothing(plan.diff, Grants);
    SelectsNothing(plan.diff, Restricts);
    SelectsNothing(plan.diff, Slotted);
    NoContents(plan, plan.diff, |RootEntries(plan.diff)|);
    var quarantines := QuarantineOps(plan, RootEntries(plan.diff));
    assert [] + quarantines + [] + [] + [] == quarantines;
  }

  lemma DeletionDecodes(p: PreparedPlan, blob: Digest, maxOperations: nat, maxPath: nat)
    requires p.operations == [QuarantineOp(DeletionPlan(blob), DeletionPlan(blob).diff[0], 0)]
    requires p.finalStates == FinalStates(DeletionPlan(blob).diff)
    requires maxOperations >= 1 && maxPath >= 1
    ensures Expressible(p) && Encodable(p) && OperationsFit(p, maxOperations, maxPath)
    ensures FinalStatesFit(p, maxOperations, maxPath) <==> maxOperations >= 2 && maxPath >= 3
    ensures DiffFits(DeletionPlan(blob).diff, maxOperations, maxPath) <==> maxOperations >= 2 && maxPath >= 3
  {
    var a: Path := [[97]];
    var b: Path := [[97], [98]];
    assert Text(a) == [97];
    assert b[1..] == [[98]];
    assert Text(b) == [97, 47, 98];
    assert ValidPath(a) && ValidPath(b);
    assert DeletionPlan(blob).diff[1].path == b && p.finalStates[1].0 == b;
  }

  lemma DeletionAdmissible(blob: Digest)
    ensures Quotable(DeletionPlan(blob)) && Admissible(DeletionPlan(blob))
  {
    var plan := DeletionPlan(blob);
    var a: Path := [[97]];
    var b: Path := [[97], [98]];
    assert Parent(a) == [] && Parent(b) == a;
    assert EntryError(plan, plan.diff[0]).None?;
    assert EntryError(plan, plan.diff[1]).None?;
  }

  lemma DeletionPrepares(transaction: Digest, snapshot: Digest, blob: Digest, maxOperations: nat, maxPath: nat)
    returns (p: PreparedPlan)
    requires maxOperations >= 1 && maxPath >= 1
    ensures Quotable(DeletionPlan(blob)) && p.transaction == transaction && p.baseSnapshot == snapshot
    ensures p.operations == [QuarantineOp(DeletionPlan(blob), DeletionPlan(blob).diff[0], 0)]
    ensures p.finalStates == FinalStates(DeletionPlan(blob).diff)
    ensures Prepared(DeletionPlan(blob), transaction, snapshot, maxOperations, maxPath, Ok(p))
  {
    hide Lower, QuarantineOps, FinalStates, Encodable, RootEntries, Admissible;
    var plan := DeletionPlan(blob);
    DeletionAdmissible(blob);
    DeletionRoots(blob);
    DeletionsLower(plan);
    p := PreparedPlan(transaction, snapshot, QuarantineOps(plan, RootEntries(plan.diff)), FinalStates(plan.diff));
    assert p.operations == [QuarantineOp(plan, plan.diff[0], 0)];
    hide QuarantineOps, FinalStates, Encodable;
    DeletionDecodes(p, blob, maxOperations, maxPath);
  }

  /** One operation, two final states: admitted under a bound of one, refused by recovery. */
  lemma PreparedPlanCanBeUnreadable(hash: Hash, transaction: Digest, snapshot: Digest, blob: Digest) returns (p: PreparedPlan)
    ensures Quotable(DeletionPlan(blob)) && Admissible(DeletionPlan(blob))
    ensures Prepared(DeletionPlan(blob), transaction, snapshot, 1, 16, Ok(p))
    ensures Encodable(p) && |p.operations| == 1
    ensures Decode(hash, Sealed(hash, Body(p)), 1, 16) == Err(Limit)
  {
    DeletionAdmissible(blob);
    p := DeletionPrepares(transaction, snapshot, blob, 1, 16);
    DeletionDecodes(p, blob, 1, 16);
    RoundTrip(hash, p, 1, 16);
  }
}
