/**
 The shape of every lowered plan: which entry justifies each operation, that every entry is
 served, and what may precede what.
 */
module Ordering {
  import opened Types
  import opened Planning

  /** Canonical diffs name each path once. */
  ghost predicate Canonical(diff: seq<DiffEntry>) {
    && (forall i, j :: 0 <= i < j < |diff| ==> diff[i].path != diff[j].path)
    && (forall e :: e in diff ==> e.path != [])
  }

  /** The quoted old state has the mode the entry started from. */
  ghost predicate ModesAgree(plan: CommitPlan) {
    && Quotable(plan)
    && forall e :: e in plan.diff && e.before.Some? ==>
                     plan.writeSet[e.path].value.mode == e.before.value.mode
  }

  /** The operation does what this entry asks for. */
  ghost predicate Serves(plan: CommitPlan, op: Operation, e: DiffEntry) {
    && e in plan.diff && e.path == op.path
    && match op
       case Quarantine(_, expected, _) => Destructive(e) && plan.writeSet.Keys >= {e.path} && plan.writeSet[e.path] == Some(expected)
       case CreateDirectory(_, _) => NeedsCreate(e) && op == CreateOp(e)
       case InstallFile(_, after, _) =>
         Slotted(e) && e.after == Some(after) && after.kind == File
       case InstallSymlink(_, after, _) =>
         Slotted(e) && e.after == Some(after) && after.kind == Symlink
       case SetFileMode(_, _, _) => KeepsContent(e) && Expects(plan, e) && op == ContentOp(plan, e, 0)
       case SetDirectoryMode(_, _, _) => ChangesDirectoryMode(e) && Expects(plan, e) && op == DirectoryModeOp(plan, e)
  }

  ghost predicate Justified(plan: CommitPlan, op: Operation) {
    exists e :: Serves(plan, op, e)
  }

  predicate IsGrant(op: Operation) {
    op.SetDirectoryMode? && !OwnerWrite(op.expected.mode) && OwnerWrite(op.afterMode)
  }

  function PhaseOf(op: Operation): nat {
    match op
    case Quarantine(_, _, _) => 1
    case CreateDirectory(_, _) => 2
    case SetDirectoryMode(_, _, _) => if IsGrant(op) then 0 else 4
    case _ => 3
  }

  predicate IsInstall(op: Operation) {
    op.InstallFile? || op.InstallSymlink?
  }

  /** `x` may run before `y`. */
  predicate Precedes(x: Operation, y: Operation) {
    && PhaseOf(x) <= PhaseOf(y)
    && (x.CreateDirectory? && y.CreateDirectory? ==> |x.path| <= |y.path|)
    && (x.Quarantine? && y.Quarantine? ==> !(x.path <= y.path) && !(y.path <= x.path) && x.slot != y.slot)
    && (!x.Quarantine? && !y.Quarantine? ==> x.path != y.path)
    && (IsInstall(x) && IsInstall(y) ==> x.slot != y.slot)
  }

  ghost predicate InOrder(ops: seq<Operation>) {
    forall i, j :: 0 <= i < j < |ops| ==> Precedes(ops[i], ops[j])
  }

  /** Every entry finds the operations it needs. */
  ghost predicate Served(plan: CommitPlan, ops: seq<Operation>, e: DiffEntry)
    requires e.before.Some? ==> Expects(plan, e)
  {
    && (Destructive(e) ==> exists op :: op in ops && op.Quarantine? && op.path <= e.path)
    && (NeedsCreate(e) ==> CreateOp(e) in ops)
    && (KeepsContent(e) ==> ContentOp(plan, e, 0) in ops)
    && (Slotted(e) ==> exists op :: op in ops && IsInstall(op) && op.path == e.path)
    && (ChangesDirectoryMode(e) ==> DirectoryModeOp(plan, e) in ops)
  }

  ghost predicate Orderly(plan: CommitPlan, ops: seq<Operation>)
    requires Quotable(plan)
  {
    && InOrder(ops)
    && (forall op :: op in ops ==> Justified(plan, op))
    && (forall e :: e in plan.diff ==> Served(plan, ops, e))
  }

  // -------------------------------------------------------- distinct entries

  ghost predicate DistinctPaths(s: seq<DiffEntry>) {
    forall i, j :: 0 <= i < j < |s| ==> s[i].path != s[j].path
  }

  lemma {:induction false} SelectDistinct(s: seq<DiffEntry>, wanted: DiffEntry -> bool)
    requires DistinctPaths(s)
    ensures DistinctPaths(Select(s, wanted))
  {
    if s != [] {
      var init, last := s[..|s| - 1], s[|s| - 1];
      SelectDistinct(init, wanted);
      SelectMembers(init, wanted);
      var r := Select(init, wanted);
      forall i | 0 <= i < |r|
        ensures r[i].path != last.path
      {
        assert r[i] in init;
      }
    }
  }

  lemma {:induction false} InsertDistinct(x: DiffEntry, s: seq<DiffEntry>, rank: DiffEntry -> int)
    requires DistinctPaths(s) && forall e :: e in s ==> e.path != x.path
    ensures DistinctPaths(Insert(x, s, rank))
    ensures forall e :: e in Insert(x, s, rank) <==> e == x || e in s
  {
    if s == [] || rank(x) <= rank(s[0]) {
    } else {
      InsertDistinct(x, s[1..], rank);
      var r := Insert(x, s[1..], rank);
      forall i | 0 <= i < |r|
        ensures r[i].path != s[0].path
      {
        assert r[i] in r;
        assert r[i] == x || r[i] in s[1..];
      }
      assert s == [s[0]] + s[1..];
    }
  }

  lemma {:induction false} SortDistinct(s: seq<DiffEntry>, rank: DiffEntry -> int)
    requires DistinctPaths(s)
    ensures DistinctPaths(SortBy(s, rank))
  {
    if s != [] {
      SortDistinct(s[1..], rank);
      SortMembers(s[1..], rank);
      InsertDistinct(s[0], SortBy(s[1..], rank), rank);
    }
  }

  // ------------------------------------------------------- destructive roots

  lemma CoversMore(roots: seq<DiffEntry>, last: DiffEntry, e: DiffEntry)
    requires Covered(roots, e) || e == last
    ensures Covered(roots + [last], e)
  {
    var more := roots + [last];
    if Covered(roots, e) {
      var i :| 0 <= i < |roots| && roots[i].path <= e.path;
      assert more[i] == roots[i];
    } else {
      assert more[|roots|] == last;
    }
  }

  /** Roots form an antichain that covers every destructive entry. */
  lemma {:induction false} RootsCover(sorted: seq<DiffEntry>)
    requires Ranked(sorted, Depth)
    ensures forall e :: e in sorted ==> Covered(Roots(sorted), e)
    ensures forall i, j :: 0 <= i < j < |Roots(sorted)| ==>
                             && !(Roots(sorted)[i].path <= Roots(sorted)[j].path)
                             && !(Roots(sorted)[j].path <= Roots(sorted)[i].path)
  {
    if sorted != [] {
      var init, last := sorted[..|sorted| - 1], sorted[|sorted| - 1];
      assert sorted == init + [last];
      RootsCover(init);
      RootMembers(init);
      var roots := Roots(init);
      if !Covered(roots, last) {
        forall e | e in sorted
          ensures Covered(roots + [last], e)
        {
          CoversMore(roots, last, e);
        }
        forall i | 0 <= i < |roots|
          ensures !(last.path <= roots[i].path)
        {
          assert roots[i] in init;
          assert Depth(roots[i]) <= Depth(last);
        }
      }
    }
  }

  lemma RootEntriesCover(diff: seq<DiffEntry>)
    ensures forall e :: e in diff && Destructive(e) ==> Covered(RootEntries(diff), e)
    ensures forall i, j :: 0 <= i < j < |RootEntries(diff)| ==>
                             && !(RootEntries(diff)[i].path <= RootEntries(diff)[j].path)
                             && !(RootEntries(diff)[j].path <= RootEntries(diff)[i].path)
  {
    var sorted := SortBy(Select(diff, Destructive), Depth);
    SortRanked(Select(diff, Destructive), Depth);
    SortMembers(Select(diff, Destructive), Depth);
    SelectMembers(diff, Destructive);
    RootsCover(sorted);
  }

  // ------------------------------------------------------------ content phase

  /** A content operation that serves an entry of `s`; its slot, if it has one, is below `slot`. */
  ghost predicate ContentPart(plan: CommitPlan, s: seq<DiffEntry>, slot: nat, op: Operation) {
    && PhaseOf(op) == 3 && Justified(plan, op)
    && (exists e :: e in s && e.path == op.path)
    && (IsInstall(op) ==> op.slot < slot)
  }

  lemma ContentPartGrows(plan: CommitPlan, s: seq<DiffEntry>, slot: nat, more: seq<DiffEntry>, slot': nat, op: Operation)
    requires ContentPart(plan, s, slot, op) && slot <= slot'
    ensures ContentPart(plan, s + more, slot', op)
  {
    hide PhaseOf, Justified, IsInstall;
    var e :| e in s && e.path == op.path;
    assert e in s + more;
  }

  /** The slot after the content operation of an entry. */
  function NextSlot(e: DiffEntry, slot: nat): nat {
    if Slotted(e) then slot + 1 else slot
  }

  /** The next content operation, behind those before it. */
  lemma ContentOpFits(plan: CommitPlan, init: seq<DiffEntry>, last: DiffEntry, ops: seq<Operation>, slot: nat)
    requires last in plan.diff && Quotable(plan) && NeedsContent(last) && InOrder(ops)
    requires forall e :: e in init ==> e.path != last.path
    requires forall op :: op in ops ==> ContentPart(plan, init, slot, op)
    ensures InOrder(ops + [ContentOp(plan, last, slot)])
    ensures ContentPart(plan, init + [last], NextSlot(last, slot), ContentOp(plan, last, slot))
  {
    var op := ContentOp(plan, last, slot);
    assert Serves(plan, op, last) && last in init + [last];
    forall i | 0 <= i < |ops|
      ensures Precedes(ops[i], op)
    {
      assert ops[i] in ops;
    }
  }

  lemma {:induction false} ContentOpsOrdered(plan: CommitPlan, s: seq<DiffEntry>, first: nat)
    requires DistinctPaths(s) && (forall e :: e in s ==> e in plan.diff) && Quotable(plan)
    ensures InOrder(ContentOps(plan, s, first))
    ensures forall op :: op in ContentOps(plan, s, first) ==> ContentPart(plan, s, first + |Select(s, Slotted)|, op)
  {
    hide ContentPart, ContentOp, Precedes;
    if s != [] {
      var init, last := s[..|s| - 1], s[|s| - 1];
      assert s == init + [last];
      ContentOpsOrdered(plan, init, first);
      var ops, slot := ContentOps(plan, init, first), first + |Select(init, Slotted)|;
      var slot' := NextSlot(last, slot);
      assert slot' == first + |Select(s, Slotted)|;
      forall op | op in ops
        ensures ContentPart(plan, s, slot', op)
      {
        ContentPartGrows(plan, init, slot, [last], slot', op);
      }
      if NeedsContent(last) {
        ContentOpFits(plan, init, last, ops, slot);
      }
    }
  }

  lemma {:induction false} ContentOpServes(plan: CommitPlan, s: seq<DiffEntry>, first: nat, e: DiffEntry)
    requires (forall e :: e in s && e.before.Some? ==> Expects(plan, e)) && e in s
    ensures KeepsContent(e) ==> Expects(plan, e) && ContentOp(plan, e, 0) in ContentOps(plan, s, first)
    ensures Slotted(e) ==> exists op :: op in ContentOps(plan, s, first) && IsInstall(op) && op.path == e.path
  {
    hide Expects;
    var init, last := s[..|s| - 1], s[|s| - 1];
    var ops := ContentOps(plan, s, first);
    if e in init {
      ContentOpServes(plan, init, first, e);
      if Slotted(e) {
        var op :| op in ContentOps(plan, init, first) && IsInstall(op) && op.path == e.path;
        assert op in ops;
      }
    } else if NeedsContent(e) {
      assert e == last;
      assert ContentOp(plan, last, first + |Select(init, Slotted)|) in ops;
    }
  }

  // ------------------------------------------------------- joining the phases

  /** Operations of different phases never clash: they serve entries of different classes. */
  lemma PhasesApart(plan: CommitPlan, x: Operation, y: Operation)
    requires Canonical(plan.diff) && ModesAgree(plan)
    requires Justified(plan, x) && Justified(plan, y) && PhaseOf(x) < PhaseOf(y)
    ensures Precedes(x, y)
  {
    var e :| Serves(plan, x, e);
    var f :| Serves(plan, y, f);
    assert x.path == y.path ==> e == f;
  }

  /** All operations belong to one phase, serve an entry and are mutually ordered. */
  ghost predicate Phase(plan: CommitPlan, ops: seq<Operation>, phase: nat) {
    && InOrder(ops)
    && forall op :: op in ops ==> PhaseOf(op) == phase && Justified(plan, op)
  }

  /** Operations of phases up to `phase`, in order. */
  ghost predicate UpToPhase(plan: CommitPlan, ops: seq<Operation>, phase: nat) {
    && InOrder(ops)
    && forall op :: op in ops ==> PhaseOf(op) <= phase && Justified(plan, op)
  }

  lemma JoinPhase(plan: CommitPlan, a: seq<Operation>, b: seq<Operation>, phase: nat)
    requires Canonical(plan.diff) && ModesAgree(plan) && phase > 0
    requires UpToPhase(plan, a, phase - 1) && Phase(plan, b, phase)
    ensures UpToPhase(plan, a + b, phase)
  {
    var ops := a + b;
    forall i, j | 0 <= i < j < |ops|
      ensures Precedes(ops[i], ops[j])
    {
      if i < |a| <= j {
        assert ops[i] in a && ops[j] in b;
        PhasesApart(plan, ops[i], ops[j]);
      }
    }
  }

  lemma SortedSelection(diff: seq<DiffEntry>, wanted: DiffEntry -> bool, rank: DiffEntry -> int)
    requires DistinctPaths(diff)
    ensures var s := SortBy(Select(diff, wanted), rank);
            DistinctPaths(s) && Ranked(s, rank) && forall e :: e in s <==> e in diff && wanted(e)
  {
    SortRanked(Select(diff, wanted), rank);
    SortMembers(Select(diff, wanted), rank);
    SelectMembers(diff, wanted);
    SelectDistinct(diff, wanted);
    SortDistinct(Select(diff, wanted), rank);
  }

  lemma ModePhase(plan: CommitPlan, wanted: DiffEntry -> bool, rank: DiffEntry -> int, phase: nat)
    requires Canonical(plan.diff) && ModesAgree(plan)
    requires forall e :: wanted(e) ==> ChangesDirectoryMode(e)
    requires forall e :: wanted(e) && e in plan.diff ==> PhaseOf(DirectoryModeOp(plan, e)) == phase
    ensures var s := SortBy(Select(plan.diff, wanted), rank);
            && (forall e :: e in s ==> e in plan.diff && ChangesDirectoryMode(e) && Expects(plan, e))
            && Phase(plan, ModeOps(plan, s), phase)
            && forall e :: e in plan.diff && wanted(e) ==> DirectoryModeOp(plan, e) in ModeOps(plan, s)
  {
    var s := SortBy(Select(plan.diff, wanted), rank);
    SortedSelection(plan.diff, wanted, rank);
    var ops := ModeOps(plan, s);
    forall op | op in ops
      ensures PhaseOf(op) == phase && Justified(plan, op)
    {
      var i :| 0 <= i < |ops| && ops[i] == op;
      assert s[i] in s;
      assert Serves(plan, op, s[i]);
    }
    forall e | e in plan.diff && wanted(e)
      ensures DirectoryModeOp(plan, e) in ops
    {
      var i :| 0 <= i < |s| && s[i] == e;
      assert ops[i] == DirectoryModeOp(plan, e);
    }
    forall i, j | 0 <= i < j < |ops|
      ensures Precedes(ops[i], ops[j])
    {
      assert s[i] in s && s[j] in s;
    }
  }

  /** Every quarantine is of a destructive entry; their slots and their subtrees are apart. */
  lemma QuarantinesInPhase(plan: CommitPlan, roots: seq<DiffEntry>)
    requires forall e :: e in roots ==> e in plan.diff && Destructive(e) && Expects(plan, e)
    requires forall i, j :: 0 <= i < j < |roots| ==> !(roots[i].path <= roots[j].path) && !(roots[j].path <= roots[i].path)
    ensures Phase(plan, QuarantineOps(plan, roots), 1)
  {
    hide Destructive;
    var ops := QuarantineOps(plan, roots);
    forall op | op in ops
      ensures PhaseOf(op) == 1 && Justified(plan, op)
    {
      var i :| 0 <= i < |ops| && ops[i] == op;
      assert roots[i] in roots;
      assert Serves(plan, op, roots[i]);
    }
  }

  lemma QuarantineCovers(plan: CommitPlan, roots: seq<DiffEntry>, e: DiffEntry)
    requires (forall r :: r in roots ==> Expects(plan, r)) && Covered(roots, e)
    ensures exists op :: op in QuarantineOps(plan, roots) && op.path <= e.path
  {
    var ops := QuarantineOps(plan, roots);
    var i :| 0 <= i < |roots| && roots[i].path <= e.path;
    assert ops[i] in ops;
  }

  lemma QuarantinePhase(plan: CommitPlan)
    requires Canonical(plan.diff) && ModesAgree(plan)
    ensures var roots := RootEntries(plan.diff);
            && (forall e :: e in roots ==> Expects(plan, e))
            && Phase(plan, QuarantineOps(plan, roots), 1)
            && forall e :: e in plan.diff && Destructive(e) ==>
                             exists op :: op in QuarantineOps(plan, roots) && op.path <= e.path
  {
    hide RootEntries, Phase, Covered;
    var roots := RootEntries(plan.diff);
    RootEntriesMembers(plan.diff);
    RootEntriesCover(plan.diff);
    QuarantinesInPhase(plan, roots);
    forall e | e in plan.diff && Destructive(e)
      ensures exists op :: op in QuarantineOps(plan, roots) && op.path <= e.path
    {
      QuarantineCovers(plan, roots, e);
    }
  }

  /** Creations serve their entries, parents first, each at a path of its own. */
  lemma CreatesInPhase(plan: CommitPlan, s: seq<DiffEntry>)
    requires DistinctPaths(s) && Ranked(s, Depth) && forall e :: e in s ==> e in plan.diff && NeedsCreate(e)
    ensures Phase(plan, CreateOps(s), 2)
  {
    hide NeedsCreate;
    var ops := CreateOps(s);
    forall op | op in ops
      ensures PhaseOf(op) == 2 && Justified(plan, op)
    {
      var i :| 0 <= i < |ops| && ops[i] == op;
      assert s[i] in s;
      assert Serves(plan, op, s[i]);
    }
    forall i, j | 0 <= i < j < |ops|
      ensures Precedes(ops[i], ops[j])
    {
      assert Depth(s[i]) <= Depth(s[j]);
    }
  }

  lemma CreatePhase(plan: CommitPlan)
    requires Canonical(plan.diff) && ModesAgree(plan)
    ensures var s := SortBy(Select(plan.diff, NeedsCreate), Depth);
            && (forall e :: e in s ==> NeedsCreate(e))
            && Phase(plan, CreateOps(s), 2)
            && forall e :: e in plan.diff && NeedsCreate(e) ==> CreateOp(e) in CreateOps(s)
  {
    hide Phase, CreateOp, NeedsCreate;
    var s := SortBy(Select(plan.diff, NeedsCreate), Depth);
    SortedSelection(plan.diff, NeedsCreate, Depth);
    CreatesInPhase(plan, s);
    forall e | e in plan.diff && NeedsCreate(e)
      ensures CreateOp(e) in CreateOps(s)
    {
      var i :| 0 <= i < |s| && s[i] == e;
      assert CreateOps(s)[i] == CreateOp(e);
    }
  }

  lemma ContentPhase(plan: CommitPlan, first: nat)
    requires Canonical(plan.diff) && ModesAgree(plan)
    ensures var ops := ContentOps(plan, plan.diff, first);
            && Phase(plan, ops, 3)
            && (forall e :: e in plan.diff && KeepsContent(e) ==> ContentOp(plan, e, 0) in ops)
            && forall e :: e in plan.diff && Slotted(e) ==> exists op :: op in ops && IsInstall(op) && op.path == e.path
  {
    hide InOrder, ContentOps, ContentOp, Slotted, IsInstall, Justified, PhaseOf;
    ContentOpsOrdered(plan, plan.diff, first);
    forall e | e in plan.diff
      ensures KeepsContent(e) ==> ContentOp(plan, e, 0) in ContentOps(plan, plan.diff, first)
      ensures Slotted(e) ==>
                exists op :: op in ContentOps(plan, plan.diff, first) && IsInstall(op) && op.path == e.path
    {
      ContentOpServes(plan, plan.diff, first, e);
    }
  }

  lemma JoinPhases(plan: CommitPlan, l: Lowering)
    requires Canonical(plan.diff) && ModesAgree(plan)
    requires Phase(plan, l.grants, 0) && Phase(plan, l.quarantines, 1) && Phase(plan, l.creates, 2)
    requires Phase(plan, l.contents, 3) && Phase(plan, l.restrictions, 4)
    ensures UpToPhase(plan, l.Ops(), 4)
  {
    hide InOrder, Justified, PhaseOf;
    JoinPhase(plan, l.grants, l.quarantines, 1);
    JoinPhase(plan, l.grants + l.quarantines, l.creates, 2);
    JoinPhase(plan, l.grants + l.quarantines + l.creates, l.contents, 3);
    JoinPhase(plan, l.grants + l.quarantines + l.creates + l.contents, l.restrictions, 4);
  }

  /** Every lowered plan is orderly. */
  lemma LoweredIsOrderly(plan: CommitPlan)
    requires Canonical(plan.diff) && ModesAgree(plan)
    ensures Orderly(plan, Lower(plan).Ops())
  {
    hide InOrder, Justified, Served, ContentOp, ContentOps, RootEntries, Destructive, Slotted, IsInstall;
    var l := Lower(plan);
    ModePhase(plan, Grants, Depth, 0);
    QuarantinePhase(plan);
    CreatePhase(plan);
    ContentPhase(plan, |RootEntries(plan.diff)|);
    ModePhase(plan, Restricts, Shallowness, 4);
    JoinPhases(plan, l);
    forall e | e in plan.diff
      ensures Served(plan, l.Ops(), e)
    {
      AllServed(plan, l, e);
    }
  }

  lemma AllServed(plan: CommitPlan, l: Lowering, e: DiffEntry)
    requires e.before.Some? ==> Expects(plan, e)
    requires Grants(e) ==> DirectoryModeOp(plan, e) in l.grants
    requires Destructive(e) ==> exists op :: op in l.quarantines && op.path <= e.path
    requires forall op :: op in l.quarantines ==> PhaseOf(op) == 1
    requires NeedsCreate(e) ==> CreateOp(e) in l.creates
    requires KeepsContent(e) ==> ContentOp(plan, e, 0) in l.contents
    requires Slotted(e) ==> exists op :: op in l.contents && IsInstall(op) && op.path == e.path
    requires Restricts(e) ==> DirectoryModeOp(plan, e) in l.restrictions
    ensures Served(plan, l.Ops(), e)
  {
    if Destructive(e) {
      var op :| op in l.quarantines && op.path <= e.path;
      assert op in l.Ops();
    }
    if Slotted(e) {
      var op :| op in l.contents && IsInstall(op) && op.path == e.path;
      assert op in l.Ops();
    }
  }

  /** What an entry may ask for, told by its two sides alone. */
  predicate Asks(e: DiffEntry, op: Operation) {
    match op
    case Quarantine(_, _, _) =>
      && e.before.Some?
      && (e.after.None? || e.after.value.kind != e.before.value.kind || e.after.value.kind == Symlink
          || (e.after.value.kind == File && !SameFile(e.before.value, e.after.value)))
    case CreateDirectory(_, after) =>
      && e.after.Some? && e.after.value.kind == Directory && (e.before.None? || e.before.value.kind != Directory)
      && after.kind == Directory && after.mode == e.after.value.mode
    case InstallFile(_, after, _) =>
      e.after == Some(after) && after.kind == File && (e.before.None? || !SameFile(e.before.value, after))
    case InstallSymlink(_, after, _) => e.after == Some(after) && after.kind == Symlink
    case SetFileMode(_, _, mode) =>
      && e.before.Some? && e.after.Some? && e.after.value.kind == File && SameFile(e.before.value, e.after.value)
      && mode == e.after.value.mode
    case SetDirectoryMode(_, _, mode) =>
      && e.before.Some? && e.before.value.kind == Directory && e.after.Some? && e.after.value.kind == Directory
      && e.before.value.mode != e.after.value.mode && mode == e.after.value.mode
  }

  /** Of one kind, one size and one content. */
  predicate SameFile(a: NodeState, b: NodeState) {
    a.kind == b.kind && a.size == b.size && a.content == b.content
  }

  /**
   The operations at the path of an entry are those it asks for, quoting the old state that the plan
   holds; and it gets one that makes its new side unless both sides are directories of one mode.
   */
  lemma OperationsAt(plan: CommitPlan, e: DiffEntry)
    requires Canonical(plan.diff) && ModesAgree(plan) && e in plan.diff
    ensures forall op :: op in Lower(plan).Ops() && op.path == e.path ==>
                           && Asks(e, op)
                           && (op.Quarantine? || op.SetFileMode? || op.SetDirectoryMode? ==> plan.writeSet[e.path] == Some(op.expected))
    ensures (exists op :: op in Lower(plan).Ops() && op.path == e.path && !op.Quarantine?) <==>
            e.after.Some? && !SameDirectory(e)
  {
    hide InOrder, Lower, Asks, Justified, Served;
    LoweredIsOrderly(plan);
    var ops := Lower(plan).Ops();
    assert Orderly(plan, ops);
    forall op | op in ops && op.path == e.path
      ensures Asks(e, op)
      ensures op.Quarantine? || op.SetFileMode? || op.SetDirectoryMode? ==>
                e.path in plan.writeSet && plan.writeSet[e.path] == Some(op.expected)
    {
      assert Justified(plan, op);
      JustifiedIsAsked(plan, e, op);
    }
    assert Served(plan, ops, e);
    if e.after.Some? && !SameDirectory(e) {
      NewSideIsMade(plan, ops, e);
    }
    if op :| op in ops && op.path == e.path && !op.Quarantine? {
      AskedMakesNewSide(e, op);
    }
  }

  lemma JustifiedIsAsked(plan: CommitPlan, e: DiffEntry, op: Operation)
    requires Canonical(plan.diff) && e in plan.diff && op.path == e.path && Justified(plan, op)
    ensures Asks(e, op)
    ensures op.Quarantine? || op.SetFileMode? || op.SetDirectoryMode? ==> e.path in plan.writeSet && plan.writeSet[e.path] == Some(op.expected)
  {
    var f :| Serves(plan, op, f);
    assert f == e;
  }

  /** Both sides are directories, of one mode. */
  predicate SameDirectory(e: DiffEntry) {
    && e.before.Some? && e.before.value.kind == Directory && e.after.Some? && e.after.value.kind == Directory
    && e.before.value.mode == e.after.value.mode
  }

  lemma AskedMakesNewSide(e: DiffEntry, op: Operation)
    requires Asks(e, op) && !op.Quarantine?
    ensures e.after.Some? && !SameDirectory(e)
  {
  }

  lemma NewSideIsMade(plan: CommitPlan, ops: seq<Operation>, e: DiffEntry)
    requires (e.before.Some? ==> Expects(plan, e)) && Served(plan, ops, e)
    requires e.after.Some? && !SameDirectory(e)
    ensures exists op :: op in ops && op.path == e.path && !op.Quarantine?
  {
    if NeedsCreate(e) {
      assert CreateOp(e) in ops && CreateOp(e).path == e.path;
    } else if KeepsContent(e) {
      assert ContentOp(plan, e, 0) in ops && ContentOp(plan, e, 0).path == e.path;
    } else if ChangesDirectoryMode(e) {
      assert DirectoryModeOp(plan, e) in ops && DirectoryModeOp(plan, e).path == e.path;
    } else {
      assert Slotted(e);
    }
  }
}
