/**
 Two concrete inputs on which a commit is not atomic, and what they have in common with all
 others: a plan that needs the name of the ownership marker, and a conflict bound of zero.
 */
module Counterexamples {
  import opened Types
  import opened Paths
  import opened Engine
  import opened Rollback
  import opened Planning
  import opened Ordering
  import opened Correctness
  import opened OperationLog
  import opened PlanCodec
  import opened PlanDurability
  import opened CrashRecovery
  import opened Overlaying
  import opened Committing
  import opened CommitRun
  import opened Stranding
  import Reentry

  // ------------------------------------------------ a name the engine needs

  const CREATED: Path := [[100]]

  /** Create directory "d" and in it a file with the name of the ownership marker. */
  function ClashPlan(blob: Digest): CommitPlan {
    var directory, file := DirectoryState(0x1ed), NodeState(File, 1, 0x1a4, Blob(blob));
    CommitPlan(
      [DiffEntry(CREATED, None, Some(directory), false), DiffEntry(MarkerOf(CREATED), None, Some(file), false)],
      map[[] := ReadObservation(Some(Some(FromStamp(DirectoryStamp(1)))), None, None), CREATED := ReadObservation(Some(None), None, None)],
      map[CREATED := None, MarkerOf(CREATED) := None])
  }

  function ClashImage(blob: Digest): Image {
    map[[] := DirectoryState(0x1ed), CREATED := DirectoryState(0x1ed), MarkerOf(CREATED) := NodeState(File, 1, 0x1a4, Blob(blob))]
  }

  const EMPTY: Tree := map[[] := Node(DirectoryStamp(1), NoBytes)]

  lemma ClashAdmissible(blob: Digest)
    ensures Admissible(ClashPlan(blob))
  {
    var plan, m := ClashPlan(blob), MarkerOf(CREATED);
    assert |m| == 2 && Parent(m) == CREATED && Parent(CREATED) == [];
    assert EntryError(plan, plan.diff[0]).None? && EntryError(plan, plan.diff[1]).None?;
  }

  /** Admission has nothing against it. */
  lemma ClashIsTrue(blob: Digest, e: DiffEntry)
    requires e in ClashPlan(blob).diff
    ensures EntryTrue(ClashPlan(blob), e, EMPTY, ClashImage(blob))
  {
    assert |MarkerOf(CREATED)| == 2;
  }

  lemma ClashIsAdmitted(blob: Digest)
    ensures Admissible(ClashPlan(blob)) && ExactDiff(ClashPlan(blob), EMPTY, ClashImage(blob))
    ensures !NoMarkerClash(ClashPlan(blob), ClashImage(blob))
  {
    hide Admissible, EntryTrue;
    var plan, final := ClashPlan(blob), ClashImage(blob);
    var m := MarkerOf(CREATED);
    assert |m| == 2 && Parent(m) == CREATED && Parent(CREATED) == [] && m[0] == [100] && m != CREATED;
    ClashAdmissible(blob);
    assert plan.diff[0] in plan.diff && plan.diff[1] in plan.diff;
    assert NeedsCreate(plan.diff[0]);
    forall e | e in plan.diff
      ensures EntryTrue(plan, e, EMPTY, final)
    {
      ClashIsTrue(blob, e);
    }
    forall p | Differs(EMPTY, final, p)
      ensures Named(plan, p)
    {
      assert p == CREATED || p == m;
    }
  }

  /** Every operation serves one of the two entries. */
  lemma ClashServes(blob: Digest, a: Attempt, h: Host, i: nat)
    requires h.tree == EMPTY && Scenario(ClashPlan(blob), a, h, ClashImage(blob)) && i < |a.ops|
    ensures (a.ops[i].path == CREATED && a.ops[i].CreateDirectory?) || (a.ops[i].path == MarkerOf(CREATED) && a.ops[i].InstallFile?)
  {
    var plan := ClashPlan(blob);
    var e := ServedBy(plan, a, h.tree, ClashImage(blob), i);
    assert e == plan.diff[0] || e == plan.diff[1];
  }

  /** The directory it works in is writable. */
  lemma ClashAllowed(blob: Digest, ops: seq<Operation>, i: nat)
    requires i < |ops| && ops[i].path in {CREATED, MarkerOf(CREATED)}
    ensures ops[i].path != [] && Allowed(ops, EMPTY, ClashImage(blob), i)
  {
    assert |MarkerOf(CREATED)| == 2 && Parent(MarkerOf(CREATED)) == CREATED && Parent(CREATED) == [];
    assert OwnerWrite(0x1ed);
  }

  lemma ClashOperations(blob: Digest, a: Attempt, h: Host) returns (j: nat, k: nat)
    requires h.tree == EMPTY && Scenario(ClashPlan(blob), a, h, ClashImage(blob))
    ensures j < k < |a.ops| && a.ops[j].CreateDirectory? && a.ops[j].path == CREATED && a.ops[k].path == MarkerOf(CREATED)
  {
    hide InOrder, Justified, Staged;
    var plan := ClashPlan(blob);
    var d, f := plan.diff[0], plan.diff[1];
    assert d in plan.diff && f in plan.diff && Served(plan, a.ops, d) && Served(plan, a.ops, f);
    var op :| op in a.ops && IsInstall(op) && op.path == f.path;
    k :| 0 <= k < |a.ops| && a.ops[k] == op;
    j :| 0 <= j < |a.ops| && a.ops[j] == CreateOp(d);
    MustPrecede(a.ops, j, k);
  }

  /** In whatever order it was lowered, the file comes second, and is the first operation to clash. */
  lemma ClashPosition(blob: Digest, a: Attempt, h: Host) returns (k: nat)
    requires h.tree == EMPTY && Scenario(ClashPlan(blob), a, h, ClashImage(blob))
    ensures k < |a.ops| && a.ops[k].InstallFile? && MeetsMarker(a.ops, h.tree, ClashImage(blob), k)
  {
    var j;
    j, k := ClashOperations(blob, a, h);
    assert |MarkerOf(CREATED)| == 2;
    ClashServes(blob, a, h, k);
    forall i | 0 <= i < k
      ensures !Clashes(a.ops, i) && Allowed(a.ops, h.tree, ClashImage(blob), i)
    {
      ClashServes(blob, a, h, i);
      ClashAllowed(blob, a.ops, i);
      assert Precedes(a.ops[i], a.ops[k]);
      assert |MarkerOf(CREATED)| == 2 && forall c :: 0 <= c < i && a.ops[c].CreateDirectory? ==> |MarkerOf(a.ops[c].path)| >= 2;
    }
  }

  /** So its commit always strands: the directory stays, and recovery is a conflict. */
  lemma ClashStrands(c: Config, hash: Hash, blob: Digest, a: Attempt, p: PreparedPlan, encoded: seq<byte>, h: Host)
    returns (hosts: seq<Host>)
    requires h.tree == EMPTY && Scenario(ClashPlan(blob), a, h, ClashImage(blob)) && Reentry.FreshIds(a, h)
    requires Roomy(c, a) && PlanHeld(c, hash, a, p, encoded)
    ensures hosts != [] && hosts[0] == h && hosts[|hosts| - 1].tree != EMPTY
    ensures Strands(c, hash, a, encoded, hosts)
  {
    hide Planned, Staged, Decode, Reentry.FreshIds, Strands, MeetsMarker;
    var k := ClashPosition(blob, a, h);
    MetMarkerStrands(c, hash, ClashPlan(blob), a, p, encoded, h, ClashImage(blob), k);
    hosts := Trace(a, h, k);
  }

  // ------------------------------------------------- a conflict bound of zero

  const FIRST: Path := [[97]]
  const SECOND: Path := [[98]]

  function FileStampOf(inode: u64, mtime: i128): FileStamp {
    FileStamp(File, 1, 0x1a4, mtime, None, FileId(0, inode))
  }

  /** Two files "a" and "b"; the modification time of "b" is given. */
  function TwoFiles(blob: Digest, mtime: i128): Tree {
    map[[] := Node(DirectoryStamp(1), NoBytes),
        FIRST := Node(FileStampOf(2, 0), Bytes(blob)),
        SECOND := Node(FileStampOf(3, mtime), Bytes(blob))]
  }

  /** Delete "a" and make "b" private. */
  function TidyPlan(): CommitPlan {
    var a, b := FromStamp(FileStampOf(2, 0)), FromStamp(FileStampOf(3, 0));
    CommitPlan(
      [DiffEntry(FIRST, Some(a), None, false), DiffEntry(SECOND, Some(b), Some(b.(mode := 0x180)), true)],
      map[[] := ReadObservation(Some(Some(FromStamp(DirectoryStamp(1)))), None, None)],
      map[FIRST := Some(a), SECOND := Some(b)])
  }

  function TidyImage(blob: Digest): Image {
    map[[] := DirectoryState(0x1ed), SECOND := NodeState(File, 1, 0x180, Blob(blob))]
  }

  function TidyAttempt(transaction: Digest): Attempt {
    var a, b := FromStamp(FileStampOf(2, 0)), FromStamp(FileStampOf(3, 0));
    Attempt(transaction, [Quarantine(FIRST, a, 0), SetFileMode(SECOND, b, 0x180)],
            [Alloc(FileId(0, 4), FileId(0, 5)), Alloc(FileId(0, 6), FileId(0, 7))])
  }

  lemma TidyAdmissible()
    ensures Admissible(TidyPlan()) && Quotable(TidyPlan())
  {
    var plan := TidyPlan();
    assert Parent(FIRST) == [] && Parent(SECOND) == [];
    assert EntryError(plan, plan.diff[0]).None? && EntryError(plan, plan.diff[1]).None?;
  }

  lemma TwoFilesSound(blob: Digest, mtime: i128)
    ensures WellFormed(TwoFiles(blob, mtime)) && Concrete(TwoFiles(blob, mtime))
  {
    assert Parent(FIRST) == [] && Parent(SECOND) == [];
  }

  lemma TidyIsTrue(blob: Digest, e: DiffEntry)
    requires e in TidyPlan().diff
    ensures EntryTrue(TidyPlan(), e, TwoFiles(blob, 0), TidyImage(blob))
  {
  }

  lemma TidyIsExact(blob: Digest)
    ensures ExactDiff(TidyPlan(), TwoFiles(blob, 0), TidyImage(blob)) && Quotable(TidyPlan())
  {
    hide Admissible, Quotable, WellFormed, Concrete, EntryTrue;
    var plan, base, final := TidyPlan(), TwoFiles(blob, 0), TidyImage(blob);
    assert Parent(SECOND) == [] && FIRST != SECOND;
    assert plan.diff[0] in plan.diff && plan.diff[1] in plan.diff;
    TidyAdmissible();
    TwoFilesSound(blob, 0);
    forall e | e in plan.diff
      ensures EntryTrue(plan, e, base, final)
    {
      TidyIsTrue(blob, e);
    }
    forall p | Differs(base, final, p)
      ensures Named(plan, p)
    {
      assert p == FIRST || p == SECOND;
    }
  }

  /** The plan was exact, and this is its lowering. */
  lemma TidyIsPlanned(transaction: Digest, blob: Digest)
    ensures Planned(TidyPlan(), TidyAttempt(transaction), TwoFiles(blob, 0), TidyImage(blob))
  {
    hide ExactDiff;
    var plan, a := TidyPlan(), TidyAttempt(transaction);
    var x, y := plan.diff[0], plan.diff[1];
    TidyIsExact(blob);
    assert plan.diff == [x, y] && FIRST != SECOND && x in plan.diff && y in plan.diff;
    assert Serves(plan, a.ops[0], x) && Serves(plan, a.ops[1], y);
    assert a.ops[0] in a.ops && a.ops[1] in a.ops;
    assert Served(plan, a.ops, x) && Served(plan, a.ops, y);
  }

  /** The host with "b" edited, before the commit and after "a" was deleted. */
  function Edited(blob: Digest): Host {
    Host(TwoFiles(blob, 7), map[], map[], map[])
  }

  function HalfTidied(blob: Digest): Host {
    Host(Without(TwoFiles(blob, 7), FIRST), map[], map[], map[0 := Relative(TwoFiles(blob, 7), FIRST)])
  }

  lemma FirstGoes(transaction: Digest, blob: Digest)
    ensures StepsTo(TidyAttempt(transaction), 0, Edited(blob), HalfTidied(blob))
  {
    hide StepsTo, Without, Relative;
    var a, h := TidyAttempt(transaction), Edited(blob);
    assert Parent(FIRST) == [];
    assert StateMatches(h.tree, FIRST, Some(a.ops[0].expected));
    QuarantineRuns(a, 0, h);
  }

  lemma TidyBegins(transaction: Digest, blob: Digest)
    ensures var a, hosts := TidyAttempt(transaction), [Edited(blob), HalfTidied(blob)];
            Executes(a, hosts) && Hopeless(a, hosts)
  {
    hide StepsTo, Hopeless, Relative;
    var a, hosts := TidyAttempt(transaction), [Edited(blob), HalfTidied(blob)];
    FirstGoes(transaction, blob);
    assert Ran(a, hosts, 0);
    assert Parent(SECOND) == [] && FIRST[0][0] != SECOND[0][0];
    assert !(FIRST <= SECOND) && !(FIRST <= []);
    EditedFileFails(a, hosts, 1);
  }

  lemma TidyDecodes(p: PreparedPlan, transaction: Digest)
    requires p.operations == TidyAttempt(transaction).ops && p.finalStates == FinalStates(TidyPlan().diff)
    ensures Expressible(p) && OperationsFit(p, 2, 1) && FinalStatesFit(p, 2, 1)
  {
    assert Text(FIRST) == [97] && Text(SECOND) == [98];
    assert ValidPath(FIRST) && ValidPath(SECOND);
    assert p.operations[1].SetFileMode?;
    assert TidyPlan().diff[0].path == FIRST && TidyPlan().diff[1].path == SECOND;
  }

  /** Its encoding is read back, under a configuration whose conflict bound is zero. */
  lemma TidyAccepted(hash: Hash, transaction: Digest, snapshot: Digest, blob: Digest) returns (c: Config, p: PreparedPlan)
    ensures c.maxConflicts == 0 && c.maxDependencies == 3
    ensures Accepted(c, hash, TidyPlan(), TidyAttempt(transaction), p, Sealed(hash, Body(p)), TwoFiles(blob, 0), TidyImage(blob))
  {
    hide Decode, Planned, Expressible, OperationsFit, FinalStatesFit;
    p := PreparedPlan(transaction, snapshot, TidyAttempt(transaction).ops, FinalStates(TidyPlan().diff));
    c := Config(2, 3, 1, |Sealed(hash, Body(p))|, 8 + 179 * 2, 0);
    TidyDecodes(p, transaction);
    RoundTrip(hash, p, 2, 1);
    TidyIsPlanned(transaction, blob);
  }

  /** The tree with the edited file is one that a host may present. */
  lemma EditIsHonest(blob: Digest)
    ensures Trusted(TwoFiles(blob, 0), TwoFiles(blob, 7)) && Snapshotted(TidyPlan(), TwoFiles(blob, 0))
  {
    hide WellFormed, Concrete;
    var snapshot, live := TwoFiles(blob, 0), TwoFiles(blob, 7);
    TwoFilesSound(blob, 7);
    assert FIRST != SECOND && live.Keys == snapshot.Keys;
    forall p | p in snapshot && p in live && snapshot[p].stamp == live[p].stamp
      ensures Vouches(snapshot, live, p)
    {
    }
  }

  /** Revalidation with a bound of zero finds nothing: it ends after the first observation, which is true. */
  method ZeroBoundPasses(c: Config, o: Observer, blob: Digest) returns (r: Result<seq<Conflict>, ()>)
    requires c.maxConflicts == 0 && c.maxDependencies >= 3
    ensures r == Ok([])
  {
    var observed: seq<Path> := [[]];
    ZeroBoundFinds(o, blob);
    r := Revalidate(c, o, TwoFiles(blob, 7), TidyPlan(), observed, [FIRST, SECOND]);
    assert observed[..1] == observed;
  }

  /**
   Since the plan was made "b" was edited. A positive conflict bound finds that out, and the
   commit is refused. A bound of zero does not: the commit goes ahead, deletes "a", fails at "b",
   and recovery cannot take the deletion back.
   */
  lemma ZeroBoundStrands(hash: Hash, o: Observer, transaction: Digest, snapshot: Digest, blob: Digest)
    returns (c: Config, p: PreparedPlan)
    ensures c.maxConflicts == 0 && c.maxDependencies == 3
    ensures Accepted(c, hash, TidyPlan(), TidyAttempt(transaction), p, Sealed(hash, Body(p)), TwoFiles(blob, 0), TidyImage(blob))
    ensures Trusted(TwoFiles(blob, 0), TwoFiles(blob, 7)) && Snapshotted(TidyPlan(), TwoFiles(blob, 0))
    ensures FirstConflicts(o, TwoFiles(blob, 7), TidyPlan(), [[]], [FIRST, SECOND], 1) == [MetadataChanged(SECOND)]
    ensures Edited(blob).tree == TwoFiles(blob, 7) && FIRST in Edited(blob).tree && FIRST !in HalfTidied(blob).tree
    ensures Strands(c, hash, TidyAttempt(transaction), Sealed(hash, Body(p)), [Edited(blob), HalfTidied(blob)])
  {
    hide Planned, Decode, Trusted, Snapshotted, FirstConflicts, Strands, Executes, Hopeless;
    c, p := TidyAccepted(hash, transaction, snapshot, blob);
    EditIsHonest(blob);
    ZeroBoundFinds(o, blob);
    TidyBegins(transaction, blob);
    RefusedIsStranded(c, hash, TidyAttempt(transaction), p, Sealed(hash, Body(p)), [Edited(blob), HalfTidied(blob)]);
  }

  lemma ZeroBoundFinds(o: Observer, blob: Digest)
    ensures var live, plan := TwoFiles(blob, 7), TidyPlan();
            && FirstConflicts(o, live, plan, [[]], [FIRST, SECOND], 1) == [MetadataChanged(SECOND)]
            && ReadConflicts(o, live, plan, [[]][..1]) == []
  {
    var live, plan := TwoFiles(blob, 7), TidyPlan();
    var written := [FIRST, SECOND];
    assert FIRST != SECOND;
    var observed: seq<Path> := [[]];
    assert observed[..0] == [] && observed[..1] == observed && observed[0] == [];
    assert ReadConflicts(o, live, plan, observed) == [];
    assert written[..1] == [FIRST] && [FIRST][..0] == [] && written[1] == SECOND;
    assert WriteConflicts(live, plan, [FIRST]) == [];
    assert WriteConflicts(live, plan, written) == [MetadataChanged(SECOND)];
  }
}
