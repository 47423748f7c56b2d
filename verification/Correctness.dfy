/**
 Lowering preserves meaning: carrying out a lowered plan turns the base tree into the
 planned one, and no operation ever meets a host shape it did not expect.
 */
module Correctness {
  import opened Types
  import opened Engine
  import opened Rollback
  import opened Planning
  import opened Ordering
  import Reentry

  /** A planned tree: every node by its exact content, no host identities. */
  type Image = map<Path, NodeState>

  predicate ImageDir(f: Image, p: Path) {
    p in f && f[p].kind == Directory
  }

  ghost predicate WellFormedImage(f: Image) {
    && ImageDir(f, [])
    && (forall p :: p in f && p != [] ==> ImageDir(f, Parent(p)))
    && (forall p :: p in f ==> if f[p].kind == Directory then f[p] == DirectoryState(f[p].mode) else f[p].content != NoContent)
  }

  /** A node as the plan would describe it; a marker left by another transaction is known by its stamp, its mode apart. */
  function View(n: Node): NodeState {
    if n.stamp.kind == Directory then DirectoryState(n.stamp.mode)
    else if n.data.Bytes? then NodeState(n.stamp.kind, n.stamp.size, n.stamp.mode, Blob(n.data.blob))
    else NodeState(n.stamp.kind, n.stamp.size, n.stamp.mode, Stamp(n.stamp.(mode := 0)))
  }

  ghost predicate Realizes(t: Tree, f: Image) {
    && t.Keys == f.Keys
    && forall p :: p in t ==> View(t[p]) == f[p]
  }

  /** A state that a snapshot of this node may have recorded. */
  predicate Observed(s: NodeState, n: Node) {
    && s.kind == n.stamp.kind && s.size == n.stamp.size && s.mode == n.stamp.mode
    && match s.content
       case Blob(b) => n.stamp.kind != Directory && n.data == Bytes(b)
       case Stamp(st) => st == n.stamp
       case NoContent => s == DirectoryState(n.stamp.mode)
  }

  /** An after-state announces the planned node; a stamp stands for unchanged content. */
  predicate Promised(s: NodeState, p: Path, base: Tree, final: Image)
    requires p in final
  {
    var t := final[p];
    && s.kind == t.kind && s.mode == t.mode && (s.kind == Directory || s.size == t.size)
    && match s.content
       case Blob(b) => t.content == Blob(b)
       case Stamp(_) => s.kind == Directory || (p in base && t.content == View(base[p]).content)
       case NoContent => s.kind == Directory
  }

  ghost predicate EntryTrue(plan: CommitPlan, e: DiffEntry, base: Tree, final: Image) {
    && (e.before.Some? <==> e.path in base)
    && (e.after.Some? <==> e.path in final)
    && (e.before.Some? ==> Observed(e.before.value, base[e.path]) && Expects(plan, e)
                           && Observed(plan.writeSet[e.path].value, base[e.path]))
    && (e.after.Some? ==> Promised(e.after.value, e.path, base, final))
  }

  /** The artifact is the exact difference between the base tree and the planned tree. */
  ghost predicate ExactDiff(plan: CommitPlan, base: Tree, final: Image) {
    && WellFormed(base) && WellFormedImage(final)
    && Canonical(plan.diff) && Admissible(plan)
    && (forall e :: e in plan.diff ==> EntryTrue(plan, e, base, final))
    && (forall p :: Differs(base, final, p) ==> Named(plan, p))
  }

  predicate Differs(base: Tree, final: Image, p: Path) {
    (p in base || p in final) && !(p in base && p in final && View(base[p]) == final[p])
  }

  ghost predicate Named(plan: CommitPlan, p: Path) {
    exists e :: e in plan.diff && e.path == p
  }

  /**
   No created directory is to contain an entry with the name of the ownership marker. Admission
   does not ask for this; module `Stranding` shows what becomes of a plan that breaks it.
   */
  ghost predicate NoMarkerClash(plan: CommitPlan, final: Image) {
    forall e :: e in plan.diff && NeedsCreate(e) ==> MarkerOf(e.path) !in final
  }

  lemma ExactModesAgree(plan: CommitPlan, base: Tree, final: Image)
    requires ExactDiff(plan, base, final)
    ensures ModesAgree(plan)
  {
    forall e | e in plan.diff && e.before.Some?
      ensures Expects(plan, e) && plan.writeSet[e.path].value.mode == e.before.value.mode
    {
      assert EntryTrue(plan, e, base, final);
    }
  }

  // ------------------------------------------------------------ tree algebra

  lemma {:induction false} AncestorsAreDirectories(t: Tree, p: Path, q: Path)
    requires WellFormed(t) && q in t && p <= q && p != q
    ensures IsDir(t, p)
  {
    if p != Parent(q) {
      AncestorsAreDirectories(t, p, Parent(q));
    }
  }

  lemma {:induction false} AncestorsAreImageDirs(f: Image, p: Path, q: Path)
    requires WellFormedImage(f) && q in f && p <= q && p != q
    ensures ImageDir(f, p)
  {
    if p != Parent(q) {
      AncestorsAreImageDirs(f, p, Parent(q));
    }
  }

  /** The node at `q` stays in place: only its permission bits may change. */
  ghost predicate Survives(plan: CommitPlan, base: Tree, final: Image, q: Path) {
    && q in base && q in final && base[q].stamp.kind == final[q].kind
    && (base[q].stamp.kind == Directory || forall e :: e in plan.diff && e.path == q ==> KeepsContent(e))
  }

  /** No destructive entry contains a surviving path. */
  lemma SurvivorsUncovered(plan: CommitPlan, base: Tree, final: Image, q: Path, e: DiffEntry)
    requires ExactDiff(plan, base, final) && Survives(plan, base, final, q)
    requires e in plan.diff && Destructive(e)
    ensures !(e.path <= q)
  {
    assert EntryTrue(plan, e, base, final);
    if e.path <= q && e.path != q {
      AncestorsAreDirectories(base, e.path, q);
      AncestorsAreImageDirs(final, e.path, q);
    }
  }

  /** A base path that does not survive is itself named by a destructive entry. */
  lemma LostAreDestroyed(plan: CommitPlan, base: Tree, final: Image, q: Path)
    requires ExactDiff(plan, base, final) && q in base && !Survives(plan, base, final, q)
    ensures exists e :: e in plan.diff && e.path == q && Destructive(e)
  {
    var e: DiffEntry;
    if q in final && base[q].stamp.kind == final[q].kind {
      e :| e in plan.diff && e.path == q && !KeepsContent(e);
    } else {
      assert Differs(base, final, q);
      assert Named(plan, q);
      e :| e in plan.diff && e.path == q;
    }
    assert EntryTrue(plan, e, base, final);
    assert Destructive(e);
  }

  /** Parents of surviving paths survive, as directories. */
  lemma ParentSurvives(plan: CommitPlan, base: Tree, final: Image, q: Path)
    requires ExactDiff(plan, base, final) && Survives(plan, base, final, q) && q != []
    ensures Survives(plan, base, final, Parent(q)) && IsDir(base, Parent(q))
  {
  }

  // ------------------------------------------------------ one path at a time

  predicate Touches(op: Operation, q: Path) {
    match op
    case Quarantine(p, _, _) => p <= q
    case CreateDirectory(p, _) => q == p || q == MarkerOf(p)
    case _ => q == op.path
  }

  /** What the first k operations make of the path `q`. */
  ghost function Fate(a: Attempt, h: Host, k: nat, q: Path): Option<Node>
    requires a.Valid() && k <= |a.ops|
  {
    if k == 0 then (if q in h.tree then Some(h.tree[q]) else None)
    else
      var before, op := Fate(a, h, k - 1, q), a.ops[k - 1];
      if !Touches(op, q) then before
      else match op
        case Quarantine(_, _, _) => None
        case CreateDirectory(p, after) =>
          if q == p then Some(NewDirectory(after.mode, a.allocs[k - 1]))
          else Some(NewMarker(a.transaction, k - 1, a.allocs[k - 1]))
        case InstallFile(_, _, slot) => if slot in h.staged then Some(h.staged[slot]) else None
        case InstallSymlink(_, _, slot) => if slot in h.links then Some(h.links[slot]) else None
        case SetFileMode(_, _, mode) => if before.Some? then Some(WithMode(before.value, mode)) else None
        case SetDirectoryMode(_, _, mode) => if before.Some? then Some(WithMode(before.value, mode)) else None
  }

  function Get(t: Tree, q: Path): Option<Node> {
    if q in t then Some(t[q]) else None
  }

  /** The stage still holds what it held at the start, as far as it holds anything. */
  ghost predicate StageOf(start: Host, h: Host) {
    && h.staged == start.staged
    && forall s :: s in h.links ==> s in start.links && h.links[s] == start.links[s]
  }

  lemma StageKept(a: Attempt, hosts: seq<Host>, k: nat)
    requires Executes(a, hosts) && k < |hosts|
    ensures StageOf(hosts[0], hosts[k])
  {
    StagedConstant(a, hosts, k);
    Reentry.LinksShrink(a, hosts, k);
  }

  /** An execution gives every path its fate. */
  lemma {:induction false} FateOf(a: Attempt, hosts: seq<Host>, k: nat, q: Path)
    requires Executes(a, hosts) && k < |hosts|
    ensures Get(hosts[k].tree, q) == Fate(a, hosts[0], k, q)
  {
    hide StepsTo, StageOf;
    if k > 0 {
      FateOf(a, hosts, k - 1, q);
      StageKept(a, hosts, k - 1);
      assert StepsTo(a, k - 1, hosts[k - 1], hosts[k]) by {
        assert Ran(a, hosts, k - 1);
      }
      StepFate(a, k - 1, hosts[k - 1], hosts[k], hosts[0], q);
    }
  }

  lemma StepFate(a: Attempt, i: nat, h: Host, h': Host, start: Host, q: Path)
    requires a.Valid() && i < |a.ops| && StepsTo(a, i, h, h')
    requires Get(h.tree, q) == Fate(a, start, i, q) && StageOf(start, h)
    ensures Get(h'.tree, q) == Fate(a, start, i + 1, q)
  {
    var op := a.ops[i];
    if op.CreateDirectory? {
      assert |MarkerOf(op.path)| == |op.path| + 1;
    }
  }

  lemma {:induction false} FateUntouched(a: Attempt, h: Host, i: nat, k: nat, q: Path)
    requires a.Valid() && i <= k <= |a.ops|
    requires forall j :: i <= j < k ==> !Touches(a.ops[j], q)
    ensures Fate(a, h, k, q) == Fate(a, h, i, q)
  {
    if i < k {
      FateUntouched(a, h, i, k - 1, q);
    }
  }

  predicate Adds(op: Operation, q: Path) {
    (op.CreateDirectory? || op.InstallFile? || op.InstallSymlink?) && Touches(op, q)
  }

  /** A path that nothing added, and that was absent or got quarantined, is absent. */
  lemma {:induction false} FateGone(a: Attempt, h: Host, k: nat, q: Path)
    requires a.Valid() && k <= |a.ops|
    requires forall j :: 0 <= j < k ==> !Adds(a.ops[j], q)
    requires q !in h.tree || exists i :: 0 <= i < k && a.ops[i].Quarantine? && Touches(a.ops[i], q)
    ensures Fate(a, h, k, q) == None
  {
    if k > 0 {
      if !(a.ops[k - 1].Quarantine? && Touches(a.ops[k - 1], q)) {
        FateGone(a, h, k - 1, q);
      }
    }
  }

  /** The mode operation at `q`, if one of the first k operations is one. */
  ghost predicate ModeRan(a: Attempt, k: nat, q: Path)
    requires k <= |a.ops|
  {
    exists i :: 0 <= i < k && a.ops[i].IsMode() && a.ops[i].path == q
  }

  /** A path only ever touched by mode operations to `mode`. */
  lemma {:induction false} FateOfModes(a: Attempt, h: Host, k: nat, q: Path, mode: u32)
    requires a.Valid() && k <= |a.ops| && q in h.tree
    requires forall j :: 0 <= j < k && Touches(a.ops[j], q) ==> a.ops[j].IsMode() && a.ops[j].afterMode == mode
    ensures Fate(a, h, k, q) == Some(if ModeRan(a, k, q) then WithMode(h.tree[q], mode) else h.tree[q])
  {
    if k > 0 {
      FateOfModes(a, h, k - 1, q, mode);
      var op := a.ops[k - 1];
      if Touches(op, q) {
        assert ModeRan(a, k, q);
      } else {
        assert ModeRan(a, k, q) ==> ModeRan(a, k - 1, q);
      }
    }
  }

  // ---------------------------------------------------------------- scenario

  /** An attempt at an exact, lowered plan. */
  ghost predicate Planned(plan: CommitPlan, a: Attempt, base: Tree, final: Image) {
    && ExactDiff(plan, base, final)
    && a.Valid() && Quotable(plan) && Orderly(plan, a.ops)
  }

  /** The same with its content staged. */
  ghost predicate Scenario(plan: CommitPlan, a: Attempt, h: Host, final: Image) {
    && Planned(plan, a, h.tree, final)
    && h.quarantine == map[]
    && Staged(a.ops, h)
  }

  /** Each install finds its content where staging put it. */
  ghost predicate Staged(ops: seq<Operation>, h: Host) {
    forall op :: op in ops ==>
                   && (op.InstallFile? ==> op.slot in h.staged && NodeMatches(h.staged[op.slot], op.after))
                   && (op.InstallSymlink? ==> op.slot in h.links && NodeMatches(h.links[op.slot], op.after))
  }

  lemma ServedBy(plan: CommitPlan, a: Attempt, base: Tree, final: Image, i: nat) returns (e: DiffEntry)
    requires Planned(plan, a, base, final) && i < |a.ops|
    ensures Serves(plan, a.ops[i], e) && EntryTrue(plan, e, base, final)
    ensures EntryError(plan, e).None?
  {
    assert a.ops[i] in a.ops;
    assert Justified(plan, a.ops[i]);
    e :| Serves(plan, a.ops[i], e);
    var j :| 0 <= j < |plan.diff| && plan.diff[j] == e;
  }

  /** Surviving paths are touched only by their own mode operation. */
  lemma SurvivorTouched(plan: CommitPlan, a: Attempt, h: Host, final: Image, q: Path, i: nat)
    requires Scenario(plan, a, h, final) && i < |a.ops| && Survives(plan, h.tree, final, q)
    requires Touches(a.ops[i], q)
    ensures a.ops[i].IsMode() && a.ops[i].path == q && a.ops[i].afterMode == final[q].mode
  {
    var e := ServedBy(plan, a, h.tree, final, i);
    if a.ops[i].Quarantine? {
      SurvivorsUncovered(plan, h.tree, final, q, e);
    }
  }

  lemma SurvivorFate(plan: CommitPlan, a: Attempt, h: Host, final: Image, q: Path, k: nat)
    requires Scenario(plan, a, h, final) && k <= |a.ops| && Survives(plan, h.tree, final, q)
    ensures Fate(a, h, k, q) == Some(if ModeRan(a, k, q) then WithMode(h.tree[q], final[q].mode) else h.tree[q])
  {
    forall j | 0 <= j < k && Touches(a.ops[j], q)
      ensures a.ops[j].IsMode() && a.ops[j].afterMode == final[q].mode
    {
      SurvivorTouched(plan, a, h, final, q, j);
    }
    FateOfModes(a, h, k, q, final[q].mode);
  }

  // ------------------------------------------------- what a step finds ready

  lemma MustPrecede(ops: seq<Operation>, i: nat, k: nat)
    requires InOrder(ops) && i < |ops| && k < |ops| && i != k && !Precedes(ops[k], ops[i])
    ensures i < k
  {
  }

  lemma GrantFirst(ops: seq<Operation>, i: nat, k: nat)
    requires InOrder(ops) && i < |ops| && k < |ops| && IsGrant(ops[i]) && ChangesEntries(ops[k])
    ensures i < k
  {
  }

  /** No quarantine root contains the parent of another. */
  lemma Antichain(ops: seq<Operation>, i: nat, k: nat)
    requires InOrder(ops) && i < |ops| && k < |ops| && ops[i].Quarantine? && ops[k].Quarantine? && ops[k].path != []
    ensures !(ops[i].path <= Parent(ops[k].path))
  {
    var p, q := ops[i].path, ops[k].path;
    assert p <= Parent(q) ==> p <= q;
    if i == k {
    } else if i < k {
      assert Precedes(ops[i], ops[k]);
    } else {
      assert Precedes(ops[k], ops[i]);
    }
  }

  lemma PathPlanned(plan: CommitPlan, a: Attempt, h: Host, final: Image, i: nat)
    requires Scenario(plan, a, h, final) && i < |a.ops| && !a.ops[i].Quarantine?
    ensures a.ops[i].path in final
  {
    var e := ServedBy(plan, a, h.tree, final, i);
  }

  /** Operation k puts its node where the marker of an earlier created directory is. */
  predicate Clashes(ops: seq<Operation>, k: nat)
    requires k < |ops|
  {
    exists j :: 0 <= j < k && ops[j].CreateDirectory? && MarkerOf(ops[j].path) == ops[k].path
  }

  lemma NoClash(plan: CommitPlan, a: Attempt, base: Tree, final: Image, k: nat)
    requires Planned(plan, a, base, final) && NoMarkerClash(plan, final) && k < |a.ops|
    ensures !Clashes(a.ops, k)
  {
    if Clashes(a.ops, k) {
      var j :| 0 <= j < k && a.ops[j].CreateDirectory? && MarkerOf(a.ops[j].path) == a.ops[k].path;
      assert Precedes(a.ops[j], a.ops[k]);
      var d := ServedBy(plan, a, base, final, j);
      var e := ServedBy(plan, a, base, final, k);
    }
  }

  /** Once something was added at a path, no later operation touches it, unless it is to replace a marker. */
  lemma AddedIsFinal(ops: seq<Operation>, i: nat, j: nat, q: Path)
    requires InOrder(ops) && i < j < |ops| && Adds(ops[i], q)
    requires q == ops[i].path || q != ops[j].path
    ensures !Touches(ops[j], q)
  {
    assert Precedes(ops[i], ops[j]);
    assert Parent(MarkerOf(ops[i].path)) == ops[i].path;
    assert Parent(MarkerOf(ops[j].path)) == ops[j].path;
    assert |MarkerOf(ops[j].path)| == |ops[j].path| + 1;
  }

  lemma AddedFate(a: Attempt, h: Host, i: nat, k: nat, q: Path)
    requires a.Valid() && InOrder(a.ops) && i < k <= |a.ops| && Adds(a.ops[i], q)
    requires q == a.ops[i].path || forall j :: i < j < k ==> a.ops[j].path != q
    ensures Fate(a, h, k, q) == Fate(a, h, i + 1, q)
  {
    forall j | i + 1 <= j < k
      ensures !Touches(a.ops[j], q)
    {
      AddedIsFinal(a.ops, i, j, q);
    }
    FateUntouched(a, h, i + 1, k, q);
  }

  /** A base path that does not survive lies below a quarantine. */
  lemma LostIsQuarantined(plan: CommitPlan, a: Attempt, h: Host, final: Image, q: Path) returns (i: nat)
    requires Scenario(plan, a, h, final) && q in h.tree && !Survives(plan, h.tree, final, q)
    ensures i < |a.ops| && a.ops[i].Quarantine? && Touches(a.ops[i], q)
  {
    LostAreDestroyed(plan, h.tree, final, q);
    var e :| e in plan.diff && e.path == q && Destructive(e);
    i := CoveringQuarantine(plan, a.ops, e);
  }

  lemma CoveringQuarantine(plan: CommitPlan, ops: seq<Operation>, e: DiffEntry) returns (i: nat)
    requires Quotable(plan) && Orderly(plan, ops) && e in plan.diff && Destructive(e)
    ensures i < |ops| && ops[i].Quarantine? && ops[i].path <= e.path
  {
    assert Served(plan, ops, e);
    var op :| op in ops && op.Quarantine? && op.path <= e.path;
    i :| i < |ops| && ops[i] == op;
  }

  /** An entry that asks for a new node does not survive. */
  lemma AddedWasLost(plan: CommitPlan, a: Attempt, h: Host, final: Image, k: nat)
    requires Scenario(plan, a, h, final) && k < |a.ops| && Adds(a.ops[k], a.ops[k].path)
    ensures !Survives(plan, h.tree, final, a.ops[k].path)
  {
    var e := ServedBy(plan, a, h.tree, final, k);
  }

  /** The target of a creation or an install is absent when its turn comes. */
  lemma TargetAbsent(plan: CommitPlan, a: Attempt, h: Host, final: Image, k: nat)
    requires Scenario(plan, a, h, final) && k < |a.ops| && Adds(a.ops[k], a.ops[k].path) && !Clashes(a.ops, k)
    ensures Fate(a, h, k, a.ops[k].path) == None
  {
    hide ExactDiff, Quotable;
    var p := a.ops[k].path;
    forall j | 0 <= j < k
      ensures !Adds(a.ops[j], p)
    {
      if Adds(a.ops[j], p) {
        AddedIsFinal(a.ops, j, k, p);
      }
    }
    if p in h.tree {
      AddedWasLost(plan, a, h, final, k);
      var i := LostIsQuarantined(plan, a, h, final, p);
      MustPrecede(a.ops, i, k);
    }
    FateGone(a, h, k, p);
  }

  /** A quarantine root is still the base node when its turn comes. */
  lemma RootIntact(plan: CommitPlan, a: Attempt, h: Host, final: Image, k: nat)
    requires Scenario(plan, a, h, final) && k < |a.ops| && a.ops[k].Quarantine?
    ensures a.ops[k].path in h.tree && Observed(a.ops[k].expected, h.tree[a.ops[k].path])
    ensures Fate(a, h, k, a.ops[k].path) == Some(h.tree[a.ops[k].path])
  {
    var e := ServedBy(plan, a, h.tree, final, k);
    forall j | 0 <= j < k
      ensures !Touches(a.ops[j], e.path)
    {
      assert Precedes(a.ops[j], a.ops[k]);
      var f := ServedBy(plan, a, h.tree, final, j);
    }
    FateUntouched(a, h, 0, k, e.path);
  }

  /** The parent of every operation: a surviving directory, or one created before. */
  lemma ParentClass(plan: CommitPlan, a: Attempt, h: Host, final: Image, k: nat) returns (i: nat)
    requires Scenario(plan, a, h, final) && k < |a.ops|
    ensures var d := Parent(a.ops[k].path);
            && ImageDir(final, d)
            && (|| (Survives(plan, h.tree, final, d) && IsDir(h.tree, d))
                || (i < k && a.ops[i].CreateDirectory? && a.ops[i].path == d
                    && a.ops[i].after.mode == final[d].mode && !IsDir(h.tree, d)))
  {
    hide Fate, Precedes;
    var op := a.ops[k];
    var e := ServedBy(plan, a, h.tree, final, k);
    var d := Parent(op.path);
    i := 0;
    if op.Quarantine? {
      if !Survives(plan, h.tree, final, d) {
        var j := LostIsQuarantined(plan, a, h, final, d);
        Antichain(a.ops, j, k);
      }
    } else if op.IsMode() {
      ParentSurvives(plan, h.tree, final, op.path);
    } else {
      assert op.path in final;
      if !IsDir(h.tree, d) {
        i := CreatedParent(plan, a, h, final, k);
      }
    }
  }

  lemma CreatedParent(plan: CommitPlan, a: Attempt, h: Host, final: Image, k: nat) returns (i: nat)
    requires Scenario(plan, a, h, final) && k < |a.ops| && Adds(a.ops[k], a.ops[k].path)
    requires ImageDir(final, Parent(a.ops[k].path)) && !IsDir(h.tree, Parent(a.ops[k].path))
    ensures i < k && a.ops[i].CreateDirectory? && a.ops[i].path == Parent(a.ops[k].path)
    ensures a.ops[i].after.mode == final[Parent(a.ops[k].path)].mode
  {
    hide Quotable, Justified, WellFormed, Canonical;
    var d := Parent(a.ops[k].path);
    assert Differs(h.tree, final, d) && Named(plan, d);
    var f :| f in plan.diff && f.path == d;
    assert EntryTrue(plan, f, h.tree, final);
    assert NeedsCreate(f);
    assert Served(plan, a.ops, f);
    i :| 0 <= i < |a.ops| && a.ops[i] == CreateOp(f);
    MustPrecede(a.ops, i, k);
  }

  /** Owner-write in the base or in the plan: all a directory needs to change its entries. */
  predicate EverWritable(base: Tree, final: Image, d: Path) {
    (d in final && OwnerWrite(final[d].mode)) || (d in base && OwnerWrite(base[d].stamp.mode))
  }

  /** When an operation changes entries, its parent is writable iff it is in base or plan. */
  lemma ParentReady(plan: CommitPlan, a: Attempt, h: Host, final: Image, k: nat)
    requires Scenario(plan, a, h, final) && k < |a.ops|
    ensures var d := Parent(a.ops[k].path);
            && Fate(a, h, k, d).Some? && Fate(a, h, k, d).value.stamp.kind == Directory
            && (ChangesEntries(a.ops[k]) ==>
                  (OwnerWrite(Fate(a, h, k, d).value.stamp.mode) <==> EverWritable(h.tree, final, d)))
  {
    var d := Parent(a.ops[k].path);
    var i := ParentClass(plan, a, h, final, k);
    if Survives(plan, h.tree, final, d) && IsDir(h.tree, d) {
      SurvivorFate(plan, a, h, final, d, k);
      if ChangesEntries(a.ops[k]) {
        AccessGranted(plan, a, h, final, k, d);
      }
    } else {
      AddedFate(a, h, i, k, d);
      CreatedWritable(plan, a, h, final, i);
    }
  }

  lemma CreatedWritable(plan: CommitPlan, a: Attempt, h: Host, final: Image, i: nat)
    requires Scenario(plan, a, h, final) && i < |a.ops| && a.ops[i].CreateDirectory?
    ensures OwnerWrite(a.ops[i].after.mode)
  {
    var e := ServedBy(plan, a, h.tree, final, i);
    FullAccessWrites(e.after.value.mode);
  }

  /** Of an octal digit 7 the middle bit is set. */
  lemma MiddleBit(half: nat, group: nat)
    requires 2 * half <= 8 * group + 7 < 2 * half + 2
    ensures half % 2 == 1
  {
    assert half == 2 * (2 * group + 1) + 1;
  }

  lemma FullAccessWrites(mode: u32)
    ensures mode / 64 % 8 == 7 ==> OwnerWrite(mode)
  {
    var owner := mode / 64;
    if owner % 8 == 7 {
      MiddleBit(mode / 128, owner / 8);
    }
  }

  /** Grants run before, and restrictions after, everything that changes entries. */
  lemma AccessGranted(plan: CommitPlan, a: Attempt, h: Host, final: Image, k: nat, d: Path)
    requires Scenario(plan, a, h, final) && k < |a.ops| && ChangesEntries(a.ops[k])
    requires Survives(plan, h.tree, final, d) && IsDir(h.tree, d)
    ensures OwnerWrite(if ModeRan(a, k, d) then final[d].mode else h.tree[d].stamp.mode) <==>
            EverWritable(h.tree, final, d)
  {
    if ModeRan(a, k, d) {
      GrantRan(plan, a, h, final, k, d);
    } else if !OwnerWrite(h.tree[d].stamp.mode) && OwnerWrite(final[d].mode) {
      assert Differs(h.tree, final, d) && Named(plan, d);
      var e :| e in plan.diff && e.path == d;
      assert EntryTrue(plan, e, h.tree, final) && Served(plan, a.ops, e);
      var i: nat :| i < |a.ops| && a.ops[i] == DirectoryModeOp(plan, e);
      GrantFirst(a.ops, i, k);
    }
  }

  /** A mode that was set before an operation that changes entries is a grant. */
  lemma GrantRan(plan: CommitPlan, a: Attempt, h: Host, final: Image, k: nat, d: Path)
    requires Scenario(plan, a, h, final) && k < |a.ops| && ChangesEntries(a.ops[k])
    requires Survives(plan, h.tree, final, d) && IsDir(h.tree, d) && ModeRan(a, k, d)
    ensures OwnerWrite(final[d].mode)
  {
    var i :| 0 <= i < k && a.ops[i].IsMode() && a.ops[i].path == d;
    var e := ServedBy(plan, a, h.tree, final, i);
    assert Precedes(a.ops[i], a.ops[k]);
    assert IsGrant(a.ops[i]);
  }

  // ---------------------------------------------------------- the whole run

  lemma {:induction false} SlotsTaken(a: Attempt, hosts: seq<Host>, k: nat, slot: nat)
    requires Executes(a, hosts) && k < |hosts|
    requires slot in hosts[k].quarantine && slot !in hosts[0].quarantine
    ensures exists i :: 0 <= i < k && a.ops[i].Quarantine? && a.ops[i].slot == slot
  {
    if k > 0 {
      assert Ran(a, hosts, k - 1);
      if slot in hosts[k - 1].quarantine {
        SlotsTaken(a, hosts, k - 1, slot);
      }
    }
  }

  lemma {:induction false} LinkKept(a: Attempt, hosts: seq<Host>, k: nat, slot: nat)
    requires Executes(a, hosts) && k < |hosts| && slot in hosts[0].links
    requires forall i :: 0 <= i < k && a.ops[i].InstallSymlink? ==> a.ops[i].slot != slot
    ensures slot in hosts[k].links && hosts[k].links[slot] == hosts[0].links[slot]
  {
    if k > 0 {
      assert Ran(a, hosts, k - 1);
      LinkKept(a, hosts, k - 1, slot);
    }
  }

  /** May the k-th operation change its parent's entries, if that is what it does? */
  predicate Allowed(ops: seq<Operation>, base: Tree, final: Image, k: nat)
    requires k < |ops| && ops[k].path != []
  {
    ChangesEntries(ops[k]) ==> EverWritable(base, final, Parent(ops[k].path))
  }

  /** The next operation finds what it needs, and runs unless its parent is read-only. */
  ghost predicate NextReady(a: Attempt, hosts: seq<Host>, final: Image)
    requires Executes(a, hosts) && |hosts| <= |a.ops|
  {
    var k := |hosts| - 1;
    && Awaits(a.ops[k], hosts[k])
    && SourceWitness(a.ops[k], hosts[k]).Some?
    && (if Allowed(a.ops, hosts[0].tree, final, k)
        then Step(a, k, hosts[k]).Done? && StepsTo(a, k, hosts[k], Step(a, k, hosts[k]).host)
        else Step(a, k, hosts[k]) == Failed(hosts[k], PermissionDenied))
  }

  lemma NextStep(plan: CommitPlan, a: Attempt, hosts: seq<Host>, final: Image)
    requires Executes(a, hosts) && |hosts| <= |a.ops| && Scenario(plan, a, hosts[0], final)
    requires !Clashes(a.ops, |hosts| - 1)
    ensures NextReady(a, hosts, final)
  {
    var k, h := |hosts| - 1, hosts[0];
    var op := a.ops[k];
    var d := Parent(op.path);
    ParentReady(plan, a, h, final, k);
    FateOf(a, hosts, k, d);
    FateOf(a, hosts, k, op.path);
    if op.Quarantine? {
      RootIntact(plan, a, h, final, k);
      FreeSlot(a, hosts, k);
    } else if op.IsMode() {
      ModeTarget(plan, a, h, final, k);
    } else {
      TargetAbsent(plan, a, h, final, k);
      SourceStaged(plan, a, hosts, final, k);
      if op.CreateDirectory? {
        CreatedWritable(plan, a, h, final, k);
      }
    }
  }

  /** The first operation that clashes with a marker, if no read-only directory stops the run before it. */
  predicate MeetsMarker(ops: seq<Operation>, base: Tree, final: Image, k: nat)
    requires forall op :: op in ops ==> op.path != []
  {
    k < |ops| && Clashes(ops, k) && forall i :: 0 <= i < k ==> !Clashes(ops, i) && Allowed(ops, base, final, i)
  }

  /** Whether a run gets to an operation that clashes with a marker. */
  predicate ReachesMarker(ops: seq<Operation>, base: Tree, final: Image)
    requires forall op :: op in ops ==> op.path != []
  {
    exists k: nat :: k < |ops| && MeetsMarker(ops, base, final, k)
  }

  /** An operation that ran was allowed to. */
  lemma RanIsAllowed(plan: CommitPlan, a: Attempt, hosts: seq<Host>, final: Image, i: nat)
    requires Executes(a, hosts) && Scenario(plan, a, hosts[0], final) && i < |hosts| - 1
    ensures Allowed(a.ops, hosts[0].tree, final, i)
  {
    hide ExactDiff, Orderly, Quotable, Staged, EverWritable;
    ParentReady(plan, a, hosts[0], final, i);
    FateOf(a, hosts, i, Parent(a.ops[i].path));
    assert Ran(a, hosts, i);
  }

  /** So a run that has not met a marker before has met none, or meets the first one now. */
  lemma NothingMetBefore(plan: CommitPlan, a: Attempt, hosts: seq<Host>, final: Image, k: nat)
    requires Executes(a, hosts) && Scenario(plan, a, hosts[0], final) && k < |hosts| && k < |a.ops|
    requires forall i :: 0 <= i < k ==> !Clashes(a.ops, i)
    ensures Clashes(a.ops, k) <==> MeetsMarker(a.ops, hosts[0].tree, final, k)
  {
    hide Scenario, Clashes, Allowed;
    forall i | 0 <= i < k
      ensures Allowed(a.ops, hosts[0].tree, final, i)
    {
      RanIsAllowed(plan, a, hosts, final, i);
    }
  }

  /** Wherever a run gets that is to meet no marker, nothing clashed so far. */
  lemma {:induction false} NothingMet(plan: CommitPlan, a: Attempt, hosts: seq<Host>, final: Image, k: nat)
    requires Executes(a, hosts) && Scenario(plan, a, hosts[0], final) && k <= |hosts| && k <= |a.ops|
    requires !ReachesMarker(a.ops, hosts[0].tree, final)
    ensures forall i :: 0 <= i < k ==> !Clashes(a.ops, i)
  {
    hide Scenario, Clashes, MeetsMarker, Executes;
    if k > 0 {
      NothingMet(plan, a, hosts, final, k - 1);
      NothingMetBefore(plan, a, hosts, final, k - 1);
    }
  }

  /** When no operation clashes, no planned entry has a marker's name. */
  lemma ClashesSayAll(plan: CommitPlan, a: Attempt, base: Tree, final: Image)
    requires Planned(plan, a, base, final) && forall k :: 0 <= k < |a.ops| ==> !Clashes(a.ops, k)
    ensures NoMarkerClash(plan, final)
  {
    forall e | e in plan.diff && NeedsCreate(e)
      ensures MarkerOf(e.path) !in final
    {
      if MarkerOf(e.path) in final {
        var k := ClashingEntry(plan, a, base, final, e);
      }
    }
  }

  lemma ClashingEntry(plan: CommitPlan, a: Attempt, base: Tree, final: Image, e: DiffEntry) returns (k: nat)
    requires Planned(plan, a, base, final) && e in plan.diff && NeedsCreate(e) && MarkerOf(e.path) in final
    ensures k < |a.ops| && Clashes(a.ops, k)
  {
    hide Justified;
    var m := MarkerOf(e.path);
    assert Parent(m) == e.path && |m| == |e.path| + 1;
    assert EntryTrue(plan, e, base, final) && Served(plan, a.ops, e);
    assert Differs(base, final, m) && Named(plan, m);
    var f :| f in plan.diff && f.path == m;
    assert EntryTrue(plan, f, base, final) && Served(plan, a.ops, f);
    var j :| 0 <= j < |a.ops| && a.ops[j] == CreateOp(e);
    k := OperationFor(plan, a.ops, f);
    MustPrecede(a.ops, j, k);
  }

  /** An entry that is added has its operation. */
  lemma OperationFor(plan: CommitPlan, ops: seq<Operation>, f: DiffEntry) returns (k: nat)
    requires f.before.None? && f.after.Some? && EntryError(plan, f).None? && Served(plan, ops, f)
    ensures k < |ops| && ops[k].path == f.path && (ops[k].CreateDirectory? || IsInstall(ops[k]))
  {
    var op :| op in ops && op.path == f.path && (op.CreateDirectory? || IsInstall(op));
    k :| 0 <= k < |ops| && ops[k] == op;
  }

  /** A staged link is still there when its turn comes: slots are used once. */
  lemma LinkStaged(a: Attempt, hosts: seq<Host>, k: nat)
    requires Executes(a, hosts) && InOrder(a.ops) && k < |hosts| && k < |a.ops| && a.ops[k].InstallSymlink?
    requires a.ops[k].slot in hosts[0].links
    ensures var slot := a.ops[k].slot; slot in hosts[k].links && hosts[k].links[slot] == hosts[0].links[slot]
  {
    hide StepsTo;
    forall i | 0 <= i < k && a.ops[i].InstallSymlink?
      ensures a.ops[i].slot != a.ops[k].slot
    {
      assert Precedes(a.ops[i], a.ops[k]);
    }
    LinkKept(a, hosts, k, a.ops[k].slot);
  }

  /** What an install takes from the stage is still there, and is what it promises. */
  lemma SourceStaged(plan: CommitPlan, a: Attempt, hosts: seq<Host>, final: Image, k: nat)
    requires Executes(a, hosts) && k < |hosts| && k < |a.ops| && Scenario(plan, a, hosts[0], final)
    ensures var op := a.ops[k];
            && (op.InstallFile? ==> op.slot in hosts[k].staged && NodeMatches(hosts[k].staged[op.slot], op.after))
            && (op.InstallSymlink? ==> op.slot in hosts[k].links && NodeMatches(hosts[k].links[op.slot], op.after))
  {
    hide StepsTo;
    var op := a.ops[k];
    assert op in a.ops;
    StagedConstant(a, hosts, k);
    if op.InstallSymlink? {
      LinkStaged(a, hosts, k);
    }
  }

  lemma FreeSlot(a: Attempt, hosts: seq<Host>, k: nat)
    requires Executes(a, hosts) && k < |hosts| && k < |a.ops| && InOrder(a.ops)
    requires a.ops[k].Quarantine? && hosts[0].quarantine == map[]
    ensures a.ops[k].slot !in hosts[k].quarantine
  {
    if a.ops[k].slot in hosts[k].quarantine {
      SlotsTaken(a, hosts, k, a.ops[k].slot);
    }
  }

  /** An entry whose mode an operation sets survives, in the state the operation expects. */
  lemma ModeServes(plan: CommitPlan, op: Operation, e: DiffEntry, base: Tree, final: Image)
    requires op.IsMode() && Serves(plan, op, e) && EntryTrue(plan, e, base, final) && Canonical(plan.diff)
    ensures Survives(plan, base, final, op.path) && Observed(op.expected, base[op.path])
    ensures op.SetFileMode? ==> base[op.path].stamp.kind == File
    ensures op.SetDirectoryMode? ==> base[op.path].stamp.kind == Directory
  {
  }

  /** No earlier operation changes the mode of the same node. */
  lemma ModeRunsOnce(ops: seq<Operation>, i: nat, k: nat)
    requires InOrder(ops) && i < k < |ops| && ops[i].IsMode() && ops[k].IsMode()
    ensures ops[i].path != ops[k].path
  {
    assert Precedes(ops[i], ops[k]);
  }

  /** A mode operation finds its base node untouched. */
  lemma ModeTarget(plan: CommitPlan, a: Attempt, h: Host, final: Image, k: nat)
    requires Scenario(plan, a, h, final) && k < |a.ops| && a.ops[k].IsMode()
    ensures var p := a.ops[k].path;
            && p in h.tree && Fate(a, h, k, p) == Some(h.tree[p])
            && Observed(a.ops[k].expected, h.tree[p])
            && (a.ops[k].SetFileMode? ==> h.tree[p].stamp.kind == File)
            && (a.ops[k].SetDirectoryMode? ==> h.tree[p].stamp.kind == Directory)
  {
    hide Serves, EntryTrue, Fate, Observed, Precedes, WithMode;
    var p := a.ops[k].path;
    var e := ServedBy(plan, a, h.tree, final, k);
    ModeServes(plan, a.ops[k], e, h.tree, final);
    SurvivorFate(plan, a, h, final, p, k);
    if ModeRan(a, k, p) {
      var i :| 0 <= i < k && a.ops[i].IsMode() && a.ops[i].path == p;
      ModeRunsOnce(a.ops, i, k);
    }
  }

  /** The states the run passes through: as far as it gets, at most k operations. */
  ghost function Trace(a: Attempt, h: Host, k: nat): (hosts: seq<Host>)
    requires a.Valid() && k <= |a.ops|
    ensures 1 <= |hosts| <= k + 1 && hosts[0] == h
  {
    if k == 0 then [h]
    else
      var hosts := Trace(a, h, k - 1);
      if |hosts| == k && Step(a, k - 1, hosts[k - 1]).Done? then hosts + [Step(a, k - 1, hosts[k - 1]).host]
      else hosts
  }

  lemma ExtendExecution(a: Attempt, hosts: seq<Host>, next: Host)
    requires Executes(a, hosts) && |hosts| <= |a.ops|
    requires StepsTo(a, |hosts| - 1, hosts[|hosts| - 1], next)
    ensures Executes(a, hosts + [next])
  {
    var longer := hosts + [next];
    forall i | 0 <= i < |longer| - 1
      ensures Ran(a, longer, i)
    {
      if i < |hosts| - 1 {
        assert Ran(a, hosts, i);
      }
    }
  }

  /**
   The trace is an execution; it is complete exactly when every operation so far is allowed,
   and otherwise it ends right before the first one that is not.
   */
  ghost predicate Progress(a: Attempt, h: Host, final: Image, k: nat)
    requires a.Valid() && k <= |a.ops|
  {
    Reached(a, Trace(a, h, k), final, k)
  }

  ghost predicate Reached(a: Attempt, hosts: seq<Host>, final: Image, k: nat)
    requires a.Valid() && k <= |a.ops| && 1 <= |hosts| <= k + 1
  {
    && Executes(a, hosts)
    && (|hosts| == k + 1 <==> forall i :: 0 <= i < k ==> Allowed(a.ops, hosts[0].tree, final, i))
    && (|hosts| <= k ==> NextReady(a, hosts, final) && !Allowed(a.ops, hosts[0].tree, final, |hosts| - 1))
  }

  lemma NoStepYet(a: Attempt, h: Host, final: Image)
    requires a.Valid() && WellFormed(h.tree)
    ensures Progress(a, h, final, 0)
  {
  }

  lemma ReadyToStep(a: Attempt, hosts: seq<Host>, final: Image)
    requires Executes(a, hosts) && |hosts| <= |a.ops| && NextReady(a, hosts, final)
    requires Allowed(a.ops, hosts[0].tree, final, |hosts| - 1)
    ensures var k := |hosts| - 1; Step(a, k, hosts[k]).Done? && StepsTo(a, k, hosts[k], Step(a, k, hosts[k]).host)
  {
  }

  lemma TraceStep(a: Attempt, h: Host, final: Image, k: nat)
    requires a.Valid() && 0 < k <= |a.ops| && Progress(a, h, final, k - 1)
    requires |Trace(a, h, k - 1)| == k ==> NextReady(a, Trace(a, h, k - 1), final)
    ensures Progress(a, h, final, k)
  {
    hide Executes, NextReady, Allowed, StepsTo, Step;
    var hosts := Trace(a, h, k - 1);
    if |hosts| == k && Allowed(a.ops, h.tree, final, k - 1) {
      ReadyToStep(a, hosts, final);
      var next := Step(a, k - 1, hosts[k - 1]).host;
      assert Reached(a, hosts + [next], final, k) by {
        ReachedGrows(a, hosts, final, k, next);
      }
      assert Trace(a, h, k) == hosts + [next];
    } else {
      assert Reached(a, hosts, final, k) by {
        ReachedStays(a, hosts, final, k);
      }
      TraceEnds(a, h, final, k);
    }
  }

  lemma TraceEnds(a: Attempt, h: Host, final: Image, k: nat)
    requires a.Valid() && 0 < k <= |a.ops| && Executes(a, Trace(a, h, k - 1))
    requires |Trace(a, h, k - 1)| == k ==> NextReady(a, Trace(a, h, k - 1), final) && !Allowed(a.ops, h.tree, final, k - 1)
    ensures Trace(a, h, k) == Trace(a, h, k - 1)
  {
    hide Executes, StepsTo, Allowed, Awaits, SourceWitness, Step;
  }

  lemma ReachedStays(a: Attempt, hosts: seq<Host>, final: Image, k: nat)
    requires a.Valid() && 0 < k <= |a.ops| && 1 <= |hosts| <= k && Reached(a, hosts, final, k - 1)
    requires |hosts| == k ==> NextReady(a, hosts, final) && !Allowed(a.ops, hosts[0].tree, final, k - 1)
    ensures Reached(a, hosts, final, k)
  {
    hide StepsTo;
    assert !Allowed(a.ops, hosts[0].tree, final, |hosts| - 1);
  }

  lemma ReachedGrows(a: Attempt, hosts: seq<Host>, final: Image, k: nat, next: Host)
    requires a.Valid() && 0 < k <= |a.ops| && |hosts| == k && Reached(a, hosts, final, k - 1)
    requires StepsTo(a, k - 1, hosts[k - 1], next) && Allowed(a.ops, hosts[0].tree, final, k - 1)
    ensures Reached(a, hosts + [next], final, k)
  {
    hide StepsTo, Allowed;
    ExtendExecution(a, hosts, next);
    assert (hosts + [next])[0] == hosts[0];
    assert forall i :: 0 <= i < k - 1 ==> Allowed(a.ops, hosts[0].tree, final, i);
  }

  /**
   The run executes every operation up to the first that would change the entries of a
   directory that neither the base nor the plan makes writable, and stops there, having
   changed nothing. No other operation fails.
   */
  lemma {:induction false} RunsUntilForbidden(plan: CommitPlan, a: Attempt, h: Host, final: Image, k: nat)
    requires Scenario(plan, a, h, final) && k <= |a.ops| && forall i :: 0 <= i < k ==> !Clashes(a.ops, i)
    ensures Progress(a, h, final, k)
  {
    hide Quotable, Orderly, NextReady, Staged, Clashes;
    if k == 0 {
      NoStepYet(a, h, final);
    } else {
      RunsUntilForbidden(plan, a, h, final, k - 1);
      if |Trace(a, h, k - 1)| == k {
        NextStep(plan, a, Trace(a, h, k - 1), final);
      }
      TraceStep(a, h, final, k);
    }
  }

  // ----------------------------------------------------------- final tree

  /** Where the run ends, path by path: what the plan says, or nothing but a marker. */
  lemma FinalNode(plan: CommitPlan, a: Attempt, h: Host, final: Image, q: Path)
    requires Scenario(plan, a, h, final)
    requires q !in Markers(a.ops, |a.ops|)
    ensures Fate(a, h, |a.ops|, q).Some? <==> q in final
    ensures q in final ==> View(Fate(a, h, |a.ops|, q).value) == final[q]
  {
    if Survives(plan, h.tree, final, q) {
      FinalSurvivor(plan, a, h, final, q);
    } else if q in final {
      var i := AddedForPlan(plan, a, h, final, q);
      AddedFate(a, h, i, |a.ops|, q);
      AddedView(plan, a, h, final, i);
    } else {
      forall j | 0 <= j < |a.ops|
        ensures !Adds(a.ops[j], q)
      {
        if Adds(a.ops[j], q) {
          PathPlanned(plan, a, h, final, j);
        }
      }
      if q in h.tree {
        var i := LostIsQuarantined(plan, a, h, final, q);
      }
      FateGone(a, h, |a.ops|, q);
    }
  }

  /** A surviving node ends with the planned mode, whether or not an operation set it. */
  lemma FinalSurvivor(plan: CommitPlan, a: Attempt, h: Host, final: Image, q: Path)
    requires Scenario(plan, a, h, final) && Survives(plan, h.tree, final, q)
    ensures Fate(a, h, |a.ops|, q).Some?
    ensures View(Fate(a, h, |a.ops|, q).value) == final[q]
  {
    SurvivorFate(plan, a, h, final, q, |a.ops|);
    if Differs(h.tree, final, q) {
      assert Named(plan, q);
      var e :| e in plan.diff && e.path == q;
      assert EntryTrue(plan, e, h.tree, final) && Served(plan, a.ops, e);
      SurvivorServed(plan, a, h, final, e);
    } else if ModeRan(a, |a.ops|, q) {
      assert View(WithMode(h.tree[q], final[q].mode)) == final[q];
    }
  }

  lemma SurvivorServed(plan: CommitPlan, a: Attempt, h: Host, final: Image, e: DiffEntry)
    requires Scenario(plan, a, h, final) && e in plan.diff && EntryTrue(plan, e, h.tree, final)
    requires Survives(plan, h.tree, final, e.path) && Differs(h.tree, final, e.path)
    ensures ModeRan(a, |a.ops|, e.path)
    ensures View(WithMode(h.tree[e.path], final[e.path].mode)) == final[e.path]
  {
    assert Served(plan, a.ops, e);
    var op := if e.after.value.kind == Directory then DirectoryModeOp(plan, e) else ContentOp(plan, e, 0);
    var i :| 0 <= i < |a.ops| && a.ops[i] == op;
  }

  /** A planned path that does not survive is added by some operation. */
  lemma AddedForPlan(plan: CommitPlan, a: Attempt, h: Host, final: Image, q: Path) returns (i: nat)
    requires Scenario(plan, a, h, final) && q in final && !Survives(plan, h.tree, final, q)
    ensures i < |a.ops| && Adds(a.ops[i], q) && a.ops[i].path == q
  {
    var e := EntryForAdded(plan, h.tree, final, q);
    assert Served(plan, a.ops, e);
    i := AddingOperation(plan, a.ops, e);
  }

  lemma AddingOperation(plan: CommitPlan, ops: seq<Operation>, e: DiffEntry) returns (i: nat)
    requires (e.before.Some? ==> Expects(plan, e)) && Served(plan, ops, e) && (NeedsCreate(e) || Slotted(e))
    ensures i < |ops| && Adds(ops[i], e.path) && ops[i].path == e.path
  {
    var op: Operation;
    if NeedsCreate(e) {
      op := CreateOp(e);
    } else {
      op :| op in ops && IsInstall(op) && op.path == e.path;
    }
    i :| i < |ops| && ops[i] == op;
  }

  lemma EntryForAdded(plan: CommitPlan, base: Tree, final: Image, q: Path) returns (e: DiffEntry)
    requires ExactDiff(plan, base, final) && q in final && !Survives(plan, base, final, q)
    ensures e in plan.diff && e.path == q && (NeedsCreate(e) || Slotted(e))
    ensures e.before.Some? ==> Expects(plan, e)
  {
    if q in base {
      LostAreDestroyed(plan, base, final, q);
      e :| e in plan.diff && e.path == q && Destructive(e);
    } else {
      assert Differs(base, final, q) && Named(plan, q);
      e :| e in plan.diff && e.path == q;
    }
    assert EntryTrue(plan, e, base, final);
  }

  lemma AddedView(plan: CommitPlan, a: Attempt, h: Host, final: Image, i: nat)
    requires Scenario(plan, a, h, final) && i < |a.ops| && Adds(a.ops[i], a.ops[i].path)
    ensures a.ops[i].path in final
    ensures Fate(a, h, i + 1, a.ops[i].path).Some?
    ensures View(Fate(a, h, i + 1, a.ops[i].path).value) == final[a.ops[i].path]
  {
    hide Orderly, Quotable, Canonical, Named, WellFormed;
    var e := ServedBy(plan, a, h.tree, final, i);
    assert a.ops[i] in a.ops;
  }

  /**
   Lowering preserves meaning: once every operation ran and the ownership markers are
   cleared, the tree is exactly the planned one.
   */
  lemma LoweringIsFaithful(plan: CommitPlan, a: Attempt, hosts: seq<Host>, final: Image)
    requires Executes(a, hosts) && |hosts| == |a.ops| + 1 && Scenario(plan, a, hosts[0], final) && NoMarkerClash(plan, final)
    ensures Realizes(hosts[|a.ops|].tree - Markers(a.ops, |a.ops|), final)
  {
    var t := hosts[|a.ops|].tree - Markers(a.ops, |a.ops|);
    forall q
      ensures q in t <==> q in final
      ensures q in t ==> View(t[q]) == final[q]
    {
      FateOf(a, hosts, |a.ops|, q);
      if q in Markers(a.ops, |a.ops|) {
        var i :| 0 <= i < |a.ops| && a.ops[i].CreateDirectory? && q == MarkerOf(a.ops[i].path);
        var e := ServedBy(plan, a, hosts[0].tree, final, i);
      } else {
        FinalNode(plan, a, hosts[0], final, q);
      }
    }
  }

  // ------------------------------------------- what reversing a plan needs

  lemma PlannedIsShaped(plan: CommitPlan, a: Attempt, base: Tree, final: Image)
    requires Planned(plan, a, base, final) && NoMarkerClash(plan, final)
    ensures Shaped(a.ops, |a.ops| + 1)
  {
    forall k | 0 <= k < |a.ops|
      ensures !Clashes(a.ops, k)
    {
      NoClash(plan, a, base, final, k);
    }
    ShapedUpTo(plan, a, base, final, |a.ops| + 1);
  }

  lemma ShapedUpTo(plan: CommitPlan, a: Attempt, base: Tree, final: Image, n: nat)
    requires Planned(plan, a, base, final) && forall k :: 0 <= k < n && k < |a.ops| ==> !Clashes(a.ops, k)
    ensures Shaped(a.ops, n)
  {
    forall i, j | 0 <= i < j < n && j < |a.ops| && a.ops[i].CreateDirectory?
      ensures !a.ops[j].Quarantine?
    {
      assert Precedes(a.ops[i], a.ops[j]);
    }
    forall i, j | 0 <= i < n && 0 <= j < n && i < |a.ops| && j < |a.ops| && a.ops[i].CreateDirectory?
      ensures a.ops[j].path != MarkerOf(a.ops[i].path)
    {
      assert !Clashes(a.ops, j);
      if j < i {
        NotYetThere(plan, a, base, final, j, i);
      }
      assert |MarkerOf(a.ops[i].path)| == |a.ops[i].path| + 1;
    }
  }

  /** No operation before the creation of a directory is at the path of its marker. */
  lemma NotYetThere(plan: CommitPlan, a: Attempt, base: Tree, final: Image, j: nat, i: nat)
    requires Planned(plan, a, base, final) && j < i < |a.ops| && a.ops[i].CreateDirectory?
    ensures a.ops[j].path != MarkerOf(a.ops[i].path)
  {
    var e := ServedBy(plan, a, base, final, i);
    var f := ServedBy(plan, a, base, final, j);
    assert Precedes(a.ops[j], a.ops[i]);
    assert Parent(MarkerOf(e.path)) == e.path && |MarkerOf(e.path)| == |e.path| + 1;
  }

  lemma PlannedModesPrivate(plan: CommitPlan, a: Attempt, base: Tree, final: Image)
    requires Planned(plan, a, base, final)
    ensures Reentry.PrivateModes(a.ops)
  {
    forall i, j | 0 <= i < |a.ops| && 0 <= j < |a.ops| && i != j && a.ops[i].IsMode()
      ensures if a.ops[j].IsMode() then a.ops[j].path != a.ops[i].path else !(a.ops[j].path <= a.ops[i].path)
    {
      ModePrivate(plan, a, base, final, i, j);
    }
  }

  /** The node of a mode operation survives, and so do its ancestors. */
  lemma ModePrivate(plan: CommitPlan, a: Attempt, base: Tree, final: Image, i: nat, j: nat)
    requires Planned(plan, a, base, final) && i < |a.ops| && j < |a.ops| && i != j && a.ops[i].IsMode()
    ensures if a.ops[j].IsMode() then a.ops[j].path != a.ops[i].path else !(a.ops[j].path <= a.ops[i].path)
  {
    hide ExactDiff, Quotable, Justified, Served;
    var p, q := a.ops[i].path, a.ops[j].path;
    if i < j {
      assert Precedes(a.ops[i], a.ops[j]);
    } else {
      assert Precedes(a.ops[j], a.ops[i]);
    }
    if !a.ops[j].IsMode() {
      ModeBelow(plan, a, base, final, i, j);
    }
  }

  lemma ModeBelow(plan: CommitPlan, a: Attempt, base: Tree, final: Image, i: nat, j: nat)
    requires Planned(plan, a, base, final) && i < |a.ops| && j < |a.ops|
    requires a.ops[i].IsMode() && !a.ops[j].IsMode() && (a.ops[j].path == a.ops[i].path ==> a.ops[j].Quarantine?)
    ensures !(a.ops[j].path <= a.ops[i].path)
  {
    hide Orderly, Quotable;
    var p, q := a.ops[i].path, a.ops[j].path;
    var e := ServedBy(plan, a, base, final, i);
    var f := ServedBy(plan, a, base, final, j);
    assert Survives(plan, base, final, p);
    if q <= p && q != p {
      AncestorsAreDirectories(base, q, p);
      AncestorsAreImageDirs(final, q, p);
    }
  }
}
