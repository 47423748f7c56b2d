/**
 Executions of a lowered plan, the journal they leave behind, and reverse-order rollback.
 */
module Rollback {
  import opened Types
  import opened Engine

  /** One attempt to carry out a plan. */
  datatype Attempt = Attempt(transaction: Digest, ops: seq<Operation>, allocs: seq<Alloc>) {
    predicate Valid() {
      && |allocs| == |ops| < 0x1_0000_0000
      && forall i | 0 <= i < |ops| :: ops[i].path != []
    }
  }

  /** Pin the source, then mutate the host. */
  function Step(a: Attempt, i: nat, h: Host): Applied
    requires a.Valid() && i < |a.ops|
  {
    match SourceWitness(a.ops[i], h)
    case None => Failed(h, HostIo)
    case Some(source) => Apply(a.transaction, i, a.ops[i], h, source, a.allocs[i])
  }

  /** The step succeeds without its install replacing an entry that was already there. */
  ghost predicate StepsTo(a: Attempt, i: nat, h: Host, h': Host)
    requires a.Valid() && i < |a.ops|
  {
    && Step(a, i, h).Done? && Step(a, i, h).host == h'
    && (a.ops[i].InstallSymlink? ==> a.ops[i].path !in h.tree)
  }

  /** Operation i of the attempt led from `hosts[i]` to `hosts[i + 1]`. */
  ghost predicate Ran(a: Attempt, hosts: seq<Host>, i: nat)
    requires a.Valid() && i < |a.ops| && i < |hosts| - 1
  {
    StepsTo(a, i, hosts[i], hosts[i + 1])
  }

  /** `hosts[k]` is the host after the first k operations, all of which succeeded. */
  ghost predicate Executes(a: Attempt, hosts: seq<Host>)
  {
    && a.Valid()
    && 1 <= |hosts| <= |a.ops| + 1
    && WellFormed(hosts[0].tree)
    && forall i :: 0 <= i < |hosts| - 1 ==> Ran(a, hosts, i)
  }

  /** Structural facts about the first n operations that reversing them relies on. */
  ghost predicate Shaped(ops: seq<Operation>, n: nat) {
    && (forall i, j :: 0 <= i < j < n && j < |ops| && ops[i].CreateDirectory? ==> !ops[j].Quarantine?)
    && (forall i, j :: 0 <= i < n && 0 <= j < n && i < |ops| && j < |ops| && ops[i].CreateDirectory? ==>
                         ops[j].path != MarkerOf(ops[i].path))
  }

  /** Ownership markers written by the first k operations. */
  ghost function Markers(ops: seq<Operation>, k: nat): set<Path>
    requires k <= |ops|
  {
    set i | 0 <= i < k && ops[i].CreateDirectory? :: MarkerOf(ops[i].path)
  }

  // ------------------------------------------------- invariants of execution

  /** In a well-formed tree nothing lives directly below an absent path. */
  lemma AbsentHasNoDescendants(t: Tree, p: Path, q: Path)
    requires WellFormed(t) && p !in t && q != [] && Parent(q) == p
    ensures q !in t
  {
  }

  /** The tree that a successful step leaves. */
  function TreeAfter(a: Attempt, i: nat, h: Host): Tree
    requires a.Valid() && i < |a.ops|
  {
    match a.ops[i]
    case Quarantine(p, _, _) => Without(h.tree, p)
    case CreateDirectory(p, after) =>
      h.tree[p := NewDirectory(after.mode, a.allocs[i])][MarkerOf(p) := NewMarker(a.transaction, i, a.allocs[i])]
    case InstallFile(p, _, slot) => if slot in h.staged then h.tree[p := h.staged[slot]] else h.tree
    case InstallSymlink(p, _, slot) => if slot in h.links then h.tree[p := h.links[slot]] else h.tree
    case SetFileMode(p, _, mode) => if p in h.tree then h.tree[p := WithMode(h.tree[p], mode)] else h.tree
    case SetDirectoryMode(p, _, mode) => if p in h.tree then h.tree[p := WithMode(h.tree[p], mode)] else h.tree
  }

  lemma StepTree(a: Attempt, i: nat, h: Host, h': Host)
    requires a.Valid() && i < |a.ops| && StepsTo(a, i, h, h')
    ensures h'.tree == TreeAfter(a, i, h)
    ensures IsDir(h.tree, Parent(a.ops[i].path))
    ensures a.ops[i].Quarantine? || a.ops[i].IsMode() <==> a.ops[i].path in h.tree
  {
    hide WithMode, NewDirectory, NewMarker, Without, Relative, FileMatches, NodeMatches, OwnerWrite;
  }

  lemma RemovedKeepsWellFormed(t: Tree, p: Path)
    requires WellFormed(t) && p != []
    ensures WellFormed(Without(t, p))
  {
    forall q | q in Without(t, p) && q != []
      ensures IsDir(Without(t, p), Parent(q))
    {
      assert p <= Parent(q) ==> p <= q;
    }
  }

  /** A new node below a directory, or one of the same kind in the place of another. */
  lemma PlacedKeepsWellFormed(t: Tree, p: Path, n: Node)
    requires WellFormed(t) && p != [] && IsDir(t, Parent(p)) && (p in t ==> n.stamp.kind == t[p].stamp.kind)
    ensures WellFormed(t[p := n])
  {
  }

  lemma StepKeepsWellFormed(a: Attempt, i: nat, h: Host, h': Host)
    requires a.Valid() && i < |a.ops| && WellFormed(h.tree) && StepsTo(a, i, h, h')
    ensures WellFormed(h'.tree)
  {
    hide StepsTo, WellFormed, Without;
    StepTree(a, i, h, h');
    var op := a.ops[i];
    if op.Quarantine? {
      RemovedKeepsWellFormed(h.tree, op.path);
    } else if op.CreateDirectory? {
      var made, m := NewDirectory(op.after.mode, a.allocs[i]), MarkerOf(op.path);
      PlacedKeepsWellFormed(h.tree, op.path, made);
      assert Parent(m) == op.path;
      AbsentHasNoDescendants(h.tree, op.path, m);
      PlacedKeepsWellFormed(h.tree[op.path := made], m, NewMarker(a.transaction, i, a.allocs[i]));
    } else if op.path in h'.tree {
      PlacedKeepsWellFormed(h.tree, op.path, h'.tree[op.path]);
    }
  }

  lemma {:induction false} ExecutionKeepsWellFormed(a: Attempt, hosts: seq<Host>, k: nat)
    requires Executes(a, hosts) && k < |hosts|
    ensures WellFormed(hosts[k].tree)
  {
    if k > 0 {
      ExecutionKeepsWellFormed(a, hosts, k - 1);
      assert Ran(a, hosts, k - 1);
      StepKeepsWellFormed(a, k - 1, hosts[k - 1], hosts[k]);
    }
  }

  /** Staged files are linked, never moved. */
  lemma StagedStep(a: Attempt, i: nat, h: Host, h': Host)
    requires a.Valid() && i < |a.ops| && StepsTo(a, i, h, h')
    ensures h'.staged == h.staged
  {
  }

  lemma {:induction false} StagedConstant(a: Attempt, hosts: seq<Host>, k: nat)
    requires Executes(a, hosts) && k < |hosts|
    ensures hosts[k].staged == hosts[0].staged
  {
    hide StepsTo;
    if k > 0 {
      StagedConstant(a, hosts, k - 1);
      assert Ran(a, hosts, k - 1);
      StagedStep(a, k - 1, hosts[k - 1], hosts[k]);
    }
  }

  /** In a shaped plan the markers written so far are present, as plain files. */
  lemma {:induction false} MarkersPresent(a: Attempt, hosts: seq<Host>, k: nat)
    requires Executes(a, hosts) && Shaped(a.ops, k) && k < |hosts|
    ensures forall q :: q in Markers(a.ops, k) ==> q in hosts[k].tree && hosts[k].tree[q].stamp.kind == File
  {
    if k > 0 {
      MarkersPresent(a, hosts, k - 1);
      var op := a.ops[k - 1];
      assert Ran(a, hosts, k - 1);
      StepKeepsFiles(a, k - 1, hosts[k - 1], hosts[k]);
      forall q | q in Markers(a.ops, k)
        ensures q in hosts[k].tree && hosts[k].tree[q].stamp.kind == File
      {
        var i :| 0 <= i < k && a.ops[i].CreateDirectory? && q == MarkerOf(a.ops[i].path);
        if i < k - 1 {
          assert q in Markers(a.ops, k - 1);
        }
      }
    }
  }

  /** A step other than a quarantine leaves the files at other paths in place, as files. */
  lemma StepKeepsFiles(a: Attempt, i: nat, h: Host, h': Host)
    requires a.Valid() && i < |a.ops| && StepsTo(a, i, h, h')
    ensures !a.ops[i].Quarantine? ==>
              forall q :: q in h.tree && q != a.ops[i].path && h.tree[q].stamp.kind == File ==>
                            q in h'.tree && h'.tree[q].stamp.kind == File
    ensures a.ops[i].CreateDirectory? ==>
              MarkerOf(a.ops[i].path) in h'.tree && h'.tree[MarkerOf(a.ops[i].path)].stamp.kind == File
  {
    hide StepsTo;
    StepTree(a, i, h, h');
  }

  // ------------------------------------------------------- undoing one step

  /**
   `h` is the host after the step, except that some ownership markers of created
   directories may already be gone; `undone` is what recovery must reach.
   */
  ghost predicate After(h: Host, reached: Host, gone: set<Path>) {
    && h.tree == reached.tree - gone
    && h.quarantine == reached.quarantine
    && h.staged == reached.staged
  }

  /** What the journal may say about an operation that ran from `before`. */
  ghost predicate Testifies(a: Attempt, i: nat, before: Host, w: Witnesses)
    requires a.Valid() && i < |a.ops| && Step(a, i, before).Done?
  {
    var op, done := a.ops[i], Step(a, i, before);
    && w.source == SourceWitness(op, before).value
    && w.parent == Some(WitnessOf(before.tree[Parent(op.path)].stamp))
    && (w.completed == None || w.completed == Some(done.owner))
    && (w.metadata == None || w.metadata == done.stamp)
  }

  /** Reverting an operation by the book: same answer from inference and from undo. */
  ghost predicate Reverts(a: Attempt, i: nat, w: Witnesses, h: Host, before: Host, gone: set<Path>)
    requires a.Valid() && i < |a.ops|
  {
    var op := a.ops[i];
    && ParentOpens(h.tree, op.path, w.parent)
    && InferApplied(a.transaction, i, op, w, h) == TookEffect
    && var u := UndoOperation(a.transaction, i, op, w, h);
    && u.Reverted?
    && After(u.host, before, gone)
    && u.host.links == h.links
  }

  /** What a quarantine did to the host, and why it was allowed. */
  lemma QuarantineStep(a: Attempt, i: nat, h: Host, h': Host)
    requires a.Valid() && i < |a.ops| && a.ops[i].Quarantine? && StepsTo(a, i, h, h')
    ensures var op := a.ops[i];
            && IsDir(h.tree, Parent(op.path)) && StateMatches(h.tree, op.path, Some(op.expected)) && op.slot !in h.quarantine
            && h' == h.(tree := Without(h.tree, op.path), quarantine := h.quarantine[op.slot := Relative(h.tree, op.path)])
            && OwnerWrite(h.tree[Parent(op.path)].stamp.mode) && op.path in h.tree
            && Step(a, i, h).owner == WitnessOf(h.tree[op.path].stamp) && Step(a, i, h).stamp == None
            && RelocatedMatches(h.tree[op.path], op.expected)
  {
    hide Without, Relative, OwnerWrite, RelocatedMatches;
  }

  /** A quarantine that finds its node as expected, below a writable directory, moves it away. */
  lemma QuarantineRuns(a: Attempt, i: nat, h: Host)
    requires a.Valid() && i < |a.ops| && a.ops[i].Quarantine?
    requires var op := a.ops[i];
             && IsDir(h.tree, Parent(op.path)) && OwnerWrite(h.tree[Parent(op.path)].stamp.mode)
             && StateMatches(h.tree, op.path, Some(op.expected)) && RelocatedMatches(h.tree[op.path], op.expected)
             && op.slot !in h.quarantine
    ensures var op := a.ops[i];
            StepsTo(a, i, h, h.(tree := Without(h.tree, op.path), quarantine := h.quarantine[op.slot := Relative(h.tree, op.path)]))
  {
    hide Without, Relative, OwnerWrite, RelocatedMatches, StateMatches;
  }

  /** A held subtree goes back to where it was taken from. */
  lemma QuarantineUndone(transaction: Digest, index: u32, op: Operation, w: Witnesses, before: Host, h: Host)
    requires op.Quarantine? && op.path != [] && op.path in before.tree && IsDir(before.tree, Parent(op.path))
    requires h.tree == Without(before.tree, op.path) && op.slot !in before.quarantine
    requires h.quarantine == before.quarantine[op.slot := Relative(before.tree, op.path)]
    requires OwnerWrite(before.tree[Parent(op.path)].stamp.mode) && RelocatedMatches(before.tree[op.path], op.expected)
    requires w.completed == None || w.completed == Some(WitnessOf(before.tree[op.path].stamp))
    ensures InferApplied(transaction, index, op, w, h) == TookEffect
    ensures IsDir(h.tree, Parent(op.path)) && h.tree[Parent(op.path)] == before.tree[Parent(op.path)]
    ensures UndoOperation(transaction, index, op, w, h) == Reverted(h.(tree := before.tree, quarantine := before.quarantine))
  {
    hide RelocatedMatches, OwnerWrite, Rooted, Relative, WitnessOf;
    var p := op.path;
    PutBack(before.tree, p);
    RelativeAt(before.tree, p, []);
    assert p + [] == p && !(p <= Parent(p));
    assert h.quarantine - {op.slot} == before.quarantine;
  }

  lemma UndoQuarantine(a: Attempt, i: nat, before: Host, after: Host, w: Witnesses, h: Host)
    requires a.Valid() && i < |a.ops| && a.ops[i].Quarantine? && StepsTo(a, i, before, after)
    requires Testifies(a, i, before, w) && After(h, after, {})
    ensures Reverts(a, i, w, h, before, {})
  {
    hide StepsTo, Step, Without, Relative, RelocatedMatches, OwnerWrite, StateMatches, InferApplied, UndoOperation;
    QuarantineStep(a, i, before, after);
    assert h.tree == after.tree && before.tree - {} == before.tree;
    QuarantineUndone(a.transaction, i, a.ops[i], w, before, h);
  }

  lemma ChildsParent(p: Path, q: Path)
    ensures p <= q && |q| == |p| + 1 ==> q != [] && Parent(q) == p
  {
  }

  /** A directory that was just created holds its marker and nothing else. */
  lemma OnlyMarkerInside(t: Tree, p: Path, made: Node, marker: Node, unmarked: Tree)
    requires WellFormed(t) && p !in t
    requires forall q :: q in unmarked ==> q in t[p := made][MarkerOf(p) := marker] && q != MarkerOf(p)
    ensures EmptyDirectory(unmarked, p)
  {
    forall q | q in unmarked
      ensures !(p <= q && |q| == |p| + 1)
    {
      ChildsParent(p, q);
      assert q == p || q in t;
    }
  }

  lemma UndoCreateDirectory(a: Attempt, i: nat, before: Host, after: Host, w: Witnesses, h: Host, gone: set<Path>)
    requires a.Valid() && i < |a.ops| && a.ops[i].CreateDirectory? && StepsTo(a, i, before, after)
    requires Testifies(a, i, before, w) && After(h, after, gone) && WellFormed(before.tree)
    requires a.ops[i].path !in gone && Parent(a.ops[i].path) !in gone
    requires w.completed == None ==> MarkerOf(a.ops[i].path) !in gone
    ensures Reverts(a, i, w, h, before, gone - {MarkerOf(a.ops[i].path)})
  {
    var op := a.ops[i];
    var p, m := op.path, MarkerOf(op.path);
    var made, marker := NewDirectory(op.after.mode, a.allocs[i]), NewMarker(a.transaction, i, a.allocs[i]);
    assert after.tree == before.tree[p := made][m := marker] && after.quarantine == before.quarantine
           && after.staged == before.staged && p !in before.tree;
    assert Parent(m) == p;
    CreatedTree(before.tree, p, made, marker, gone, h.tree);
    OnlyMarkerInside(before.tree, p, made, marker, h.tree - {m});
  }

  /** Removing a created directory and its marker leaves the tree that was there before. */
  lemma CreatedTree(t: Tree, p: Path, made: Node, marker: Node, gone: set<Path>, u: Tree)
    requires WellFormed(t) && p != [] && p !in t && p !in gone && Parent(p) in t && Parent(p) !in gone
    requires u == t[p := made][MarkerOf(p) := marker] - gone
    ensures u - {MarkerOf(p)} - {p} == t - (gone - {MarkerOf(p)})
    ensures p in u && u[p] == made
    ensures Parent(p) in u && u[Parent(p)] == t[Parent(p)]
    ensures MarkerOf(p) in u ==> u[MarkerOf(p)] == marker
    ensures MarkerOf(p) !in gone ==> MarkerOf(p) in u
  {
    AbsentHasNoDescendants(t, p, MarkerOf(p));
    assert |MarkerOf(p)| == |p| + 1 && |Parent(p)| == |p| - 1;
  }

  lemma UndoInstall(a: Attempt, i: nat, before: Host, after: Host, w: Witnesses, h: Host, gone: set<Path>)
    requires a.Valid() && i < |a.ops| && (a.ops[i].InstallFile? || a.ops[i].InstallSymlink?) && StepsTo(a, i, before, after)
    requires Testifies(a, i, before, w) && After(h, after, gone)
    requires a.ops[i].InstallSymlink? && w.completed == None ==> h.links == after.links
    requires a.ops[i].path !in gone && Parent(a.ops[i].path) !in gone
    ensures Reverts(a, i, w, h, before, gone)
  {
    var p := a.ops[i].path;
    assert p !in before.tree;
    assert h.tree - {p} == before.tree - gone;
  }

  lemma UndoMode(a: Attempt, i: nat, before: Host, after: Host, w: Witnesses, h: Host, gone: set<Path>)
    requires a.Valid() && i < |a.ops| && a.ops[i].IsMode() && StepsTo(a, i, before, after)
    requires Testifies(a, i, before, w) && After(h, after, gone)
    requires a.ops[i].path !in gone && Parent(a.ops[i].path) !in gone
    ensures Reverts(a, i, w, h, before, gone)
  {
    var op := a.ops[i];
    var p := op.path;
    assert h.tree[p] == WithMode(before.tree[p], op.afterMode);
    assert WithMode(h.tree[p], op.expected.mode) == before.tree[p];
    assert h.tree[p := before.tree[p]] == before.tree - gone;
  }

  // ---------------------------------------------------------------- rollback

  datatype RollbackResult = Restored(host: Host) | Stuck(host: Host)

  function WitnessesOf(js: JournalState, i: u32): Witnesses {
    Witnesses(
      if i in js.completed then Some(js.completed[i]) else None,
      if i in js.intents then js.intents[i].source else None,
      if i in js.intents then js.intents[i].parent else None,
      if i in js.metadata then Some(js.metadata[i]) else None)
  }

  /** Reverse one operation, or find out that it needs no reversing. */
  function RollbackOne(a: Attempt, js: JournalState, i: nat, h: Host): RollbackResult
    requires a.Valid() && i < |a.ops|
  {
    var op, w := a.ops[i], WitnessesOf(js, i);
    if i !in js.intents then Restored(h)
    else if !ParentOpens(h.tree, op.path, w.parent) then Stuck(h)
    else match InferApplied(a.transaction, i, op, w, h)
      case Ambiguous => Stuck(h)
      case NoEffect => Restored(h)
      case TookEffect =>
        match UndoOperation(a.transaction, i, op, w, h)
        case Reverted(h') => Restored(h')
        case Conflict(h') => Stuck(h')
  }

  /** Reverse the first k operations, last one first, stopping at the first conflict. */
  function RollbackAll(a: Attempt, js: JournalState, k: nat, h: Host): RollbackResult
    requires a.Valid() && k <= |a.ops|
  {
    if k == 0 then Restored(h)
    else match RollbackOne(a, js, k - 1, h)
      case Restored(h') => RollbackAll(a, js, k - 1, h')
      case Stuck(h') => Stuck(h')
  }

  /**
   The journal of an attempt that recorded `completed` completions and `intended` intents.
   `hosts` are the states reached; the last operation may have run without its completion.
   */
  ghost predicate Journaled(a: Attempt, hosts: seq<Host>, js: JournalState, completed: nat, intended: nat)
    requires Executes(a, hosts)
  {
    && completed <= |hosts| - 1 <= intended <= completed + 1
    && intended <= |a.ops|
    && (forall i: u32 :: i in js.intents <==> i < intended)
    && (forall i: u32 :: i in js.completed <==> i < completed)
    && (forall i: u32 :: i in js.metadata ==> i < completed)
    && (forall i: u32 :: i < intended ==> IntentFaithful(a, hosts, js, i))
    && (forall i: u32 :: i < completed ==> CompletionFaithful(a, hosts, js, i))
  }

  /** The intent of operation i names the source and the parent it was about to use. */
  ghost predicate IntentFaithful(a: Attempt, hosts: seq<Host>, js: JournalState, i: u32)
    requires a.Valid() && i < |a.ops| && i < |hosts|
  {
    && i in js.intents
    && SourceWitness(a.ops[i], hosts[i]).Some?
    && IsDir(hosts[i].tree, Parent(a.ops[i].path))
    && js.intents[i] == IntentWitnesses(
         SourceWitness(a.ops[i], hosts[i]).value,
         Some(WitnessOf(hosts[i].tree[Parent(a.ops[i].path)].stamp)))
  }

  /** The completion of operation i names the node it acted on. */
  ghost predicate CompletionFaithful(a: Attempt, hosts: seq<Host>, js: JournalState, i: u32)
    requires a.Valid() && i < |a.ops| && i < |hosts|
  {
    && i in js.completed
    && Step(a, i, hosts[i]).Done?
    && js.completed[i] == Step(a, i, hosts[i]).owner
    && (i in js.metadata ==> Step(a, i, hosts[i]).stamp == Some(js.metadata[i]))
  }

  /**
   An operation whose mutation never ran leaves the shape its precondition asked for.
   This is what keeps inference from mistaking a foreign node for its own work.
   */
  ghost predicate Awaits(op: Operation, h: Host)
    requires op.path != []
  {
    && IsDir(h.tree, Parent(op.path))
    && match op
       case Quarantine(p, _, slot) => p in h.tree && slot !in h.quarantine
       case CreateDirectory(p, _) => p !in h.tree
       case InstallFile(p, _, _) => p !in h.tree
       case InstallSymlink(p, _, slot) => p !in h.tree && slot in h.links
       case SetFileMode(p, expected, afterMode) =>
         p in h.tree && FileMatches(h.tree[p], expected)
       case SetDirectoryMode(p, expected, afterMode) =>
         && IsDir(h.tree, p) && h.tree[p].stamp.mode == expected.mode
         && (expected.content.Stamp? ==> expected.content.stamp.id == h.tree[p].stamp.id)
  }

  /** An intent whose operation never ran is inferred to have had no effect. */
  lemma InferUnapplied(a: Attempt, i: nat, w: Witnesses, h: Host)
    requires a.Valid() && i < |a.ops| && Awaits(a.ops[i], h)
    requires SourceWitness(a.ops[i], h).Some? && w.source == SourceWitness(a.ops[i], h).value
    requires w.completed == None && w.metadata == None
    requires a.ops[i].IsMode() ==> a.ops[i].expected.mode != a.ops[i].afterMode
    ensures InferApplied(a.transaction, i, a.ops[i], w, h) == NoEffect
  {
  }

  /** What the journal says of an operation that ran, and what a missing completion means. */
  lemma TestifiedRun(a: Attempt, hosts: seq<Host>, js: JournalState, completed: nat, intended: nat, i: nat)
    requires Executes(a, hosts) && Journaled(a, hosts, js, completed, intended) && i < |hosts| - 1
    ensures i in js.intents && StepsTo(a, i, hosts[i], hosts[i + 1])
    ensures Testifies(a, i, hosts[i], WitnessesOf(js, i))
    ensures WitnessesOf(js, i).completed == None ==> i == completed
  {
    assert Ran(a, hosts, i);
    assert IntentFaithful(a, hosts, js, i);
    if i < completed {
      assert CompletionFaithful(a, hosts, js, i);
    }
  }

  /** Reverting one operation, whatever its kind. */
  lemma UndoOne(a: Attempt, i: nat, before: Host, after: Host, w: Witnesses, h: Host, gone: set<Path>, gone': set<Path>)
    requires a.Valid() && i < |a.ops| && StepsTo(a, i, before, after) && WellFormed(before.tree) && WellFormed(after.tree)
    requires Testifies(a, i, before, w) && After(h, after, gone)
    requires w.completed == None ==> gone == {} && h.links == after.links
    requires a.ops[i].path !in gone && Parent(a.ops[i].path) !in gone && (a.ops[i].Quarantine? ==> gone == {})
    requires gone' == if a.ops[i].CreateDirectory? then gone - {MarkerOf(a.ops[i].path)} else gone
    ensures Reverts(a, i, w, h, before, gone')
  {
    hide StepsTo, Testifies, After, WellFormed, Reverts;
    match a.ops[i] {
      case Quarantine(_, _, _) => UndoQuarantine(a, i, before, after, w, h);
      case CreateDirectory(_, _) => UndoCreateDirectory(a, i, before, after, w, h, gone);
      case InstallFile(_, _, _) => UndoInstall(a, i, before, after, w, h, gone);
      case InstallSymlink(_, _, _) => UndoInstall(a, i, before, after, w, h, gone);
      case _ => UndoMode(a, i, before, after, w, h, gone);
    }
  }

  /** Undoing step i of an execution, from the state after it to the state before it. */
  lemma UndoStep(a: Attempt, hosts: seq<Host>, js: JournalState, completed: nat, intended: nat, i: nat, h: Host, gone: set<Path>)
    requires Executes(a, hosts) && Shaped(a.ops, intended) && Journaled(a, hosts, js, completed, intended)
    requires i < |hosts| - 1 && After(h, hosts[i + 1], gone)
    requires gone <= Markers(a.ops, i + 1)
    requires i == completed ==> gone == {} && h.links == hosts[i + 1].links
    ensures var gone' := gone * Markers(a.ops, i);
            && Reverts(a, i, WitnessesOf(js, i), h, hosts[i], gone')
            && RollbackOne(a, js, i, h).Restored?
            && After(RollbackOne(a, js, i, h).host, hosts[i], gone')
  {
    hide StepsTo, Testifies, WellFormed, After, Markers, IntentFaithful, CompletionFaithful, InferApplied, UndoOperation, ParentOpens;
    ExecutionKeepsWellFormed(a, hosts, i);
    ExecutionKeepsWellFormed(a, hosts, i + 1);
    TestifiedRun(a, hosts, js, completed, intended, i);
    GoneElsewhere(a, hosts, i, gone);
    assert gone <= Markers(a.ops, i) ==> gone * Markers(a.ops, i) == gone;
    UndoOne(a, i, hosts[i], hosts[i + 1], WitnessesOf(js, i), h, gone, gone * Markers(a.ops, i));
  }

  /** Markers that were cleared are never the path, or the parent, of an operation. */
  lemma NextMarkers(ops: seq<Operation>, i: nat)
    requires i < |ops|
    ensures Markers(ops, i + 1) == Markers(ops, i) + (if ops[i].CreateDirectory? then {MarkerOf(ops[i].path)} else {})
  {
    forall q | q in Markers(ops, i + 1)
      ensures q in Markers(ops, i) || (ops[i].CreateDirectory? && q == MarkerOf(ops[i].path))
    {
      var j :| 0 <= j < i + 1 && ops[j].CreateDirectory? && q == MarkerOf(ops[j].path);
    }
  }

  lemma GoneElsewhere(a: Attempt, hosts: seq<Host>, i: nat, gone: set<Path>)
    requires Executes(a, hosts) && Shaped(a.ops, i + 1) && i < |hosts| - 1
    requires gone <= Markers(a.ops, i + 1)
    ensures a.ops[i].path !in gone && Parent(a.ops[i].path) !in gone
    ensures a.ops[i].Quarantine? ==> gone == {}
    ensures a.ops[i].CreateDirectory? ==> gone - {MarkerOf(a.ops[i].path)} == gone * Markers(a.ops, i)
    ensures !a.ops[i].CreateDirectory? ==> gone <= Markers(a.ops, i)
  {
    hide StepsTo;
    var op := a.ops[i];
    assert Ran(a, hosts, i);
    StepTree(a, i, hosts[i], hosts[i + 1]);
    MarkersPresent(a, hosts, i);
    NextMarkers(a.ops, i);
    if op.CreateDirectory? {
      ExecutionKeepsWellFormed(a, hosts, i);
      AbsentHasNoDescendants(hosts[i].tree, op.path, MarkerOf(op.path));
      assert MarkerOf(op.path) !in Markers(a.ops, i);
      assert |MarkerOf(op.path)| == |op.path| + 1;
    }
  }

  /** Rollback passes over operations that never ran. */
  lemma SkipUnapplied(a: Attempt, hosts: seq<Host>, js: JournalState, completed: nat, intended: nat, i: nat, h: Host)
    requires Executes(a, hosts) && Journaled(a, hosts, js, completed, intended)
    requires |hosts| - 1 <= i < |a.ops|
    requires After(h, hosts[|hosts| - 1], {}) && h.links == hosts[|hosts| - 1].links
    requires i < intended ==> Awaits(a.ops[i], hosts[i])
    ensures RollbackOne(a, js, i, h) == Restored(h)
  {
    if i < intended {
      assert i == |hosts| - 1 == completed;
      assert h.tree == hosts[i].tree;
      assert IntentFaithful(a, hosts, js, i);
      if !a.ops[i].IsMode() || a.ops[i].expected.mode != a.ops[i].afterMode {
        InferUnapplied(a, i, WitnessesOf(js, i), h);
      }
    }
  }

  /**
   Rollback restores the base: from the state after any executed prefix, with or without
   a dangling intent, and with any of its ownership markers already cleared.
   */
  lemma {:induction false} RollbackRestores(
    a: Attempt, hosts: seq<Host>, js: JournalState, completed: nat, intended: nat, k: nat, h: Host, gone: set<Path>)
    requires Executes(a, hosts) && Shaped(a.ops, intended) && Journaled(a, hosts, js, completed, intended)
    requires k <= |a.ops|
    requires var reached := if k < |hosts| then k else |hosts| - 1;
             && gone <= Markers(a.ops, reached)
             && After(h, hosts[reached], gone)
    requires k > completed ==> gone == {} && h.links == hosts[|hosts| - 1].links
    requires intended > |hosts| - 1 ==> Awaits(a.ops[|hosts| - 1], hosts[|hosts| - 1])
    ensures RollbackAll(a, js, k, h).Restored?
    ensures After(RollbackAll(a, js, k, h).host, hosts[0], {})
  {
    hide RollbackOne, Shaped, Awaits, StepsTo, IntentFaithful, CompletionFaithful;
    if k == 0 {
      assert gone == {};
    } else if k - 1 >= |hosts| - 1 {
      SkipUnapplied(a, hosts, js, completed, intended, k - 1, h);
      RollbackRestores(a, hosts, js, completed, intended, k - 1, h, gone);
    } else {
      UndoStep(a, hosts, js, completed, intended, k - 1, h, gone);
      var h' := RollbackOne(a, js, k - 1, h).host;
      RollbackRestores(a, hosts, js, completed, intended, k - 1, h', gone * Markers(a.ops, k - 1));
    }
  }
}
