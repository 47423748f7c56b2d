/**
 Recovery that is itself interrupted: what a second rollback does from the state the
 first one stopped in.
 */
module Reentry {
  import opened Types
  import opened Engine
  import opened Rollback

  // ------------------------------------------------------- fresh identities

  /** The identity of the node that operation i adds to the workspace, if it adds one. */
  function AddedId(a: Attempt, base: Host, i: nat): Option<FileId>
    requires a.Valid() && i < |a.ops|
  {
    match a.ops[i]
    case CreateDirectory(_, _) => Some(a.allocs[i].directory)
    case InstallFile(_, _, slot) => if slot in base.staged then Some(base.staged[slot].stamp.id) else None
    case InstallSymlink(_, _, slot) => if slot in base.links then Some(base.links[slot].stamp.id) else None
    case _ => None
  }

  /** Everything the transaction adds is a new node, distinct from all others. */
  ghost predicate FreshIds(a: Attempt, base: Host)
    requires a.Valid()
  {
    forall i :: 0 <= i < |a.ops| && AddedId(a, base, i).Some? ==>
                  var id := AddedId(a, base, i).value;
                  && (forall q :: q in base.tree ==> base.tree[q].stamp.id != id)
                  && (forall j :: 0 <= j < |a.ops| ==> a.allocs[j].marker != id)
                  && (forall j :: 0 <= j < |a.ops| && j != i ==> AddedId(a, base, j) != Some(id))
  }

  /** No node carries this transaction's ownership payload before the commit starts. */
  ghost predicate Unmarked(a: Attempt, base: Host) {
    && (forall q :: q in base.tree ==> !MarkedBy(base.tree[q], a.transaction))
    && (forall s :: s in base.staged ==> !MarkedBy(base.staged[s], a.transaction))
    && (forall s :: s in base.links ==> !MarkedBy(base.links[s], a.transaction))
  }

  predicate MarkedBy(n: Node, transaction: Digest) {
    n.data.OwnerMarker? && n.data.transaction == transaction
  }

  lemma {:induction false} LinksShrink(a: Attempt, hosts: seq<Host>, k: nat)
    requires Executes(a, hosts) && k < |hosts|
    ensures forall s :: s in hosts[k].links ==> s in hosts[0].links && hosts[k].links[s] == hosts[0].links[s]
  {
    if k > 0 {
      LinksShrink(a, hosts, k - 1);
      assert Ran(a, hosts, k - 1);
    }
  }

  lemma SlotsStep(a: Attempt, i: nat, h: Host, h': Host)
    requires a.Valid() && i < |a.ops| && StepsTo(a, i, h, h')
    ensures h.quarantine.Keys <= h'.quarantine.Keys
  {
  }

  lemma {:induction false} SlotsGrow(a: Attempt, hosts: seq<Host>, u: nat, k: nat)
    requires Executes(a, hosts) && u <= k < |hosts|
    ensures hosts[u].quarantine.Keys <= hosts[k].quarantine.Keys
  {
    hide StepsTo;
    if u < k {
      SlotsGrow(a, hosts, u, k - 1);
      assert Ran(a, hosts, k - 1);
      SlotsStep(a, k - 1, hosts[k - 1], hosts[k]);
    }
  }

  /** A step brings no identity but that of what it adds, or of its marker. */
  lemma StepIds(a: Attempt, i: nat, h: Host, h': Host)
    requires a.Valid() && i < |a.ops| && StepsTo(a, i, h, h')
    ensures forall q :: q in h'.tree ==>
                          || (q in h.tree && h'.tree[q].stamp.id == h.tree[q].stamp.id)
                          || AddedId(a, h, i) == Some(h'.tree[q].stamp.id)
                          || h'.tree[q].stamp.id == a.allocs[i].marker
  {
    hide StepsTo;
    StepTree(a, i, h, h');
  }

  /** Until operation i runs, nothing in the workspace has the identity it will add. */
  lemma {:induction false} AddedIdAbsent(a: Attempt, hosts: seq<Host>, i: nat, u: nat)
    requires Executes(a, hosts) && FreshIds(a, hosts[0])
    requires i < |a.ops| && u <= i && u < |hosts| && AddedId(a, hosts[0], i).Some?
    ensures forall q :: q in hosts[u].tree ==> hosts[u].tree[q].stamp.id != AddedId(a, hosts[0], i).value
  {
    hide StepsTo;
    if u > 0 {
      AddedIdAbsent(a, hosts, i, u - 1);
      assert Ran(a, hosts, u - 1);
      StagedConstant(a, hosts, u - 1);
      LinksShrink(a, hosts, u - 1);
      StepIds(a, u - 1, hosts[u - 1], hosts[u]);
      assert AddedId(a, hosts[0], u - 1) != AddedId(a, hosts[0], i);
      assert AddedId(a, hosts[u - 1], u - 1).Some? ==> AddedId(a, hosts[u - 1], u - 1) == AddedId(a, hosts[0], u - 1);
    }
  }

  /** A step adds no payload of its own, except the marker of the operation it runs. */
  lemma StepData(a: Attempt, i: nat, h: Host, h': Host)
    requires a.Valid() && i < |a.ops| && StepsTo(a, i, h, h')
    ensures forall q :: q in h'.tree ==>
                          || h'.tree[q].data == NoBytes
                          || h'.tree[q].data == OwnerMarker(a.transaction, i)
                          || (q in h.tree && h'.tree[q].data == h.tree[q].data)
                          || (exists s :: s in h.staged && h'.tree[q].data == h.staged[s].data)
                          || (exists s :: s in h.links && h'.tree[q].data == h.links[s].data)
  {
    hide StepsTo;
    StepTree(a, i, h, h');
  }

  /** Until operation i runs, no node carries its ownership payload. */
  lemma {:induction false} MarkerAbsent(a: Attempt, hosts: seq<Host>, i: nat, u: nat)
    requires Executes(a, hosts) && Unmarked(a, hosts[0])
    requires i < |a.ops| && u <= i && u < |hosts|
    ensures forall q :: q in hosts[u].tree ==> hosts[u].tree[q].data != OwnerMarker(a.transaction, i)
  {
    hide StepsTo;
    if u > 0 {
      MarkerAbsent(a, hosts, i, u - 1);
      assert Ran(a, hosts, u - 1);
      StagedConstant(a, hosts, u - 1);
      LinksShrink(a, hosts, u - 1);
      StepData(a, u - 1, hosts[u - 1], hosts[u]);
    }
  }

  // ------------------------------------------------------ private mode paths

  /** No other operation touches the node whose mode an operation changes. */
  ghost predicate PrivateModes(ops: seq<Operation>) {
    forall i, j :: 0 <= i < |ops| && 0 <= j < |ops| && i != j && ops[i].IsMode() ==>
                     if ops[j].IsMode() then ops[j].path != ops[i].path else !(ops[j].path <= ops[i].path)
  }

  /** Everything the transaction adds or changes is its own. */
  ghost predicate Private(a: Attempt, base: Host)
    requires a.Valid()
  {
    PrivateModes(a.ops) && FreshIds(a, base) && Unmarked(a, base)
  }

  /** A node keeps its place and its state until its mode operation runs. */
  lemma {:induction false} ModeNodeStable(a: Attempt, hosts: seq<Host>, i: nat, u: nat, k: nat)
    requires Executes(a, hosts) && Shaped(a.ops, i + 1) && PrivateModes(a.ops)
    requires u <= k <= i < |a.ops| && i < |hosts| && a.ops[i].IsMode()
    requires a.ops[i].path in hosts[k].tree
    ensures a.ops[i].path in hosts[u].tree && hosts[u].tree[a.ops[i].path] == hosts[k].tree[a.ops[i].path]
  {
    hide StepsTo, WithMode;
    if u < k {
      assert Ran(a, hosts, k - 1);
      StepTree(a, k - 1, hosts[k - 1], hosts[k]);
      assert a.ops[k - 1].CreateDirectory? ==> a.ops[i].path != MarkerOf(a.ops[k - 1].path);
      ModeNodeStable(a, hosts, i, u, k - 1);
    }
  }

  // ---------------------------------------------------------- second rollback

  /** A step that ran found what it awaited. */
  lemma StepAwaits(a: Attempt, i: nat, h: Host, h': Host)
    requires a.Valid() && i < |a.ops| && StepsTo(a, i, h, h')
    ensures Awaits(a.ops[i], h) && SourceWitness(a.ops[i], h).Some?
  {
  }

  /** Recovery stopped after undoing operations u and later. */
  ghost predicate StoppedAt(a: Attempt, hosts: seq<Host>, u: nat, h: Host, gone: set<Path>)
    requires Executes(a, hosts) && u < |hosts|
  {
    && After(h, hosts[u], gone)
    && gone <= Markers(a.ops, u)
    && h.links == hosts[|hosts| - 1].links
  }

  /** Reversing operation i leaves the host alone, and is a conflict if `mustRefuse`. */
  ghost predicate Untouched(a: Attempt, js: JournalState, i: nat, h: Host, mustRefuse: bool)
    requires a.Valid() && i < |a.ops|
  {
    && (RollbackOne(a, js, i, h) == Restored(h) || RollbackOne(a, js, i, h) == Stuck(h))
    && (mustRefuse ==> RollbackOne(a, js, i, h) == Stuck(h))
  }

  lemma RefuseQuarantine(a: Attempt, js: JournalState, i: u32, h: Host)
    requires a.Valid() && i < |a.ops| && a.ops[i].Quarantine? && i in js.intents
    requires a.ops[i].slot !in h.quarantine
    ensures Untouched(a, js, i, h, i in js.completed)
  {
  }

  lemma RefuseCreateDirectory(a: Attempt, js: JournalState, i: u32, h: Host)
    requires a.Valid() && i < |a.ops| && a.ops[i].CreateDirectory? && i in js.intents
    requires !MarkerPresent(a.transaction, i, h.tree, a.ops[i].path)
    requires i in js.completed ==> !WitnessMatches(h.tree, a.ops[i].path, js.completed[i])
    ensures Untouched(a, js, i, h, i in js.completed)
  {
  }

  lemma RefuseInstallFile(a: Attempt, js: JournalState, i: u32, h: Host)
    requires a.Valid() && i < |a.ops| && a.ops[i].InstallFile? && i in js.intents
    requires a.ops[i].path in h.tree && a.ops[i].slot in h.staged ==>
               h.tree[a.ops[i].path].stamp.id != h.staged[a.ops[i].slot].stamp.id
    requires i in js.completed ==> !WitnessMatches(h.tree, a.ops[i].path, js.completed[i])
    ensures Untouched(a, js, i, h, i in js.completed)
  {
  }

  lemma RefuseInstallSymlink(a: Attempt, js: JournalState, i: u32, h: Host)
    requires a.Valid() && i < |a.ops| && a.ops[i].InstallSymlink? && i in js.intents
    requires js.intents[i].source.Some? ==> !WitnessMatches(h.tree, a.ops[i].path, js.intents[i].source.value)
    requires i in js.completed ==> !WitnessMatches(h.tree, a.ops[i].path, js.completed[i])
    ensures Untouched(a, js, i, h, i in js.completed)
  {
  }

  lemma RefuseFileMode(a: Attempt, js: JournalState, i: u32, h: Host)
    requires a.Valid() && i < |a.ops| && a.ops[i].SetFileMode? && i in js.intents
    requires a.ops[i].path in h.tree && h.tree[a.ops[i].path].stamp.mode == a.ops[i].expected.mode
    ensures Untouched(a, js, i, h, false)
  {
  }

  lemma RefuseDirectoryMode(a: Attempt, js: JournalState, i: u32, h: Host)
    requires a.Valid() && i < |a.ops| && a.ops[i].SetDirectoryMode? && i in js.intents
    requires a.ops[i].path in h.tree && h.tree[a.ops[i].path].stamp.mode == a.ops[i].expected.mode
    ensures Untouched(a, js, i, h, false)
  {
  }

  /** The owner recorded for an added node has the identity the transaction added. */
  lemma OwnerIsAdded(a: Attempt, hosts: seq<Host>, i: nat)
    requires Executes(a, hosts) && i < |hosts| - 1 && !a.ops[i].IsMode() && !a.ops[i].Quarantine?
    ensures Step(a, i, hosts[i]).Done?
    ensures AddedId(a, hosts[0], i) == Some(Step(a, i, hosts[i]).owner.id)
  {
    assert Ran(a, hosts, i);
    StagedConstant(a, hosts, i);
    LinksShrink(a, hosts, i);
  }

  /**
   Meeting an already undone operation again never changes the host, and a completed
   operation other than a mode change is always a conflict.
   */
  lemma RefusesAgain(a: Attempt, hosts: seq<Host>, js: JournalState, completed: nat, intended: nat,
                     u: nat, i: nat, h: Host, gone: set<Path>)
    requires Executes(a, hosts) && Shaped(a.ops, intended) && PrivateModes(a.ops) && Journaled(a, hosts, js, completed, intended)
    requires FreshIds(a, hosts[0]) && Unmarked(a, hosts[0])
    requires u < |hosts| && u <= i < intended && StoppedAt(a, hosts, u, h, gone)
    requires Awaits(a.ops[i], hosts[i])
    ensures Untouched(a, js, i, h, i < completed && !a.ops[i].IsMode())
  {
    var op := a.ops[i];
    if op.IsMode() {
      ModeNodeStable(a, hosts, i, u, i);
      ModeNodeKept(a, hosts, u, i, h, gone);
      if op.SetFileMode? {
        RefuseFileMode(a, js, i, h);
      } else {
        RefuseDirectoryMode(a, js, i, h);
      }
    } else if op.Quarantine? {
      SlotsGrow(a, hosts, u, i);
      assert op.slot !in hosts[i].quarantine;
      RefuseQuarantine(a, js, i, h);
    } else {
      AddedNodeMissing(a, hosts, js, completed, intended, u, i, h, gone);
      if op.CreateDirectory? {
        RefuseCreateDirectory(a, js, i, h);
      } else if op.InstallFile? {
        RefuseInstallFile(a, js, i, h);
      } else {
        RefuseInstallSymlink(a, js, i, h);
      }
    }
  }

  lemma ModeNodeKept(a: Attempt, hosts: seq<Host>, u: nat, i: nat, h: Host, gone: set<Path>)
    requires Executes(a, hosts) && Shaped(a.ops, i + 1) && u < |hosts| && StoppedAt(a, hosts, u, h, gone)
    requires u <= i < |a.ops| && i < |hosts| && a.ops[i].IsMode() && a.ops[i].path in hosts[u].tree
    ensures a.ops[i].path in h.tree && h.tree[a.ops[i].path] == hosts[u].tree[a.ops[i].path]
  {
    assert a.ops[i].path !in Markers(a.ops, u);
  }

  lemma AddedNodeMissing(a: Attempt, hosts: seq<Host>, js: JournalState, completed: nat, intended: nat,
                         u: nat, i: nat, h: Host, gone: set<Path>)
    requires Executes(a, hosts) && Journaled(a, hosts, js, completed, intended)
    requires FreshIds(a, hosts[0]) && Unmarked(a, hosts[0])
    requires u < |hosts| && u <= i < intended && StoppedAt(a, hosts, u, h, gone)
    requires !a.ops[i].IsMode() && !a.ops[i].Quarantine?
    ensures !MarkerPresent(a.transaction, i, h.tree, a.ops[i].path)
    ensures i < completed ==> !WitnessMatches(h.tree, a.ops[i].path, js.completed[i])
    ensures a.ops[i].InstallFile? && a.ops[i].path in h.tree && a.ops[i].slot in h.staged ==>
              h.tree[a.ops[i].path].stamp.id != h.staged[a.ops[i].slot].stamp.id
    ensures a.ops[i].InstallSymlink? && js.intents[i].source.Some? ==>
              !WitnessMatches(h.tree, a.ops[i].path, js.intents[i].source.value)
  {
    assert IntentFaithful(a, hosts, js, i);
    MarkerAbsent(a, hosts, i, u);
    StagedConstant(a, hosts, u);
    LinksShrink(a, hosts, i);
    if AddedId(a, hosts[0], i).Some? {
      AddedIdAbsent(a, hosts, i, u);
    }
    if i < completed {
      assert CompletionFaithful(a, hosts, js, i);
      OwnerIsAdded(a, hosts, i);
    }
  }

  // -------------------------------------------------- when it does succeed

  /** Nothing but permission bits changed between two trees. */
  ghost predicate SameButModes(t: Tree, u: Tree) {
    && t.Keys == u.Keys
    && forall q :: q in t ==> WithMode(t[q], 0) == WithMode(u[q], 0)
  }

  lemma ModeStep(a: Attempt, i: nat, h: Host, h': Host)
    requires a.Valid() && i < |a.ops| && a.ops[i].IsMode() && StepsTo(a, i, h, h')
    ensures SameButModes(h.tree, h'.tree) && h'.quarantine == h.quarantine && h'.links == h.links
  {
  }

  lemma SameThroughout(t: Tree, u: Tree, v: Tree)
    requires SameButModes(t, u) && SameButModes(u, v)
    ensures SameButModes(t, v)
  {
    hide WithMode;
  }

  lemma {:induction false} ModesOnly(a: Attempt, hosts: seq<Host>, u: nat, k: nat)
    requires Executes(a, hosts) && u <= k < |hosts|
    requires forall i :: u <= i < k ==> a.ops[i].IsMode()
    ensures SameButModes(hosts[u].tree, hosts[k].tree)
    ensures hosts[u].quarantine == hosts[k].quarantine && hosts[u].links == hosts[k].links
  {
    hide StepsTo, WithMode;
    if u < k {
      ModesOnly(a, hosts, u, k - 1);
      assert Ran(a, hosts, k - 1);
      ModeStep(a, k - 1, hosts[k - 1], hosts[k]);
      SameThroughout(hosts[u].tree, hosts[k - 1].tree, hosts[k].tree);
    }
  }

  /** A completed mode operation that was undone is met again and passed over. */
  lemma PassMode(a: Attempt, hosts: seq<Host>, js: JournalState, completed: nat, intended: nat,
                 u: nat, i: nat, h: Host, gone: set<Path>)
    requires Executes(a, hosts) && Shaped(a.ops, intended) && PrivateModes(a.ops) && Journaled(a, hosts, js, completed, intended)
    requires u < |hosts| && u <= i < intended && StoppedAt(a, hosts, u, h, gone)
    requires Awaits(a.ops[i], hosts[i]) && a.ops[i].IsMode()
    requires SameButModes(hosts[u].tree, hosts[i].tree)
    ensures RollbackOne(a, js, i, h) == Restored(h)
  {
    hide StoppedAt, SameButModes, PrivateModes;
    var op := a.ops[i];
    ModeNodeStable(a, hosts, i, u, i);
    ModeNodeKept(a, hosts, u, i, h, gone);
    ParentKept(a, hosts, u, i, h, gone);
    assert IntentFaithful(a, hosts, js, i);
    if i < completed {
      assert Ran(a, hosts, i) && CompletionFaithful(a, hosts, js, i);
      assert js.completed[i] == WitnessOf(hosts[i].tree[op.path].stamp);
    }
    assert js.intents[i].source == Some(WitnessOf(hosts[i].tree[op.path].stamp));
    if op.SetFileMode? {
      PassFileMode(a, js, i, h);
    } else {
      PassDirectoryMode(a, js, i, h);
    }
  }

  lemma PassFileMode(a: Attempt, js: JournalState, i: u32, h: Host)
    requires a.Valid() && i < |a.ops| && a.ops[i].SetFileMode? && i in js.intents
    requires var op, w := a.ops[i], WitnessesOf(js, i);
             && ParentOpens(h.tree, op.path, w.parent)
             && op.path in h.tree && FileMatches(h.tree[op.path], op.expected)
             && w.source == Some(WitnessOf(h.tree[op.path].stamp))
             && (w.completed.Some? ==> w.completed == w.source)
             && (w.metadata.Some? ==> w.metadata.value == h.tree[op.path].stamp.(mode := op.afterMode))
    ensures RollbackOne(a, js, i, h) == Restored(h)
  {
  }

  lemma PassDirectoryMode(a: Attempt, js: JournalState, i: u32, h: Host)
    requires a.Valid() && i < |a.ops| && a.ops[i].SetDirectoryMode? && i in js.intents
    requires var op, w := a.ops[i], WitnessesOf(js, i);
             && ParentOpens(h.tree, op.path, w.parent)
             && IsDir(h.tree, op.path) && h.tree[op.path].stamp.mode == op.expected.mode
             && (op.expected.content.Stamp? ==> op.expected.content.stamp.id == h.tree[op.path].stamp.id)
             && w.source == Some(WitnessOf(h.tree[op.path].stamp))
             && (w.completed.Some? ==> w.completed == w.source)
    ensures RollbackOne(a, js, i, h) == Restored(h)
  {
  }

  lemma ParentKept(a: Attempt, hosts: seq<Host>, u: nat, i: nat, h: Host, gone: set<Path>)
    requires Executes(a, hosts) && Shaped(a.ops, u) && u < |hosts| && StoppedAt(a, hosts, u, h, gone)
    requires i < |a.ops| && i < |hosts| && SameButModes(hosts[u].tree, hosts[i].tree)
    requires IsDir(hosts[i].tree, Parent(a.ops[i].path))
    ensures IsDir(h.tree, Parent(a.ops[i].path))
    ensures WitnessOf(h.tree[Parent(a.ops[i].path)].stamp) == WitnessOf(hosts[i].tree[Parent(a.ops[i].path)].stamp)
  {
    var d := Parent(a.ops[i].path);
    MarkersPresent(a, hosts, u);
    assert WithMode(hosts[u].tree[d], 0) == WithMode(hosts[i].tree[d], 0);
    assert d !in gone;
  }

  /** The one operation without a completion record is met again and passed over. */
  lemma PassPending(a: Attempt, hosts: seq<Host>, js: JournalState, completed: nat, intended: nat,
                    u: nat, i: nat, h: Host, gone: set<Path>)
    requires Executes(a, hosts) && Shaped(a.ops, intended) && PrivateModes(a.ops) && Journaled(a, hosts, js, completed, intended)
    requires u <= i == completed < intended && StoppedAt(a, hosts, u, h, gone)
    requires Awaits(a.ops[i], hosts[i]) && !a.ops[i].IsMode()
    requires SameButModes(hosts[u].tree, hosts[i].tree) && hosts[u].quarantine == hosts[i].quarantine
    ensures RollbackOne(a, js, i, h) == Restored(h)
  {
    hide WithMode, PrivateModes;
    var op := a.ops[i];
    assert IntentFaithful(a, hosts, js, i);
    ParentKept(a, hosts, u, i, h, gone);
    LinksShrink(a, hosts, i);
    LinksShrink(a, hosts, |hosts| - 1);
    assert op.Quarantine? ==> op.path !in Markers(a.ops, u);
  }

  /** Without an intent there is nothing to pass. */
  lemma PassUnintended(a: Attempt, hosts: seq<Host>, js: JournalState, completed: nat, intended: nat, i: nat, h: Host)
    requires Executes(a, hosts) && Journaled(a, hosts, js, completed, intended) && intended <= i < |a.ops|
    ensures RollbackOne(a, js, i, h) == Restored(h)
  {
  }

  lemma AwaitsIntended(a: Attempt, hosts: seq<Host>, intended: nat, i: nat)
    requires Executes(a, hosts) && i < intended <= |hosts| && intended <= |a.ops|
    requires intended > |hosts| - 1 ==> Awaits(a.ops[|hosts| - 1], hosts[|hosts| - 1])
    ensures Awaits(a.ops[i], hosts[i])
  {
    hide Awaits;
    if i < |hosts| - 1 {
      assert Ran(a, hosts, i);
      StepAwaits(a, i, hosts[i], hosts[i + 1]);
    }
  }

  lemma PassOne(a: Attempt, hosts: seq<Host>, js: JournalState, completed: nat, intended: nat,
                u: nat, i: nat, h: Host, gone: set<Path>)
    requires Executes(a, hosts) && Shaped(a.ops, intended) && PrivateModes(a.ops) && Journaled(a, hosts, js, completed, intended)
    requires u < |hosts| && u <= i < |a.ops| && StoppedAt(a, hosts, u, h, gone)
    requires intended > |hosts| - 1 ==> Awaits(a.ops[|hosts| - 1], hosts[|hosts| - 1])
    requires forall i :: u <= i < completed ==> a.ops[i].IsMode()
    ensures RollbackOne(a, js, i, h) == Restored(h)
  {
    hide RollbackOne, StepsTo, Shaped, PrivateModes, Awaits, StoppedAt, SameButModes;
    if i >= intended {
      PassUnintended(a, hosts, js, completed, intended, i, h);
    } else {
      ModesOnly(a, hosts, u, i);
      AwaitsIntended(a, hosts, intended, i);
      if a.ops[i].IsMode() {
        PassMode(a, hosts, js, completed, intended, u, i, h, gone);
      } else {
        PassPending(a, hosts, js, completed, intended, u, i, h, gone);
      }
    }
  }

  /** Every operation from u on is passed over without touching the host. */
  lemma {:induction false} PassAll(a: Attempt, hosts: seq<Host>, js: JournalState, completed: nat, intended: nat,
                                   u: nat, k: nat, h: Host, gone: set<Path>)
    requires Executes(a, hosts) && Shaped(a.ops, intended) && PrivateModes(a.ops) && Journaled(a, hosts, js, completed, intended)
    requires u < |hosts| && u <= k <= |a.ops| && StoppedAt(a, hosts, u, h, gone)
    requires intended > |hosts| - 1 ==> Awaits(a.ops[|hosts| - 1], hosts[|hosts| - 1])
    requires forall i :: u <= i < completed ==> a.ops[i].IsMode()
    ensures RollbackAll(a, js, k, h) == RollbackAll(a, js, u, h)
  {
    hide RollbackOne, Shaped, PrivateModes, Journaled, Executes, StoppedAt;
    if u < k {
      PassOne(a, hosts, js, completed, intended, u, k - 1, h, gone);
      PassAll(a, hosts, js, completed, intended, u, k - 1, h, gone);
    }
  }

  /** If a completed operation other than a mode change was undone, nothing happens at all. */
  lemma {:induction false} StuckAll(a: Attempt, hosts: seq<Host>, js: JournalState, completed: nat, intended: nat,
                                    u: nat, k: nat, h: Host, gone: set<Path>)
    requires Executes(a, hosts) && Shaped(a.ops, intended) && PrivateModes(a.ops) && Journaled(a, hosts, js, completed, intended)
    requires FreshIds(a, hosts[0]) && Unmarked(a, hosts[0])
    requires u < |hosts| && u <= k <= |a.ops| && StoppedAt(a, hosts, u, h, gone)
    requires intended > |hosts| - 1 ==> Awaits(a.ops[|hosts| - 1], hosts[|hosts| - 1])
    requires exists i :: u <= i < completed && i < k && !a.ops[i].IsMode()
    ensures RollbackAll(a, js, k, h) == Stuck(h)
  {
    hide RollbackOne, Shaped, PrivateModes, FreshIds, Unmarked, Awaits, StoppedAt;
    var i := k - 1;
    if i < intended {
      AwaitsIntended(a, hosts, intended, i);
      RefusesAgain(a, hosts, js, completed, intended, u, i, h, gone);
    } else {
      PassUnintended(a, hosts, js, completed, intended, i, h);
    }
    if RollbackOne(a, js, i, h) == Restored(h) {
      StuckAll(a, hosts, js, completed, intended, u, k - 1, h, gone);
    }
  }

  /**
   A rollback that stopped after undoing operations u and later, run again: it restores the
   base exactly when every completed operation it had undone was a mode change, and
   otherwise it is a conflict that leaves the host as it found it.
   */
  lemma SecondRollback(a: Attempt, hosts: seq<Host>, js: JournalState, completed: nat, intended: nat,
                       u: nat, h: Host, gone: set<Path>)
    requires Executes(a, hosts) && Shaped(a.ops, intended) && PrivateModes(a.ops) && Journaled(a, hosts, js, completed, intended)
    requires FreshIds(a, hosts[0]) && Unmarked(a, hosts[0])
    requires u < |hosts| && StoppedAt(a, hosts, u, h, gone)
    requires u > completed ==> gone == {}
    requires intended > |hosts| - 1 ==> Awaits(a.ops[|hosts| - 1], hosts[|hosts| - 1])
    ensures var again := RollbackAll(a, js, |a.ops|, h);
            if forall i :: u <= i < completed ==> a.ops[i].IsMode() then
              again.Restored? && After(again.host, hosts[0], {})
            else
              again == Stuck(h)
  {
    if forall i :: u <= i < completed ==> a.ops[i].IsMode() {
      PassAll(a, hosts, js, completed, intended, u, |a.ops|, h, gone);
      RollbackRestores(a, hosts, js, completed, intended, u, h, gone);
    } else {
      StuckAll(a, hosts, js, completed, intended, u, |a.ops|, h, gone);
    }
  }

  // ------------------------------------------------- stopping half-way

  /** Reverse operations u..k only: recovery interrupted after that many undos. */
  function RollbackTo(a: Attempt, js: JournalState, k: nat, u: nat, h: Host): RollbackResult
    requires a.Valid() && u <= k <= |a.ops|
  {
    if k == u then Restored(h)
    else match RollbackOne(a, js, k - 1, h)
      case Restored(h') => RollbackTo(a, js, k - 1, u, h')
      case Stuck(h') => Stuck(h')
  }

  lemma StoppedWithin(a: Attempt, hosts: seq<Host>, u: nat, h: Host, gone: set<Path>)
    requires Executes(a, hosts) && u < |hosts| && StoppedAt(a, hosts, u, h, gone)
    ensures gone <= Markers(a.ops, u)
  {
  }

  lemma UndoStopped(a: Attempt, hosts: seq<Host>, js: JournalState, completed: nat, intended: nat, i: nat, h: Host, gone: set<Path>)
    requires Executes(a, hosts) && Shaped(a.ops, intended) && Journaled(a, hosts, js, completed, intended)
    requires i < |hosts| - 1 && StoppedAt(a, hosts, i + 1, h, gone) && (i == completed ==> gone == {})
    ensures RollbackOne(a, js, i, h).Restored?
    ensures StoppedAt(a, hosts, i, RollbackOne(a, js, i, h).host, gone * Markers(a.ops, i))
  {
    hide StepsTo, Shaped, Markers, InferApplied, IntentFaithful, CompletionFaithful, ParentOpens;
    UndoStep(a, hosts, js, completed, intended, i, h, gone);
  }

  lemma SkipStopped(a: Attempt, hosts: seq<Host>, js: JournalState, completed: nat, intended: nat, i: nat, h: Host, gone: set<Path>)
    requires Executes(a, hosts) && Journaled(a, hosts, js, completed, intended)
    requires |hosts| - 1 <= i < |a.ops| && StoppedAt(a, hosts, |hosts| - 1, h, gone) && (i + 1 > completed ==> gone == {})
    requires intended > |hosts| - 1 ==> Awaits(a.ops[|hosts| - 1], hosts[|hosts| - 1])
    ensures RollbackOne(a, js, i, h) == Restored(h)
  {
    hide RollbackOne, StepsTo, Markers, Awaits, IntentFaithful, CompletionFaithful;
    SkipUnapplied(a, hosts, js, completed, intended, i, h);
  }

  /** An interrupted rollback always stops in a state the execution passed through. */
  lemma {:induction false} PartialRollback(
    a: Attempt, hosts: seq<Host>, js: JournalState, completed: nat, intended: nat, k: nat, u: nat, h: Host, gone: set<Path>)
    requires Executes(a, hosts) && Shaped(a.ops, intended) && Journaled(a, hosts, js, completed, intended)
    requires u <= k <= |a.ops|
    requires StoppedAt(a, hosts, if k < |hosts| then k else |hosts| - 1, h, gone)
    requires k > completed ==> gone == {}
    requires intended > |hosts| - 1 ==> Awaits(a.ops[|hosts| - 1], hosts[|hosts| - 1])
    ensures RollbackTo(a, js, k, u, h).Restored?
    ensures var v := if u < |hosts| then u else |hosts| - 1;
            StoppedAt(a, hosts, v, RollbackTo(a, js, k, u, h).host, gone * Markers(a.ops, v))
  {
    hide RollbackOne, Shaped, StoppedAt, Awaits, Markers, IntentFaithful, CompletionFaithful;
    if k == u {
      var v := if u < |hosts| then u else |hosts| - 1;
      assert gone <= Markers(a.ops, v) by {
        StoppedWithin(a, hosts, v, h, gone);
      }
      assert gone * Markers(a.ops, v) == gone;
    } else if k - 1 >= |hosts| - 1 {
      SkipStopped(a, hosts, js, completed, intended, k - 1, h, gone);
      PartialRollback(a, hosts, js, completed, intended, k - 1, u, h, gone);
    } else {
      UndoStopped(a, hosts, js, completed, intended, k - 1, h, gone);
      var h' := RollbackOne(a, js, k - 1, h).host;
      PartialRollback(a, hosts, js, completed, intended, k - 1, u, h', gone * Markers(a.ops, k - 1));
      MarkersNest(a.ops, u, k - 1, gone);
    }
  }

  lemma MarkersNest(ops: seq<Operation>, u: nat, k: nat, gone: set<Path>)
    requires u <= k <= |ops|
    ensures gone * Markers(ops, k) * Markers(ops, u) == gone * Markers(ops, u)
  {
  }
}
