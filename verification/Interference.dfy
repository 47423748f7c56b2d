/**
 What recovery makes of a workspace that somebody else has been at: for every kind of operation
 that the journal says began, exactly what is put back, what is refused, and what is left alone.
 */
module Interference {
  import opened Types
  import opened Engine
  import opened Rollback
  import opened OperationLog
  import opened Planning
  import opened PlanCodec
  import opened CrashRecovery
  import opened FinalVerification
  import opened AcceptedLog
  import opened ByteCodec
  import AcceptedPlan
  import Reentry

  predicate Is(n: Node, w: Witness) {
    n.stamp.kind == w.kind && n.stamp.id == w.id
  }

  predicate SameNode(n: Node, m: Node) {
    n.stamp.kind == m.stamp.kind && n.stamp.id == m.stamp.id
  }

  predicate Writable(t: Tree, p: Path)
    requires p != []
  {
    Parent(p) in t && t[Parent(p)].stamp.mode / 128 % 2 == 1
  }

  /** The directory it is in is the one that the intent names. */
  predicate InPlace(t: Tree, p: Path, w: IntentWitnesses)
    requires p != []
  {
    Parent(p) in t && t[Parent(p)].stamp.kind == Directory && w.parent.Some? && Is(t[Parent(p)], w.parent.value)
  }

  /** A node that was moved shows this state; its change time does not count. */
  predicate ShowsMoved(n: Node, s: NodeState) {
    match s.content
    case Stamp(st) =>
      && n.stamp.kind == st.kind && n.stamp.size == st.size && n.stamp.mode == st.mode
      && n.stamp.mtime == st.mtime && n.stamp.id == st.id
    case _ => Shows(n, s)
  }

  // ------------------------------------------------------ applying an operation

  /** The parent is there and, for an operation that changes its entries, writable; what an operation answers if not. */
  predicate ParentReady(t: Tree, op: Operation)
    requires op.path != []
  {
    && Parent(op.path) in t && t[Parent(op.path)].stamp.kind == Directory
    && (op.SetFileMode? || op.SetDirectoryMode? || Writable(t, op.path))
  }

  lemma UnreadyFails(transaction: Digest, i: u32, op: Operation, h: Host, source: Option<Witness>, alloc: Alloc)
    requires op.path != [] && !ParentReady(h.tree, op)
    ensures Apply(transaction, i, op, h, source, alloc)
            == Applied.Failed(h, if Parent(op.path) in h.tree && h.tree[Parent(op.path)].stamp.kind == Directory then PermissionDenied else HostIo)
  {
  }

  /** The tree without a subtree, and the subtree under paths of its own. */
  ghost predicate TakenAway(t: Tree, p: Path, rest: Tree, held: Tree) {
    && (forall q :: q in rest <==> q in t && !(p <= q)) && (forall q :: q in rest ==> rest[q] == t[q])
    && (forall r :: r in held <==> p + r in t) && (forall r :: r in held ==> held[r] == t[p + r])
  }

  /** A quarantine takes away only what shows the expected state, into a slot that is free. */
  lemma QuarantineApplies(transaction: Digest, i: u32, op: Operation, h: Host, source: Option<Witness>, alloc: Alloc)
    requires op.Quarantine? && op.path != [] && ParentReady(h.tree, op)
    ensures var r := Apply(transaction, i, op, h, source, alloc);
            if op.path !in h.tree || !Shows(h.tree[op.path], op.expected) then r == Applied.Failed(h, VerificationFailed)
            else if op.slot in h.quarantine then r == Applied.Failed(h, HostIo)
            else
              && r.Done? && Is(h.tree[op.path], r.owner) && r.stamp == None
              && r.host.quarantine.Keys == h.quarantine.Keys + {op.slot}
              && r.host == h.(tree := r.host.tree, quarantine := h.quarantine[op.slot := r.host.quarantine[op.slot]])
              && TakenAway(h.tree, op.path, r.host.tree, r.host.quarantine[op.slot])
  {
    if op.path in h.tree {
      MatchesIsShown(h.tree[op.path], op.expected);
      forall r: Path
        ensures r in Relative(h.tree, op.path) <==> op.path + r in h.tree
        ensures r in Relative(h.tree, op.path) ==> Relative(h.tree, op.path)[r] == h.tree[op.path + r]
      {
        RelativeAt(h.tree, op.path, r);
      }
    }
  }

  /** A creation needs a free path, and puts the directory there with its marker in it. */
  lemma CreationApplies(transaction: Digest, i: u32, op: Operation, h: Host, source: Option<Witness>, alloc: Alloc)
    requires op.CreateDirectory? && op.path != [] && ParentReady(h.tree, op)
    ensures var r, m := Apply(transaction, i, op, h, source, alloc), op.path + [MARKER];
            if op.path in h.tree then r == Applied.Failed(h, HostIo)
            else
              && r.host == h.(tree := r.host.tree) && op.path in r.host.tree
              && r.host.tree[op.path].stamp.kind == Directory && r.host.tree[op.path].stamp.mode == op.after.mode
              && r.host.tree[op.path].stamp.id == alloc.directory
              && if op.after.mode / 128 % 2 == 1
                 then
                   && r.Done? && r.owner == Witness(Directory, alloc.directory) && r.stamp == None
                   && r.host.tree.Keys == h.tree.Keys + {op.path, m} && r.host.tree - {op.path, m} == h.tree - {m}
                   && r.host.tree[m].stamp.kind == File && r.host.tree[m].stamp.id == alloc.marker
                   && r.host.tree[m].data == OwnerMarker(transaction, i)
                 else
                   r == Applied.Failed(r.host, PermissionDenied) && r.host.tree - {op.path} == h.tree
  {
    assert |op.path + [MARKER]| == |op.path| + 1;
  }

  /** An install needs a free path and content on the stage, and leaves the very node that was staged. */
  lemma InstallApplies(transaction: Digest, i: u32, op: Operation, h: Host, source: Option<Witness>, alloc: Alloc)
    requires op.InstallFile? && op.path != [] && ParentReady(h.tree, op)
    ensures var r := Apply(transaction, i, op, h, source, alloc);
            if op.path in h.tree || op.slot !in h.staged then r == Applied.Failed(h, HostIo)
            else
              && r.host == h.(tree := h.tree[op.path := h.staged[op.slot]])
              && if Shows(h.staged[op.slot], op.after) then r.Done? && Is(h.staged[op.slot], r.owner) && r.stamp == None
                 else r == Applied.Failed(r.host, VerificationFailed)
  {
    if op.slot in h.staged {
      MatchesIsShown(h.staged[op.slot], op.after);
    }
  }

  /** A link is moved from the stage; it replaces whatever is in its place, unless that is a directory. */
  lemma LinkApplies(transaction: Digest, i: u32, op: Operation, h: Host, source: Option<Witness>, alloc: Alloc)
    requires op.InstallSymlink? && op.path != [] && ParentReady(h.tree, op)
    ensures var r := Apply(transaction, i, op, h, source, alloc);
            if (op.path in h.tree && h.tree[op.path].stamp.kind == Directory) || op.slot !in h.links then r == Applied.Failed(h, HostIo)
            else
              && r.host == h.(tree := h.tree[op.path := h.links[op.slot]], links := h.links - {op.slot})
              && if Shows(h.links[op.slot], op.after) then r.Done? && Is(h.links[op.slot], r.owner) && r.stamp == None
                 else r == Applied.Failed(r.host, VerificationFailed)
  {
    if op.slot in h.links {
      MatchesIsShown(h.links[op.slot], op.after);
    }
  }

  /** A mode is changed only on the file that was pinned, while it shows the expected state; nothing else changes. */
  lemma FileModeApplies(transaction: Digest, i: u32, op: Operation, h: Host, source: Option<Witness>, alloc: Alloc)
    requires op.SetFileMode? && op.path != [] && ParentReady(h.tree, op)
    ensures var r := Apply(transaction, i, op, h, source, alloc);
            if op.path !in h.tree || h.tree[op.path].stamp.kind != File then r == Applied.Failed(h, HostIo)
            else if op.expected.kind != File || op.expected.content.NoContent? || source.None? || !Is(h.tree[op.path], source.value)
                    || h.tree[op.path].stamp.size != op.expected.size || h.tree[op.path].stamp.mode != op.expected.mode
                    || (op.expected.content.Blob? && h.tree[op.path].data != Bytes(op.expected.content.blob))
                    || (op.expected.content.Stamp? && !HasStamp(h.tree[op.path], op.expected.content.stamp))
            then r == Applied.Failed(h, VerificationFailed)
            else
              var n := h.tree[op.path].(stamp := h.tree[op.path].stamp.(mode := op.afterMode));
              r == Done(h.(tree := h.tree[op.path := n]), Witness(File, n.stamp.id), Some(n.stamp))
  {
  }

  lemma DirectoryModeApplies(transaction: Digest, i: u32, op: Operation, h: Host, source: Option<Witness>, alloc: Alloc)
    requires op.SetDirectoryMode? && op.path != [] && ParentReady(h.tree, op)
    ensures var r := Apply(transaction, i, op, h, source, alloc);
            if op.path !in h.tree || h.tree[op.path].stamp.kind != Directory then r == Applied.Failed(h, HostIo)
            else if source.None? || !Is(h.tree[op.path], source.value) || h.tree[op.path].stamp.mode != op.expected.mode
                    || (op.expected.content.Stamp? && h.tree[op.path].stamp.id != op.expected.content.stamp.id)
            then r == Applied.Failed(h, VerificationFailed)
            else
              var n := h.tree[op.path].(stamp := h.tree[op.path].stamp.(mode := op.afterMode));
              r == Done(h.(tree := h.tree[op.path := n]), Witness(Directory, n.stamp.id), None)
  {
  }

  // ---------------------------------------------------------- directory modes

  /** The directory is the one whose mode was to change, with the old mode or the new one. */
  predicate ModeDirectory(t: Tree, op: Operation, w: IntentWitnesses, completed: Option<Witness>)
    requires op.SetDirectoryMode?
  {
    && op.path in t && t[op.path].stamp.kind == Directory
    && (op.expected.content.Stamp? ==> t[op.path].stamp.id == op.expected.content.stamp.id)
    && (w.source.Some? ==> Is(t[op.path], w.source.value))
    && (completed.Some? ==> Is(t[op.path], completed.value))
    && (t[op.path].stamp.mode == op.expected.mode || t[op.path].stamp.mode == op.afterMode)
  }

  /** Whether it had been changed or not, the directory has its old mode; any other directory or mode is a conflict. */
  lemma DirectoryModeOutcome(a: Attempt, js: JournalState, i: u32, h: Host)
    requires a.Valid() && i < |a.ops| && i in js.intents && a.ops[i].SetDirectoryMode?
    ensures var op := a.ops[i];
            RollbackOne(a, js, i, h)
            == if InPlace(h.tree, op.path, js.intents[i]) && ModeDirectory(h.tree, op, js.intents[i], Lookup(js.completed, i))
               then Restored(h.(tree := h.tree[op.path := WithMode(h.tree[op.path], op.expected.mode)]))
               else Stuck(h)
  {
    var op := a.ops[i];
    if op.path in h.tree && h.tree[op.path].stamp.mode == op.expected.mode {
      assert h.tree[op.path := WithMode(h.tree[op.path], op.expected.mode)] == h.tree;
    }
  }

  // --------------------------------------------------------------- file modes

  /** The file is the one whose mode was to change, with the content and one of the modes it should have. */
  predicate ModeFile(t: Tree, op: Operation, w: IntentWitnesses, completed: Option<Witness>, stamp: Option<FileStamp>)
    requires op.SetFileMode?
  {
    && op.path in t
    && var n := t[op.path];
    && n.stamp.kind == File && w.source.Some? && Is(n, w.source.value)
    && (completed.Some? ==> Is(n, completed.value))
    && (n.stamp.mode == op.expected.mode || n.stamp.mode == op.afterMode)
    && (stamp.Some? ==> if n.stamp.mode == op.afterMode then HasStamp(n, stamp.value) else SameContent(n, stamp.value))
    && match op.expected.content
       case Stamp(before) => SameContent(n, before)
       case Blob(b) => op.expected.kind == File && n.stamp.size == op.expected.size && n.data == Bytes(b)
       case NoContent => false
  }

  predicate SameContent(n: Node, s: FileStamp) {
    n.stamp.id == s.id && n.stamp.size == s.size && n.stamp.mtime == s.mtime
  }

  lemma FileModeOutcome(a: Attempt, js: JournalState, i: u32, h: Host)
    requires a.Valid() && i < |a.ops| && i in js.intents && a.ops[i].SetFileMode?
    ensures var op := a.ops[i];
            RollbackOne(a, js, i, h)
            == if InPlace(h.tree, op.path, js.intents[i])
                  && ModeFile(h.tree, op, js.intents[i], Lookup(js.completed, i), Lookup(js.metadata, i))
               then Restored(h.(tree := h.tree[op.path := WithMode(h.tree[op.path], op.expected.mode)]))
               else Stuck(h)
  {
    var op := a.ops[i];
    if op.path in h.tree && h.tree[op.path].stamp.mode == op.expected.mode {
      assert h.tree[op.path := WithMode(h.tree[op.path], op.expected.mode)] == h.tree;
    }
  }

  // -------------------------------------------------------------- quarantines

  predicate Held(h: Host, slot: nat) {
    slot in h.quarantine && [] in h.quarantine[slot]
  }

  /** The tree with a held subtree back at its path. */
  ghost predicate PutBackAt(t: Tree, held: Tree, p: Path, t': Tree) {
    && (forall q :: q in t' <==> q in t || (p <= q && q[|p|..] in held))
    && (forall q :: q in t' ==> t'[q] == if p <= q && q[|p|..] in held then held[q[|p|..]] else t[q])
  }

  /** A quarantine whose completion is recorded: the very node is put back, or it is a conflict. */
  lemma QuarantineOutcome(a: Attempt, js: JournalState, i: u32, h: Host)
    requires a.Valid() && i < |a.ops| && i in js.intents && i in js.completed && a.ops[i].Quarantine?
    ensures var op, r := a.ops[i], RollbackOne(a, js, i, h);
            if InPlace(h.tree, op.path, js.intents[i]) && op.path !in h.tree && Writable(h.tree, op.path)
               && Held(h, op.slot) && Is(h.quarantine[op.slot][[]], js.completed[i])
               && ShowsMoved(h.quarantine[op.slot][[]], op.expected)
            then
              && r.Restored? && r.host == h.(tree := r.host.tree, quarantine := h.quarantine - {op.slot})
              && PutBackAt(h.tree, h.quarantine[op.slot], op.path, r.host.tree)
            else r == Stuck(h)
  {
    var op := a.ops[i];
    if Held(h, op.slot) {
      MatchesIsShown(h.quarantine[op.slot][[]], op.expected);
      PutsBack(h.tree, h.quarantine[op.slot], op.path);
    }
  }

  lemma PutsBack(t: Tree, held: Tree, p: Path)
    ensures PutBackAt(t, held, p, t + Rooted(held, p))
  {
    forall q
      ensures q in t + Rooted(held, p) <==> q in t || (p <= q && q[|p|..] in held)
      ensures p <= q && q[|p|..] in held ==> (t + Rooted(held, p))[q] == held[q[|p|..]]
    {
      RootedAt(held, p, q);
    }
  }

  /**
   One that only began: a node at its place with nothing held was never moved; a held node that
   looks as expected is put back, one that does not is passed over; both or neither is a conflict.
   */
  lemma BegunQuarantineOutcome(a: Attempt, js: JournalState, i: u32, h: Host)
    requires a.Valid() && i < |a.ops| && i in js.intents && i !in js.completed && a.ops[i].Quarantine?
    ensures var op, r := a.ops[i], RollbackOne(a, js, i, h);
            if !InPlace(h.tree, op.path, js.intents[i]) then r == Stuck(h)
            else if op.path in h.tree then r == if op.slot in h.quarantine then Stuck(h) else Restored(h)
            else if !Held(h, op.slot) then r == Stuck(h)
            else if !ShowsMoved(h.quarantine[op.slot][[]], op.expected) then r == Restored(h)
            else if !Writable(h.tree, op.path) then r == Stuck(h)
            else
              && r.Restored? && r.host == h.(tree := r.host.tree, quarantine := h.quarantine - {op.slot})
              && PutBackAt(h.tree, h.quarantine[op.slot], op.path, r.host.tree)
  {
    var op := a.ops[i];
    if Held(h, op.slot) {
      MatchesIsShown(h.quarantine[op.slot][[]], op.expected);
      PutsBack(h.tree, h.quarantine[op.slot], op.path);
    }
  }

  // ---------------------------------------------------------------- creations

  /** The directory is the one created: by its recorded identity, or by the marker in it. */
  predicate Created(transaction: Digest, i: u32, t: Tree, p: Path, completed: Option<Witness>) {
    && p in t && t[p].stamp.kind == Directory
    && match completed
       case Some(w) => Is(t[p], w)
       case None => p + [MARKER] in t && t[p + [MARKER]].data == OwnerMarker(transaction, i)
  }

  /** The marker in the directory, if there is one, can be removed. */
  predicate Unmarkable(t: Tree, p: Path) {
    p + [MARKER] in t ==> p in t && t[p].stamp.mode / 128 % 2 == 1 && t[p + [MARKER]].stamp.kind != Directory
  }

  /** Nothing but an ownership marker is in the directory, and it can go. */
  predicate Removable(t: Tree, p: Path)
    requires p != []
  {
    Writable(t, p) && forall q :: q in t && |q| == |p| + 1 && p <= q ==> q == p + [MARKER]
  }

  /**
   A directory that is not there was not created, or it is a conflict; one that is not the created
   one is a conflict; the created one is removed with its marker, unless something else is in it;
   then it loses its marker only.
   */
  lemma CreationOutcome(a: Attempt, js: JournalState, i: u32, h: Host)
    requires a.Valid() && i < |a.ops| && i in js.intents && a.ops[i].CreateDirectory?
    ensures var p, r := a.ops[i].path, RollbackOne(a, js, i, h);
            if !InPlace(h.tree, p, js.intents[i]) then r == Stuck(h)
            else if p !in h.tree && i !in js.completed then r == Restored(h)
            else if !Created(a.transaction, i, h.tree, p, Lookup(js.completed, i)) then r == Stuck(h)
            else if !Unmarkable(h.tree, p) then r == Stuck(h)
            else if !Removable(h.tree, p) then r == Stuck(h.(tree := h.tree - {p + [MARKER]}))
            else r == Restored(h.(tree := h.tree - {p + [MARKER]} - {p}))
  {
    hide ParentOpens;
    var p := a.ops[i].path;
    var m, unmarked := MarkerOf(p), h.tree - {MarkerOf(p)};
    ParentIsInPlace(h.tree, p, js.intents[i]);
    EmptyButMarker(h.tree, p);
  }

  lemma ParentIsInPlace(t: Tree, p: Path, w: IntentWitnesses)
    requires p != []
    ensures ParentOpens(t, p, w.parent) <==> InPlace(t, p, w)
  {
  }

  lemma EmptyButMarker(t: Tree, p: Path)
    ensures EmptyDirectory(t - {p + [MARKER]}, p) <==> forall q :: q in t && |q| == |p| + 1 && p <= q ==> q == p + [MARKER]
  {
  }

  // ----------------------------------------------------------------- installs

  /** An installed file is removed if it is the node that was installed and shows what was installed. */
  lemma InstallOutcome(a: Attempt, js: JournalState, i: u32, h: Host)
    requires a.Valid() && i < |a.ops| && i in js.intents && a.ops[i].InstallFile?
    ensures var op, r := a.ops[i], RollbackOne(a, js, i, h);
            if !InPlace(h.tree, op.path, js.intents[i]) then r == Stuck(h)
            else if op.path !in h.tree then r == if i in js.completed then Stuck(h) else Restored(h)
            else
              r == if (match Lookup(js.completed, i)
                       case Some(w) => Is(h.tree[op.path], w)
                       case None => op.slot in h.staged && SameNode(h.staged[op.slot], h.tree[op.path]))
                      && Shows(h.tree[op.path], op.after) && Writable(h.tree, op.path)
                   then Restored(h.(tree := h.tree - {op.path})) else Stuck(h)
  {
    var op := a.ops[i];
    if op.path in h.tree {
      MatchesIsShown(h.tree[op.path], op.after);
    }
  }

  /** A link likewise; before its completion is recorded, the node staged for it must have left the stage. */
  lemma LinkOutcome(a: Attempt, js: JournalState, i: u32, h: Host)
    requires a.Valid() && i < |a.ops| && i in js.intents && a.ops[i].InstallSymlink?
    ensures var op, r := a.ops[i], RollbackOne(a, js, i, h);
            var owner := if i in js.completed then Some(js.completed[i]) else js.intents[i].source;
            if !InPlace(h.tree, op.path, js.intents[i]) || owner.None? then r == Stuck(h)
            else if op.path !in h.tree then
              r == if i !in js.completed && (op.slot in h.links ==> Is(h.links[op.slot], owner.value)) then Restored(h) else Stuck(h)
            else
              r == if (i in js.completed || op.slot !in h.links) && Is(h.tree[op.path], owner.value)
                      && Shows(h.tree[op.path], op.after) && Writable(h.tree, op.path)
                   then Restored(h.(tree := h.tree - {op.path})) else Stuck(h)
  {
    var op := a.ops[i];
    if op.path in h.tree {
      MatchesIsShown(h.tree[op.path], op.after);
    }
  }

  /** Whatever was inferred before it, an undo by itself takes away, or puts back, only what is the operation's own. */
  lemma UndoTakesItsOwn(transaction: Digest, i: u32, op: Operation, w: Witnesses, h: Host)
    requires op.path != [] && IsDir(h.tree, Parent(op.path))
    requires UndoOperation(transaction, i, op, w, h).Reverted?
    ensures var p := op.path;
            match op
            case Quarantine(_, expected, slot) =>
              && p !in h.tree && slot in h.quarantine && [] in h.quarantine[slot]
              && ShowsMoved(h.quarantine[slot][[]], expected)
              && (w.completed.Some? ==> Is(h.quarantine[slot][[]], w.completed.value))
            case CreateDirectory(_, _) => Created(transaction, i, h.tree, p, w.completed)
            case InstallFile(_, after, slot) =>
              && p in h.tree && Shows(h.tree[p], after)
              && (match w.completed
                  case Some(c) => Is(h.tree[p], c)
                  case None => slot in h.staged && SameNode(h.staged[slot], h.tree[p]))
            case InstallSymlink(_, after, _) =>
              && p in h.tree && Shows(h.tree[p], after)
              && (match w.completed
                  case Some(c) => Is(h.tree[p], c)
                  case None => w.source.Some? && Is(h.tree[p], w.source.value))
            case SetFileMode(_, expected, afterMode) =>
              p in h.tree && h.tree[p].stamp.kind == File && h.tree[p].stamp.mode in {expected.mode, afterMode}
            case SetDirectoryMode(_, expected, afterMode) =>
              p in h.tree && h.tree[p].stamp.kind == Directory && h.tree[p].stamp.mode in {expected.mode, afterMode}
  {
    match op {
      case Quarantine(_, expected, slot) => MatchesIsShown(h.quarantine[slot][[]], expected);
      case InstallFile(p, after, _) => MatchesIsShown(h.tree[p], after);
      case InstallSymlink(p, after, _) => MatchesIsShown(h.tree[p], after);
      case _ =>
    }
  }

  // ----------------------------------------------------------------- recovery

  lemma {:induction false} StopsAt(a: Attempt, js: JournalState, k: nat, i: nat, h: Host, h1: Host, h2: Host)
    requires a.Valid() && i < k <= |a.ops|
    requires Reentry.RollbackTo(a, js, k, i + 1, h) == Restored(h1) && RollbackOne(a, js, i, h1) == Stuck(h2)
    ensures RollbackAll(a, js, k, h) == Stuck(h2)
  {
    hide RollbackOne;
    if k > i + 1 {
      match RollbackOne(a, js, k - 1, h)
      case Restored(h') => StopsAt(a, js, k - 1, i, h', h1, h2);
      case Stuck(_) =>
    }
  }

  /** Reversing gets as far as the first operation that cannot be reversed; recovery is then a conflict and keeps everything. */
  lemma StuckIsConflict(c: Config, hash: Hash, d: Disk, p: PreparedPlan, js: JournalState, i: nat, h1: Host, h2: Host)
    requires d.workspace.Some? && !d.workspace.value.marker && d.state != Some(Committed)
    requires ReadPlan(c, hash, d.workspace.value) == Ok(p) && i < |p.operations| && Reversal(p).Valid()
    requires ReadLog(hash, c.maxJournalBytes, d.workspace.value.journal) == Ok(js)
    requires Reentry.RollbackTo(Reversal(p), js, |p.operations|, i + 1, HostOf(d.tree, d.workspace.value)) == Restored(h1)
    requires RollbackOne(Reversal(p), js, i, h1) == Stuck(h2)
    ensures RecoverDisk(c, hash, d) == (Disk(h2.tree, Claimed(d.state), Some(Keep(d.workspace.value, h2))), Conflicted)
  {
    hide Decode, ReadLog, RollbackOne;
    StopsAt(Reversal(p), js, |p.operations|, i, HostOf(d.tree, d.workspace.value), h1, h2);
  }

  lemma {:induction false} NothingAfter(a: Attempt, js: JournalState, n: nat, k: nat, h: Host)
    requires a.Valid() && n <= k <= |a.ops| && forall i: u32 :: i in js.intents ==> i < n
    ensures Reentry.RollbackTo(a, js, k, n, h) == Restored(h)
  {
    if n < k {
      NothingAfter(a, js, n, k - 1, h);
    }
  }

  /** If it is the last operation that began, nothing was reversed before it. */
  lemma LastStuckIsConflict(c: Config, hash: Hash, d: Disk, p: PreparedPlan, js: JournalState, i: u32)
    requires d.workspace.Some? && !d.workspace.value.marker
    requires ReadPlan(c, hash, d.workspace.value) == Ok(p) && i < |p.operations| && Reversal(p).Valid()
    requires ReadLog(hash, c.maxJournalBytes, d.workspace.value.journal) == Ok(js)
    requires forall j: u32 :: j in js.intents ==> j <= i
    requires RollbackOne(Reversal(p), js, i, HostOf(d.tree, d.workspace.value)) == Stuck(HostOf(d.tree, d.workspace.value))
    ensures RecoverDisk(c, hash, d) == (d.(state := Claimed(d.state)), Conflicted)
  {
    hide Decode, ReadLog, RollbackOne;
    var h := HostOf(d.tree, d.workspace.value);
    NothingAfter(Reversal(p), js, i + 1, |p.operations|, h);
    assert Keep(d.workspace.value, h) == d.workspace.value;
    if d.state != Some(Committed) {
      StuckIsConflict(c, hash, d, p, js, i, h, h);
    }
  }

  /**
   A directory whose mode was changed by the last operation that began, and that has neither the
   old mode nor the new one: recovery is a conflict, keeps the workspace, and leaves the tree alone.
   */
  lemma ThirdModeIsConflict(c: Config, hash: Hash, d: Disk, p: PreparedPlan, js: JournalState, i: u32)
    requires d.workspace.Some? && !d.workspace.value.marker
    requires ReadPlan(c, hash, d.workspace.value) == Ok(p) && i < |p.operations| && p.operations[i].SetDirectoryMode?
    requires ReadLog(hash, c.maxJournalBytes, d.workspace.value.journal) == Ok(js)
    requires i in js.intents && forall j: u32 :: j in js.intents ==> j <= i
    requires var op := p.operations[i];
             op.path in d.tree && d.tree[op.path].stamp.mode != op.expected.mode && d.tree[op.path].stamp.mode != op.afterMode
    ensures RecoverDisk(c, hash, d) == (d.(state := Claimed(d.state)), Conflicted)
  {
    hide Decode, ReadLog, RollbackOne;
    DirectoryModeOutcome(Reversal(p), js, i, HostOf(d.tree, d.workspace.value));
    LastStuckIsConflict(c, hash, d, p, js, i);
  }

  // ------------------------------------------------------- damaged leftovers

  /**
   A durable plan that is too large, or that is not the encoding of a plan within the bounds with
   its own digest, or that names the workspace root, is refused, and nothing changes.
   */
  lemma BadPlanIsRefused(c: Config, hash: Hash, d: Disk)
    requires d.workspace.Some?
    requires |d.workspace.value.plan| <= c.maxPlanBytes ==>
               forall shifted, p ::
                 AcceptedPlan.IsPlan(hash, shifted, p, c.maxOperations, c.maxPathBytes, d.workspace.value.plan) ==>
                   exists i :: 0 <= i < |p.operations| && p.operations[i].path == []
    ensures RecoverDisk(c, hash, d).0 == d && RecoverDisk(c, hash, d).1.Refused?
    ensures RecoverDisk(c, hash, d).1 == Refused(PlanTooLarge) <==> |d.workspace.value.plan| > c.maxPlanBytes
  {
    hide AcceptedPlan.IsPlan, Decode;
    var bytes := d.workspace.value.plan;
    if |bytes| <= c.maxPlanBytes {
      var r := Decode(hash, bytes, c.maxOperations, c.maxPathBytes);
      if r.Ok? {
        var shifted := AcceptedPlan.AcceptedIsPlan(hash, bytes, c.maxOperations, c.maxPathBytes);
        assert !Reversal(r.value).Valid();
      }
    }
  }

  /** A plan that is one is read, in either format. */
  lemma GoodPlanIsRead(c: Config, hash: Hash, w: Workspace, shifted: bool, p: PreparedPlan)
    requires |w.plan| <= c.maxPlanBytes && AcceptedPlan.IsPlan(hash, shifted, p, c.maxOperations, c.maxPathBytes, w.plan)
    requires forall i :: 0 <= i < |p.operations| ==> p.operations[i].path != []
    ensures ReadPlan(c, hash, w) == Ok(p)
  {
    AcceptedPlan.PlanIsAccepted(hash, shifted, p, c.maxOperations, c.maxPathBytes, w.plan);
  }

  /** A damaged record, behind good ones, is refused, and nothing changes. */
  lemma DamagedRecordIsRefused(c: Config, hash: Hash, d: Disk, metadata: bool, es: seq<Entry>, payload: seq<byte>, sum: Digest,
                               rest: seq<byte>)
    requires d.workspace.Some? && ReadPlan(c, hash, d.workspace.value).Ok?
    requires InSequence(es, metadata) && |payload| <= MAX_RECORD_PAYLOAD && hash(payload) != sum
    requires d.workspace.value.journal
             == OperationLog.Magic(metadata) + EntryFrames(hash, es) + (U32Bytes(|payload|) + payload + sum + rest)
    requires |d.workspace.value.journal| <= c.maxJournalBytes
    ensures RecoverDisk(c, hash, d) == (d, Refused(BadJournal(BadChecksum)))
  {
    hide Decode, ReadLog, EntryFrames, InSequence;
    DamageIsReported(hash, c.maxJournalBytes, metadata, es, payload, sum, rest);
  }

  /** A journal that is not a log within the bound is refused, and nothing changes. */
  lemma BadJournalIsRefused(c: Config, hash: Hash, d: Disk)
    requires d.workspace.Some? && ReadPlan(c, hash, d.workspace.value).Ok?
    requires |d.workspace.value.journal| <= c.maxJournalBytes ==>
               forall metadata, es, tail :: !IsLog(hash, metadata, es, tail, d.workspace.value.journal)
    ensures RecoverDisk(c, hash, d).0 == d && RecoverDisk(c, hash, d).1.Refused?
  {
    hide Decode, ReadLog, IsLog;
    var bytes := d.workspace.value.journal;
    if ReadLog(hash, c.maxJournalBytes, bytes).Ok? {
      var metadata, es, tail := AcceptedIsLog(hash, c.maxJournalBytes, bytes);
    }
  }

  /**
   Without a commit marker recovery depends on the stored state: a committed transaction is a
   conflict outright; from the states of a commit under way, or when the store forgot the
   transaction, what was reversed in full is failed and cleaned up; from any other state it is a
   conflict and stays as it was.
   */
  lemma UnmarkedOutcome(c: Config, hash: Hash, d: Disk, p: PreparedPlan, js: JournalState)
    requires d.workspace.Some? && !d.workspace.value.marker
    requires ReadPlan(c, hash, d.workspace.value) == Ok(p)
    requires ReadLog(hash, c.maxJournalBytes, d.workspace.value.journal) == Ok(js)
    ensures Reversal(p).Valid()
    ensures var r := RollbackAll(Reversal(p), js, |p.operations|, HostOf(d.tree, d.workspace.value));
            var kept := Disk(r.host.tree, if d.state == Some(Committing) then Some(RecoveryRequired) else d.state,
                             Some(Keep(d.workspace.value, r.host)));
            RecoverDisk(c, hash, d)
            == match d.state
               case None => if r.Restored? then (Disk(r.host.tree, None, None), RolledBack) else (kept, Conflicted)
               case Some(Committed) => (d, Conflicted)
               case Some(s) =>
                 if r.Restored? && s in {Reserved, Revalidating, Committing, RecoveryRequired, TransactionState.Failed}
                 then (Disk(r.host.tree, Some(TransactionState.Failed), None), RolledBack)
                 else (kept, Conflicted)
  {
    hide Decode, ReadLog, RollbackAll;
  }
}
