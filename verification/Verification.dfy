/**
 What the final verification decides, node by node and field by field, and what recovery makes
 of a commit marker in consequence.
 */
module FinalVerification {
  import opened Types
  import opened Engine
  import opened Planning
  import opened PlanCodec
  import opened OperationLog
  import opened CrashRecovery

  /** The node has the kind, size, permissions and content that the state names. */
  predicate Shows(n: Node, s: NodeState) {
    match s.content
    case Blob(b) =>
      && n.stamp.kind == s.kind && s.kind != Directory
      && n.stamp.size == s.size && n.stamp.mode == s.mode && n.data == Bytes(b)
    case Stamp(st) => HasStamp(n, st)
    case NoContent => n.stamp.kind == Directory && s.kind == Directory && s.size == 0 && n.stamp.mode == s.mode
  }

  predicate HasStamp(n: Node, s: FileStamp) {
    && n.stamp.kind == s.kind && n.stamp.size == s.size && n.stamp.mode == s.mode
    && n.stamp.mtime == s.mtime && n.stamp.ctime == s.ctime && n.stamp.id == s.id
  }

  lemma MatchesIsShown(n: Node, s: NodeState)
    ensures NodeMatches(n, s) <==> Shows(n, s)
  {
  }

  /**
   The path is as planned: absent if it is to be absent, and otherwise showing the planned state.
   Where a mode change recorded a stamp, it is that very node, with the approved content.
   */
  predicate FinalShown(t: Tree, path: Path, planned: Option<NodeState>, recorded: Option<FileStamp>) {
    match recorded
    case None => if path in t then planned.Some? && Shows(t[path], planned.value) else planned.None?
    case Some(stamp) =>
      && path in t && HasStamp(t[path], stamp)
      && (planned.Some? && planned.value.content.Blob? ==>
            && t[path].stamp.kind == File && planned.value.kind == File
            && t[path].stamp.size == planned.value.size && t[path].stamp.mode == planned.value.mode
            && t[path].data == Bytes(planned.value.content.blob))
  }

  /** The directory has the planned permissions, and is the one whose mode was changed. */
  predicate ModeShown(t: Tree, path: Path, mode: u32, completed: Option<Witness>) {
    && path in t && t[path].stamp.kind == Directory && t[path].stamp.mode == mode
    && completed.Some? && completed.value.kind == Directory && completed.value.id == t[path].stamp.id
  }

  /** The stamp recorded by the last change of the file's mode that recorded one. */
  ghost predicate RecordedAt(ops: seq<Operation>, metadata: map<u32, FileStamp>, path: Path, n: nat, recorded: Option<FileStamp>)
    requires n <= |ops| < 0x1_0000_0000
  {
    match recorded
    case None => forall i :: 0 <= i < n ==> !Records(ops, metadata, path, i)
    case Some(stamp) =>
      exists i: u32 :: i < n && Records(ops, metadata, path, i) && metadata[i] == stamp
                       && forall j :: i < j < n ==> !Records(ops, metadata, path, j)
  }

  predicate Records(ops: seq<Operation>, metadata: map<u32, FileStamp>, path: Path, i: nat)
    requires i < |ops| < 0x1_0000_0000
  {
    ops[i].SetFileMode? && ops[i].path == path && i in metadata
  }

  lemma {:induction false} StampForIsRecorded(ops: seq<Operation>, metadata: map<u32, FileStamp>, path: Path, n: nat)
    requires n <= |ops| < 0x1_0000_0000
    ensures RecordedAt(ops, metadata, path, n, StampFor(ops, metadata, path, n))
  {
    if n > 0 {
      if Records(ops, metadata, path, n - 1) {
        var i: u32 := n - 1;
        assert i < n && Records(ops, metadata, path, i);
      } else {
        StampForIsRecorded(ops, metadata, path, n - 1);
      }
    }
  }

  /** The tree shows everything the plan promised. */
  ghost predicate AsPlanned(t: Tree, p: PreparedPlan, metadata: map<u32, FileStamp>, completed: map<u32, Witness>)
    requires |p.operations| < 0x1_0000_0000
  {
    && (forall i :: 0 <= i < |p.operations| && p.operations[i].SetDirectoryMode? ==>
          ModeShown(t, p.operations[i].path, p.operations[i].afterMode, if i in completed then Some(completed[i]) else None))
    && (forall i, recorded ::
          0 <= i < |p.finalStates| && RecordedAt(p.operations, metadata, p.finalStates[i].0, |p.operations|, recorded) ==>
          FinalShown(t, p.finalStates[i].0, p.finalStates[i].1, recorded))
  }

  lemma RecordedOnce(ops: seq<Operation>, metadata: map<u32, FileStamp>, path: Path, n: nat,
                     x: Option<FileStamp>, y: Option<FileStamp>)
    requires n <= |ops| < 0x1_0000_0000
    requires RecordedAt(ops, metadata, path, n, x) && RecordedAt(ops, metadata, path, n, y)
    ensures x == y
  {
    if x.Some? && y.Some? {
      var i: u32 :| i < n && Records(ops, metadata, path, i) && metadata[i] == x.value
                    && forall j :: i < j < n ==> !Records(ops, metadata, path, j);
      var k: u32 :| k < n && Records(ops, metadata, path, k) && metadata[k] == y.value
                    && forall j :: k < j < n ==> !Records(ops, metadata, path, j);
      assert i == k;
    }
  }

  lemma FinalIsShown(t: Tree, f: (Path, State), recorded: Option<FileStamp>)
    ensures FinalVerified(t, f, recorded) <==> FinalShown(t, f.0, f.1, recorded)
  {
    if f.0 in t && f.1.Some? {
      MatchesIsShown(t[f.0], f.1.value);
    }
  }

  /** Verification succeeds exactly when the tree shows what was planned. */
  lemma VerifiedIsAsPlanned(t: Tree, p: PreparedPlan, metadata: map<u32, FileStamp>, completed: map<u32, Witness>)
    requires |p.operations| < 0x1_0000_0000
    ensures Verifies(t, p, metadata, completed) <==> AsPlanned(t, p, metadata, completed)
  {
    hide FinalVerified, FinalShown, RecordedAt, StampFor;
    forall i, recorded |
      0 <= i < |p.finalStates| && RecordedAt(p.operations, metadata, p.finalStates[i].0, |p.operations|, recorded)
      ensures recorded == StampFor(p.operations, metadata, p.finalStates[i].0, |p.operations|)
    {
      StampForIsRecorded(p.operations, metadata, p.finalStates[i].0, |p.operations|);
      RecordedOnce(p.operations, metadata, p.finalStates[i].0, |p.operations|,
                   recorded, StampFor(p.operations, metadata, p.finalStates[i].0, |p.operations|));
    }
    forall i | 0 <= i < |p.finalStates|
      ensures var f, recorded := p.finalStates[i], StampFor(p.operations, metadata, p.finalStates[i].0, |p.operations|);
              && RecordedAt(p.operations, metadata, f.0, |p.operations|, recorded)
              && (FinalVerified(t, f, recorded) <==> FinalShown(t, f.0, f.1, recorded))
    {
      StampForIsRecorded(p.operations, metadata, p.finalStates[i].0, |p.operations|);
      FinalIsShown(t, p.finalStates[i], StampFor(p.operations, metadata, p.finalStates[i].0, |p.operations|));
    }
  }

  /**
   With the commit marker durable recovery commits exactly when the tree shows what was planned
   and the store can still follow; otherwise it is a conflict, and nothing at all changes.
   */
  lemma MarkedOutcome(c: Config, hash: Hash, d: Disk, p: PreparedPlan, js: JournalState)
    requires d.workspace.Some? && d.workspace.value.marker
    requires ReadPlan(c, hash, d.workspace.value) == Ok(p)
    requires ReadLog(hash, c.maxJournalBytes, d.workspace.value.journal) == Ok(js)
    ensures |p.operations| < 0x1_0000_0000
    ensures RecoverDisk(c, hash, d)
            == if AsPlanned(d.tree, p, js.metadata, js.completed)
                  && (d.state.Some? ==> d.state.value in {Committing, RecoveryRequired, Committed})
               then (Disk(d.tree, if d.state.Some? then Some(Committed) else None, None), Finalized)
               else (d, Conflicted)
  {
    hide Decode, ReadLog, Verifies, AsPlanned;
    VerifiedIsAsPlanned(d.tree, p, js.metadata, js.completed);
  }

  /** One path that is not as planned is enough. */
  lemma DifferingIsConflict(c: Config, hash: Hash, d: Disk, p: PreparedPlan, js: JournalState, i: nat)
    requires d.workspace.Some? && d.workspace.value.marker
    requires ReadPlan(c, hash, d.workspace.value) == Ok(p) && i < |p.finalStates|
    requires ReadLog(hash, c.maxJournalBytes, d.workspace.value.journal) == Ok(js)
    requires forall k: u32 :: k in js.metadata && k < |p.operations| ==> p.operations[k].path != p.finalStates[i].0
    requires var (path, planned) := p.finalStates[i];
             if path in d.tree then planned.None? || !Shows(d.tree[path], planned.value) else planned.Some?
    ensures RecoverDisk(c, hash, d) == (d, Conflicted)
  {
    hide Decode, ReadLog;
    MarkedOutcome(c, hash, d, p, js);
    assert RecordedAt(p.operations, js.metadata, p.finalStates[i].0, |p.operations|, None);
    assert !FinalShown(d.tree, p.finalStates[i].0, p.finalStates[i].1, None);
  }
}
