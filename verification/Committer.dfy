/**
 The committer: stage, revalidate, pin, run every operation under the journal, clear the
 ownership markers, verify, mark, and settle the store; and recovery from wherever it stopped.
 */
module Committing {
  import opened Types
  import opened Engine
  import opened Rollback
  import opened Planning
  import opened Ordering
  import opened Correctness
  import opened OperationLog
  import opened PlanCodec
  import opened CrashRecovery
  import opened FinalVerification
  import opened Overlaying
  import Reentry

  /** The durable boundaries at which process loss can be injected. */
  datatype FaultPoint =
    | PlanSynced | StageSynced | Revalidated | CommitStatePersisted
    | IntentSynced(index: u32) | OperationApplied(index: u32) | DoneSynced(index: u32)
    | OwnershipMarkersCleared | Verified | CommitMarkerSynced | CommittedStatePersisted

  type Faults = FaultPoint -> bool

  datatype Conflict =
    | MetadataChanged(path: Path)
    | ContentChanged(path: Path)
    | DirectoryChanged(path: Path)

  datatype CommitError =
    | Injected(point: FaultPoint)
    | StagingFailed
    | RevalidationFailed
    | Unprepared
    | StaleDependencies(conflicts: seq<Conflict>)
    | StaleParents
    | ParentNotPinned
    | ParentMoved
    | OperationFailed(error: ApplyError)
    | MarkerLost
    | NotAsPlanned

  // ----------------------------------------------------------------- staging

  /** The blob store, by length; and what the host makes of a new link. */
  datatype Store = Store(blobs: map<Digest, u64>, linkMode: u32)

  /** Can the content of this operation be put on the stage? */
  predicate Stageable(s: Store, op: Operation) {
    IsInstall(op) ==>
      && op.after.content.Blob? && op.after.content.blob in s.blobs
      && s.blobs[op.after.content.blob] == op.after.size
      && (op.InstallSymlink? ==> op.after.mode == s.linkMode)
  }

  /** What is written to the stage has the length that the store has for the blob. */
  function StagedFile(s: Store, op: Operation, id: FileId): Node
    requires IsInstall(op) && op.after.content.Blob? && op.after.content.blob in s.blobs
  {
    var mode := if op.InstallFile? then op.after.mode else 0x1a4;
    Node(FileStamp(File, s.blobs[op.after.content.blob], mode, 0, Some(0), id), Bytes(op.after.content.blob))
  }

  function StagedLink(s: Store, op: Operation, id: FileId): Node
    requires op.InstallSymlink? && op.after.content.Blob? && op.after.content.blob in s.blobs
  {
    Node(FileStamp(Symlink, s.blobs[op.after.content.blob], s.linkMode, 0, Some(0), id), Bytes(op.after.content.blob))
  }

  /** Installs have the kind of their operation, and slots of their own. */
  ghost predicate StagingShape(ops: seq<Operation>) {
    && (forall i :: 0 <= i < |ops| && IsInstall(ops[i]) ==>
          ops[i].after.kind == if ops[i].InstallFile? then File else Symlink)
    && (forall i, j :: 0 <= i < j < |ops| && IsInstall(ops[i]) && IsInstall(ops[j]) ==> ops[i].slot != ops[j].slot)
  }

  lemma PlannedStagingShape(plan: CommitPlan, a: Attempt, base: Tree, final: Image)
    requires Planned(plan, a, base, final)
    ensures StagingShape(a.ops)
  {
    forall i | 0 <= i < |a.ops| && IsInstall(a.ops[i])
      ensures a.ops[i].after.kind == if a.ops[i].InstallFile? then File else Symlink
    {
      var e := ServedBy(plan, a, base, final, i);
    }
    forall i, j | 0 <= i < j < |a.ops| && IsInstall(a.ops[i]) && IsInstall(a.ops[j])
      ensures a.ops[i].slot != a.ops[j].slot
    {
      assert Precedes(a.ops[i], a.ops[j]);
    }
  }

  /** The identities that the host gives to staged files and links, by slot. */
  datatype Identities = Identities(files: nat -> FileId, links: nat -> FileId)

  /** The content of this operation is on the stage, as a node of its own. */
  ghost predicate StagedFor(op: Operation, staged: map<nat, Node>, links: map<nat, Node>, ids: Identities) {
    && (op.InstallFile? ==> op.slot in staged && NodeMatches(staged[op.slot], op.after) && staged[op.slot].stamp.id == ids.files(op.slot))
    && (op.InstallSymlink? ==> op.slot in links && NodeMatches(links[op.slot], op.after) && links[op.slot].stamp.id == ids.links(op.slot))
  }

  ghost predicate StagedUpTo(ops: seq<Operation>, n: nat, staged: map<nat, Node>, links: map<nat, Node>, ids: Identities)
    requires n <= |ops|
  {
    forall i :: 0 <= i < n ==> StagedFor(ops[i], staged, links, ids)
  }

  ghost predicate HoldsBytes(stage: map<nat, Node>) {
    forall s :: s in stage ==> stage[s].data.Bytes?
  }

  /** Put every replacement's content on the stage; links keep a file copy beside them. */
  method StageContent(s: Store, ops: seq<Operation>, ids: Identities)
    returns (ok: bool, staged: map<nat, Node>, links: map<nat, Node>)
    requires StagingShape(ops)
    ensures ok <==> forall i :: 0 <= i < |ops| ==> Stageable(s, ops[i])
    ensures ok ==> StagedUpTo(ops, |ops|, staged, links, ids) && HoldsBytes(staged) && HoldsBytes(links)
  {
    staged, links := map[], map[];
    for i := 0 to |ops|
      invariant forall j :: 0 <= j < i ==> Stageable(s, ops[j])
      invariant StagedUpTo(ops, i, staged, links, ids) && HoldsBytes(staged) && HoldsBytes(links)
    {
      var op := ops[i];
      if IsInstall(op) {
        if !Stageable(s, op) {
          return false, staged, links;
        }
        staged := staged[op.slot := StagedFile(s, op, ids.files(op.slot))];
        if op.InstallSymlink? {
          links := links[op.slot := StagedLink(s, op, ids.links(op.slot))];
        }
      }
    }
    ok := true;
  }

  // -------------------------------------------------------- fresh identities

  /** The identity operation i will add to the workspace, if any. */
  function HandedOut(a: Attempt, ids: Identities, i: nat): Option<FileId>
    requires a.Valid() && i < |a.ops|
  {
    match a.ops[i]
    case CreateDirectory(_, _) => Some(a.allocs[i].directory)
    case InstallFile(_, _, slot) => Some(ids.files(slot))
    case InstallSymlink(_, _, slot) => Some(ids.links(slot))
    case _ => None
  }

  /** A new node has an identity that no other node has. */
  ghost predicate Fresh(a: Attempt, t: Tree, ids: Identities)
    requires a.Valid()
  {
    && (forall q :: q in t ==> !Reentry.MarkedBy(t[q], a.transaction))
    && forall i :: 0 <= i < |a.ops| && HandedOut(a, ids, i).Some? ==> FreshAt(a, t, ids, i)
  }

  ghost predicate FreshAt(a: Attempt, t: Tree, ids: Identities, i: nat)
    requires a.Valid() && i < |a.ops| && HandedOut(a, ids, i).Some?
  {
    var id := HandedOut(a, ids, i).value;
    && (forall q :: q in t ==> t[q].stamp.id != id)
    && (forall j :: 0 <= j < |a.ops| ==> a.allocs[j].marker != id)
    && (forall j :: 0 <= j < |a.ops| && j != i ==> HandedOut(a, ids, j) != Some(id))
  }

  /** What the transaction adds and changes is its own. */
  lemma StagedIsPrivate(plan: CommitPlan, a: Attempt, snapshot: Tree, final: Image, h: Host, ids: Identities)
    requires Planned(plan, a, snapshot, final) && Fresh(a, h.tree, ids)
    requires StagedUpTo(a.ops, |a.ops|, h.staged, h.links, ids) && HoldsBytes(h.staged) && HoldsBytes(h.links)
    ensures Reentry.Private(a, h)
  {
    PlannedModesPrivate(plan, a, snapshot, final);
    forall i | 0 <= i < |a.ops|
      ensures Reentry.AddedId(a, h, i) == HandedOut(a, ids, i)
    {
      assert StagedFor(a.ops[i], h.staged, h.links, ids);
    }
    forall i | 0 <= i < |a.ops| && HandedOut(a, ids, i).Some?
      ensures FreshAt(a, h.tree, ids, i)
    {
    }
    assert Reentry.Unmarked(a, h);
  }

  // ------------------------------------------------------------ revalidation

  /** What the host answers when asked for a content or a listing digest; None is a host error. */
  datatype Observer = Observer(content: (Tree, Path) -> Option<Digest>, listing: (Tree, Path) -> Option<Digest>)

  /** The first aspect of an observation that no longer holds. */
  function ReadConflict(o: Observer, t: Tree, p: Path, seen: ReadObservation): Result<Option<Conflict>, ()> {
    if seen.metadata.Some? && !StateMatches(t, p, seen.metadata.value) then Ok(Some(MetadataChanged(p)))
    else if seen.content.Some? && o.content(t, p).None? then Err(())
    else if seen.content.Some? && o.content(t, p) != seen.content then Ok(Some(ContentChanged(p)))
    else if seen.directory.Some? && o.listing(t, p).None? then Err(())
    else if seen.directory.Some? && o.listing(t, p) != seen.directory then Ok(Some(DirectoryChanged(p)))
    else Ok(None)
  }

  function WriteConflict(t: Tree, p: Path, expected: Option<NodeState>): Option<Conflict> {
    if StateMatches(t, p, expected) then None else Some(MetadataChanged(p))
  }

  /** Does everything the execution observed still hold? */
  predicate ReadHolds(o: Observer, t: Tree, p: Path, seen: ReadObservation) {
    && (seen.metadata.Some? ==> StateMatches(t, p, seen.metadata.value))
    && (seen.content.Some? ==> o.content(t, p) == seen.content)
    && (seen.directory.Some? ==> o.listing(t, p) == seen.directory)
  }

  /** Absent if it was, and otherwise showing what was recorded. */
  predicate StillShows(t: Tree, p: Path, expected: Option<NodeState>) {
    if p in t then expected.Some? && Shows(t[p], expected.value) else expected.None?
  }

  /** Which aspect a conflict names: the first one that no longer holds, metadata before content before listing. */
  lemma ConflictsNameTheAspect(o: Observer, t: Tree, p: Path, seen: ReadObservation)
    ensures var found := ReadConflict(o, t, p, seen);
            var sameMetadata := seen.metadata.Some? ==> StillShows(t, p, seen.metadata.value);
            var sameContent := seen.content.Some? ==> o.content(t, p) == seen.content;
            && (found == Ok(Some(MetadataChanged(p))) <==> !sameMetadata)
            && (found == Ok(Some(ContentChanged(p))) <==> sameMetadata && !sameContent && o.content(t, p).Some?)
            && (found == Ok(Some(DirectoryChanged(p))) <==>
                  && sameMetadata && sameContent
                  && seen.directory.Some? && o.listing(t, p).Some? && o.listing(t, p) != seen.directory)
            && (found.Err? <==>
                  && sameMetadata
                  && if seen.content.Some? && o.content(t, p).None? then true
                     else sameContent && seen.directory.Some? && o.listing(t, p).None?)
            && (found == Ok(None) <==> ReadHolds(o, t, p, seen))
    ensures forall expected :: WriteConflict(t, p, expected) == if StillShows(t, p, expected) then None else Some(MetadataChanged(p))
  {
    forall expected: Option<NodeState>
      ensures StateMatches(t, p, expected) <==> StillShows(t, p, expected)
    {
      if p in t && expected.Some? {
        MatchesIsShown(t[p], expected.value);
      }
    }
  }

  /** The keys of a dependency map, each once, in path order. */
  ghost predicate Lists<V>(order: seq<Path>, m: map<Path, V>) {
    && (forall i, j :: 0 <= i < j < |order| ==> order[i] != order[j])
    && (forall p :: p in order <==> p in m)
  }

  function ReadConflicts(o: Observer, t: Tree, plan: CommitPlan, observed: seq<Path>): seq<Conflict>
    requires forall p :: p in observed ==> p in plan.readSet
  {
    if observed == [] then []
    else
      var init, last := observed[..|observed| - 1], observed[|observed| - 1];
      ReadConflicts(o, t, plan, init)
      + match ReadConflict(o, t, last, plan.readSet[last])
        case Ok(Some(c)) => [c]
        case _ => []
  }

  function WriteConflicts(t: Tree, plan: CommitPlan, written: seq<Path>): seq<Conflict>
    requires forall p :: p in written ==> p in plan.writeSet
  {
    if written == [] then []
    else
      var init, last := written[..|written| - 1], written[|written| - 1];
      WriteConflicts(t, plan, init)
      + match WriteConflict(t, last, plan.writeSet[last])
        case Some(c) => [c]
        case None => []
  }

  ghost predicate ReadsTrue(o: Observer, t: Tree, plan: CommitPlan, observed: seq<Path>)
    requires forall p :: p in observed ==> p in plan.readSet
  {
    forall i :: 0 <= i < |observed| ==> ReadHolds(o, t, observed[i], plan.readSet[observed[i]])
  }

  ghost predicate WritesTrue(t: Tree, plan: CommitPlan, written: seq<Path>)
    requires forall p :: p in written ==> p in plan.writeSet
  {
    forall i :: 0 <= i < |written| ==> StateMatches(t, written[i], plan.writeSet[written[i]])
  }

  /** The live tree is still what the execution saw of it. */
  ghost predicate Current(o: Observer, t: Tree, plan: CommitPlan, observed: seq<Path>, written: seq<Path>)
    requires (forall p :: p in observed ==> p in plan.readSet) && (forall p :: p in written ==> p in plan.writeSet)
  {
    ReadsTrue(o, t, plan, observed) && WritesTrue(t, plan, written)
  }

  lemma CurrentIsStillTrue(o: Observer, t: Tree, plan: CommitPlan, observed: seq<Path>, written: seq<Path>)
    requires Lists(observed, plan.readSet) && Lists(written, plan.writeSet) && Current(o, t, plan, observed, written)
    ensures StillTrue(plan, t)
  {
    forall p | p in plan.readSet && plan.readSet[p].metadata.Some?
      ensures StateMatches(t, p, plan.readSet[p].metadata.value)
    {
      var i :| 0 <= i < |observed| && observed[i] == p;
      assert ReadHolds(o, t, observed[i], plan.readSet[observed[i]]);
    }
    forall p | p in plan.writeSet
      ensures StateMatches(t, p, plan.writeSet[p])
    {
      var i :| 0 <= i < |written| && written[i] == p;
    }
  }

  /** No host error among these observations. */
  ghost predicate Readable(o: Observer, t: Tree, plan: CommitPlan, observed: seq<Path>)
    requires forall p :: p in observed ==> p in plan.readSet
  {
    forall i :: 0 <= i < |observed| ==> ReadConflict(o, t, observed[i], plan.readSet[observed[i]]).Ok?
  }

  lemma {:induction false} NoReadConflicts(o: Observer, t: Tree, plan: CommitPlan, observed: seq<Path>)
    requires (forall p :: p in observed ==> p in plan.readSet) && Readable(o, t, plan, observed)
    ensures ReadConflicts(o, t, plan, observed) == [] <==> ReadsTrue(o, t, plan, observed)
  {
    hide ReadConflict, ReadHolds;
    if observed != [] {
      var init, last := observed[..|observed| - 1], observed[|observed| - 1];
      assert observed == init + [last];
      NoReadConflicts(o, t, plan, init);
      QuietIsTrue(o, t, last, plan.readSet[last]);
      assert ReadConflict(o, t, last, plan.readSet[last]).Ok?;
    }
  }

  lemma QuietIsTrue(o: Observer, t: Tree, p: Path, seen: ReadObservation)
    ensures ReadConflict(o, t, p, seen) == Ok(None) <==> ReadHolds(o, t, p, seen)
  {
  }

  lemma {:induction false} NoWriteConflicts(t: Tree, plan: CommitPlan, written: seq<Path>)
    requires forall p :: p in written ==> p in plan.writeSet
    ensures WriteConflicts(t, plan, written) == [] <==> WritesTrue(t, plan, written)
  {
    if written != [] {
      var init, last := written[..|written| - 1], written[|written| - 1];
      assert written == init + [last];
      NoWriteConflicts(t, plan, init);
    }
  }

  /** The first `maximum` conflicts, reads before writes. */
  function FirstConflicts(o: Observer, t: Tree, plan: CommitPlan, observed: seq<Path>, written: seq<Path>, maximum: nat): seq<Conflict>
    requires (forall p :: p in observed ==> p in plan.readSet) && (forall p :: p in written ==> p in plan.writeSet)
  {
    var all := ReadConflicts(o, t, plan, observed) + WriteConflicts(t, plan, written);
    if |all| <= maximum then all else all[..maximum]
  }

  /**
   Revalidation finds something iff something changed. A bound of zero breaks this: the loop
   then ends after the first observation, whatever it found.
   */
  lemma RevalidationIsExact(o: Observer, t: Tree, plan: CommitPlan, observed: seq<Path>, written: seq<Path>, maximum: nat)
    requires (forall p :: p in observed ==> p in plan.readSet) && (forall p :: p in written ==> p in plan.writeSet)
    requires Readable(o, t, plan, observed) && maximum > 0
    ensures var found := FirstConflicts(o, t, plan, observed, written, maximum);
            && |found| <= maximum
            && (found == [] <==> ReadsTrue(o, t, plan, observed) && WritesTrue(t, plan, written))
  {
    NoReadConflicts(o, t, plan, observed);
    NoWriteConflicts(t, plan, written);
  }

  lemma ReadPrefix(o: Observer, t: Tree, plan: CommitPlan, observed: seq<Path>, k: nat)
    requires k < |observed| && forall p :: p in observed ==> p in plan.readSet
    ensures ReadConflicts(o, t, plan, observed[..k + 1]) ==
            ReadConflicts(o, t, plan, observed[..k])
            + match ReadConflict(o, t, observed[k], plan.readSet[observed[k]])
              case Ok(Some(c)) => [c]
              case _ => []
  {
    assert observed[..k + 1][..k] == observed[..k];
  }

  lemma WritePrefix(t: Tree, plan: CommitPlan, written: seq<Path>, k: nat)
    requires k < |written| && forall p :: p in written ==> p in plan.writeSet
    ensures WriteConflicts(t, plan, written[..k + 1]) ==
            WriteConflicts(t, plan, written[..k])
            + match WriteConflict(t, written[k], plan.writeSet[written[k]])
              case Some(c) => [c]
              case None => []
  {
    assert written[..k + 1][..k] == written[..k];
  }

  lemma {:induction false} ReadConflictsExtend(o: Observer, t: Tree, plan: CommitPlan, observed: seq<Path>, k: nat)
    requires k <= |observed| && forall p :: p in observed ==> p in plan.readSet
    ensures ReadConflicts(o, t, plan, observed[..k]) <= ReadConflicts(o, t, plan, observed)
    decreases |observed|
  {
    if k < |observed| {
      assert observed[..|observed| - 1][..k] == observed[..k];
      ReadConflictsExtend(o, t, plan, observed[..|observed| - 1], k);
    } else {
      assert observed[..k] == observed;
    }
  }

  lemma {:induction false} WriteConflictsExtend(t: Tree, plan: CommitPlan, written: seq<Path>, k: nat)
    requires k <= |written| && forall p :: p in written ==> p in plan.writeSet
    ensures WriteConflicts(t, plan, written[..k]) <= WriteConflicts(t, plan, written)
    decreases |written|
  {
    if k < |written| {
      assert written[..|written| - 1][..k] == written[..k];
      WriteConflictsExtend(t, plan, written[..|written| - 1], k);
    } else {
      assert written[..k] == written;
    }
  }

  /** Check the observations in order; `full` when the conflict bound was reached. */
  method RevalidateReads(maximum: nat, o: Observer, t: Tree, plan: CommitPlan, observed: seq<Path>)
    returns (r: Result<seq<Conflict>, ()>, full: bool)
    requires forall p :: p in observed ==> p in plan.readSet
    ensures Readable(o, t, plan, observed) ==> r.Ok?
    ensures r.Ok? && !full ==>
              && r.value == ReadConflicts(o, t, plan, observed) && Readable(o, t, plan, observed)
              && (observed != [] ==> |r.value| < maximum)
    ensures r.Ok? && full ==> r.value <= ReadConflicts(o, t, plan, observed) && |r.value| >= maximum
    ensures r.Ok? && full && maximum > 0 ==> |r.value| == maximum
    ensures maximum == 0 && observed != [] && r.Ok? ==> full && r.value == ReadConflicts(o, t, plan, observed[..1])
  {
    var conflicts: seq<Conflict> := [];
    for i := 0 to |observed|
      invariant conflicts == ReadConflicts(o, t, plan, observed[..i])
      invariant i > 0 ==> |conflicts| < maximum
      invariant forall j :: 0 <= j < i ==> ReadConflict(o, t, observed[j], plan.readSet[observed[j]]).Ok?
    {
      ReadPrefix(o, t, plan, observed, i);
      ReadConflictsExtend(o, t, plan, observed, i + 1);
      var conflict := ReadConflict(o, t, observed[i], plan.readSet[observed[i]]);
      if conflict.Err? {
        return Err(()), false;
      }
      if conflict.value.Some? {
        conflicts := conflicts + [conflict.value.value];
      }
      if |conflicts| >= maximum {
        return Ok(conflicts), true;
      }
    }
    assert observed[..|observed|] == observed;
    return Ok(conflicts), false;
  }

  method RevalidateWrites(maximum: nat, t: Tree, plan: CommitPlan, written: seq<Path>, found: seq<Conflict>)
    returns (conflicts: seq<Conflict>)
    requires forall p :: p in written ==> p in plan.writeSet
    requires maximum > 0 ==> |found| < maximum
    ensures maximum > 0 ==>
              var all := found + WriteConflicts(t, plan, written);
              conflicts == if |all| <= maximum then all else all[..maximum]
  {
    conflicts := found;
    for i := 0 to |written|
      invariant conflicts == found + WriteConflicts(t, plan, written[..i])
      invariant maximum > 0 ==> |conflicts| < maximum
    {
      WritePrefix(t, plan, written, i);
      WriteConflictsExtend(t, plan, written, i + 1);
      var conflict := WriteConflict(t, written[i], plan.writeSet[written[i]]);
      if conflict.Some? {
        conflicts := conflicts + [conflict.value];
        if |conflicts| >= maximum {
          return;
        }
      }
    }
    assert written[..|written|] == written;
  }

  method Revalidate(c: Config, o: Observer, t: Tree, plan: CommitPlan, observed: seq<Path>, written: seq<Path>)
    returns (r: Result<seq<Conflict>, ()>)
    requires (forall p :: p in observed ==> p in plan.readSet) && (forall p :: p in written ==> p in plan.writeSet)
    ensures |observed| + |written| > c.maxDependencies ==> r.Err?
    ensures |observed| + |written| <= c.maxDependencies && Readable(o, t, plan, observed) ==> r.Ok?
    ensures r.Ok? && c.maxConflicts > 0 ==> r.value == FirstConflicts(o, t, plan, observed, written, c.maxConflicts)
    ensures r.Ok? && c.maxConflicts > 0 && r.value == [] ==> Readable(o, t, plan, observed)
    ensures r.Ok? && c.maxConflicts == 0 && observed != [] ==> r.value == ReadConflicts(o, t, plan, observed[..1])
  {
    if |observed| + |written| > c.maxDependencies {
      return Err(());
    }
    var first, full := RevalidateReads(c.maxConflicts, o, t, plan, observed);
    if first.Err? || full {
      return first;
    }
    var conflicts := RevalidateWrites(c.maxConflicts, t, plan, written, first.value);
    return Ok(conflicts);
  }

  // ------------------------------------------------------------ pinned parents

  /** The pinned directory is still the one the path names. */
  predicate PinHolds(t: Tree, pinned: map<Path, FileId>, d: Path) {
    d in pinned && IsDir(t, d) && t[d].stamp.id == pinned[d]
  }

  /** The parent's recorded metadata: None when it was never recorded. */
  function ParentSeen(plan: CommitPlan, op: Operation): Option<Option<NodeState>>
    requires op.path != []
  {
    var d := Parent(op.path);
    if d in plan.readSet then plan.readSet[d].metadata else None
  }

  /** A parent that was there must be a directory and exactly as it was recorded. */
  predicate ParentAsSeen(t: Tree, plan: CommitPlan, op: Operation)
    requires op.path != []
  {
    ParentSeen(plan, op).Some? && ParentSeen(plan, op).value.Some? ==>
      IsDir(t, Parent(op.path)) && FromStamp(t[Parent(op.path)].stamp) == ParentSeen(plan, op).value.value
  }

  /** Every parent that was there is pinned, and pinned as itself. */
  ghost predicate AllPinned(t: Tree, plan: CommitPlan, ops: seq<Operation>, pinned: map<Path, FileId>, n: nat)
    requires n <= |ops| && forall i :: 0 <= i < |ops| ==> ops[i].path != []
  {
    && (forall i :: 0 <= i < n && ParentSeen(plan, ops[i]).Some? && ParentSeen(plan, ops[i]).value.Some? ==>
          PinHolds(t, pinned, Parent(ops[i].path)))
    && (forall d :: d in pinned ==> PinHolds(t, pinned, d))
  }

  /** The directory is there, with the very stamp that was recorded. */
  predicate Unchanged(t: Tree, d: Path, seen: NodeState) {
    && d in t && t[d].stamp.kind == Directory && seen.content.Stamp? && HasStamp(t[d], seen.content.stamp)
    && seen.kind == Directory && seen.size == t[d].stamp.size && seen.mode == t[d].stamp.mode
  }

  lemma SeenIsUnchanged(t: Tree, plan: CommitPlan, op: Operation)
    requires op.path != []
    ensures ParentAsSeen(t, plan, op) <==>
            var d := Parent(op.path);
            d in plan.readSet && plan.readSet[d].metadata.Some? && plan.readSet[d].metadata.value.Some? ==>
              Unchanged(t, d, plan.readSet[d].metadata.value.value)
  {
  }

  method PinParents(t: Tree, plan: CommitPlan, ops: seq<Operation>) returns (ok: bool, pinned: map<Path, FileId>)
    requires forall i :: 0 <= i < |ops| ==> ops[i].path != []
    ensures ok <==> forall i :: 0 <= i < |ops| ==> ParentAsSeen(t, plan, ops[i])
    ensures ok ==> AllPinned(t, plan, ops, pinned, |ops|)
  {
    pinned := map[];
    for i := 0 to |ops|
      invariant forall j :: 0 <= j < i ==> ParentAsSeen(t, plan, ops[j])
      invariant AllPinned(t, plan, ops, pinned, i)
    {
      if !ParentAsSeen(t, plan, ops[i]) {
        return false, pinned;
      }
      if ParentSeen(plan, ops[i]).Some? && ParentSeen(plan, ops[i]).value.Some? {
        var d := Parent(ops[i].path);
        pinned := pinned[d := t[d].stamp.id];
      }
    }
    ok := true;
  }

  /** Pins during the run: those taken before it, and the directories it created since. */
  ghost predicate PinnedSince(a: Attempt, pinned: map<Path, FileId>, now: map<Path, FileId>, k: nat)
    requires a.Valid() && k <= |a.ops|
  {
    && (forall i :: 0 <= i < k && a.ops[i].CreateDirectory? ==>
          a.ops[i].path in now && now[a.ops[i].path] == a.allocs[i].directory)
    && (forall d :: d in pinned ==>
          d in now && (now[d] == pinned[d] || exists i :: 0 <= i < k && a.ops[i].CreateDirectory? && a.ops[i].path == d))
  }

  /** What was observed of the parents is true of the base: present or absent. */
  ghost predicate ParentsObserved(t: Tree, plan: CommitPlan, ops: seq<Operation>)
    requires forall i :: 0 <= i < |ops| ==> ops[i].path != []
  {
    forall i :: 0 <= i < |ops| ==>
      ParentSeen(plan, ops[i]).Some? && (ParentSeen(plan, ops[i]).value.Some? <==> Parent(ops[i].path) in t)
  }

  /** Admission made sure that every parent was observed. */
  lemma ParentsStillObserved(plan: CommitPlan, a: Attempt, t: Tree, final: Image)
    requires Planned(plan, a, t, final) && StillTrue(plan, t)
    ensures ParentsObserved(t, plan, a.ops)
  {
    forall i | 0 <= i < |a.ops|
      ensures ParentSeen(plan, a.ops[i]).Some? && (ParentSeen(plan, a.ops[i]).value.Some? <==> Parent(a.ops[i].path) in t)
    {
      var e := ServedBy(plan, a, t, final, i);
      assert StateMatches(t, Parent(e.path), plan.readSet[Parent(e.path)].metadata.value);
    }
  }

  /** When its turn comes, the parent of every operation is pinned and still in place. */
  lemma ParentPinned(plan: CommitPlan, a: Attempt, hosts: seq<Host>, final: Image, pinned: map<Path, FileId>, now: map<Path, FileId>)
    requires Executes(a, hosts) && |hosts| <= |a.ops| && Scenario(plan, a, hosts[0], final)
    requires ParentsObserved(hosts[0].tree, plan, a.ops) && AllPinned(hosts[0].tree, plan, a.ops, pinned, |a.ops|)
    requires PinnedSince(a, pinned, now, |hosts| - 1)
    ensures PinHolds(hosts[|hosts| - 1].tree, now, Parent(a.ops[|hosts| - 1].path))
  {
    var k, h := |hosts| - 1, hosts[0];
    var d := Parent(a.ops[k].path);
    var i := ParentClass(plan, a, h, final, k);
    FateOf(a, hosts, k, d);
    if Survives(plan, h.tree, final, d) && IsDir(h.tree, d) {
      SurvivorFate(plan, a, h, final, d, k);
      forall j | 0 <= j < k && a.ops[j].CreateDirectory?
        ensures a.ops[j].path != d
      {
        AddedWasLost(plan, a, h, final, j);
      }
    } else {
      AddedFate(a, h, i, k, d);
    }
  }

  // ------------------------------------------------------- clearing markers

  /** Markers of the directories created by operation k and later. */
  ghost function MarkersFrom(ops: seq<Operation>, k: nat): set<Path>
    requires k <= |ops|
  {
    set i | k <= i < |ops| && ops[i].CreateDirectory? :: MarkerOf(ops[i].path)
  }

  /** The marker is where the operation left it, in the directory it created. */
  predicate MarkerReady(a: Attempt, k: nat, t: Tree, pinned: map<Path, FileId>, owner: Option<Witness>)
    requires a.Valid() && k < |a.ops| && a.ops[k].CreateDirectory?
  {
    && PinHolds(t, pinned, a.ops[k].path)
    && owner == Some(WitnessOf(t[a.ops[k].path].stamp))
    && MarkerPresent(a.transaction, k, t, a.ops[k].path)
    && OwnerWrite(t[a.ops[k].path].stamp.mode)
  }

  lemma MarkerStillThere(plan: CommitPlan, a: Attempt, hosts: seq<Host>, final: Image, k: nat, t: Tree,
                         pinned: map<Path, FileId>, completed: map<u32, Witness>)
    requires Executes(a, hosts) && |hosts| == |a.ops| + 1 && Scenario(plan, a, hosts[0], final)
    requires NoMarkerClash(plan, final) && k < |a.ops| && a.ops[k].CreateDirectory?
    requires t == hosts[|a.ops|].tree - MarkersFrom(a.ops, k + 1)
    requires PinnedSince(a, map[], pinned, |a.ops|)
    requires k in completed && Step(a, k, hosts[k]).Done? && completed[k] == Step(a, k, hosts[k]).owner
    ensures MarkerReady(a, k, t, pinned, Lookup(completed, k))
  {
    var p, m, n := a.ops[k].path, MarkerOf(a.ops[k].path), |a.ops|;
    AddedFate(a, hosts[0], k, n, p);
    forall j | k < j < n
      ensures a.ops[j].path != m
    {
      NoClash(plan, a, hosts[0].tree, final, j);
    }
    AddedFate(a, hosts[0], k, n, m);
    FateOf(a, hosts, n, p);
    FateOf(a, hosts, n, m);
    assert p != m by {
      assert |m| == |p| + 1;
    }
    PlannedIsShaped(plan, a, hosts[0].tree, final);
    forall j | k < j < n && a.ops[j].CreateDirectory?
      ensures MarkerOf(a.ops[j].path) != p && MarkerOf(a.ops[j].path) != m
    {
      assert Precedes(a.ops[k], a.ops[j]);
      assert Parent(MarkerOf(a.ops[j].path)) == a.ops[j].path && Parent(m) == p;
      assert a.ops[k].path != MarkerOf(a.ops[j].path);
    }
    assert Ran(a, hosts, k);
    CreatedWritable(plan, a, hosts[0], final, k);
  }

  lemma MarkersFromAll(ops: seq<Operation>)
    ensures MarkersFrom(ops, 0) == Markers(ops, |ops|)
    ensures MarkersFrom(ops, |ops|) == {}
  {
  }

  lemma MarkersFromStep(ops: seq<Operation>, k: nat)
    requires k < |ops|
    ensures MarkersFrom(ops, k) == MarkersFrom(ops, k + 1) + (if ops[k].CreateDirectory? then {MarkerOf(ops[k].path)} else {})
    ensures MarkersFrom(ops, k) <= Markers(ops, |ops|)
  {
  }
}
