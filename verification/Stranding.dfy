/**
 Where crash atomicity ends. A plan may put an entry where the engine keeps the ownership marker
 of a directory it creates, and a conflict bound of zero lets a changed tree through. Either way
 an operation can fail in a shape that recovery cannot tell from someone else's work.
 */
module Stranding {
  import opened Types
  import opened Engine
  import opened Rollback
  import opened Planning
  import opened Ordering
  import opened Correctness
  import opened OperationLog
  import opened PlanCodec
  import opened CrashRecovery
  import opened Committing
  import Reentry

  // ------------------------------------------------ the records of any run

  /** The records of the first n operations of an execution, all complete. */
  ghost function CompleteRecords(a: Attempt, hosts: seq<Host>, n: nat): (rs: seq<Record>)
    requires Executes(a, hosts) && n < |hosts|
    ensures |rs| == 2 * n
  {
    if n == 0 then []
    else
      assert Ran(a, hosts, n - 1);
      CompleteRecords(a, hosts, n - 1) + [IntentOf(a, hosts, n - 1), CompletionOf(Step(a, n - 1, hosts[n - 1]), n - 1)]
  }

  /** The intent of an operation that finds its parent and its source. */
  ghost function IntentOf(a: Attempt, hosts: seq<Host>, i: u32): Record
    requires a.Valid() && i < |a.ops| && i < |hosts| && Begins(a.ops[i], hosts[i])
  {
    Intent(i, SourceWitness(a.ops[i], hosts[i]).value, WitnessOf(hosts[i].tree[Parent(a.ops[i].path)].stamp))
  }

  predicate Begins(op: Operation, h: Host)
    requires op.path != []
  {
    IsDir(h.tree, Parent(op.path)) && SourceWitness(op, h).Some?
  }

  lemma {:induction false} CompleteIsRecorded(a: Attempt, hosts: seq<Host>, n: nat)
    requires Executes(a, hosts) && n < |hosts|
    ensures Recorded(a, hosts, CompleteRecords(a, hosts, n))
  {
    if n > 0 {
      CompleteIsRecorded(a, hosts, n - 1);
      var init, rs := CompleteRecords(a, hosts, n - 1), CompleteRecords(a, hosts, n);
      assert Ran(a, hosts, n - 1);
      forall k | 0 <= k < |rs|
        ensures RecordTrue(a, hosts, rs, k)
      {
        if k < |init| {
          assert RecordTrue(a, hosts, init, k);
        }
      }
    }
  }

  /** The disk when the operation after an execution began and did not run. */
  ghost function BegunDisk(hash: Hash, a: Attempt, encoded: seq<byte>, hosts: seq<Host>): Disk
    requires Executes(a, hosts) && |hosts| <= |a.ops| && Begins(a.ops[|hosts| - 1], hosts[|hosts| - 1])
  {
    var k := |hosts| - 1;
    var h, rs := hosts[k], CompleteRecords(a, hosts, k) + [IntentOf(a, hosts, k)];
    Disk(h.tree, Some(Committing),
         Some(Workspace(encoded, Log(hash, SetsFileMode(a.ops), rs), h.staged, h.links, h.quarantine, false)))
  }

  /** What recovery will infer about the operation that began. */
  ghost function Verdict(a: Attempt, hosts: seq<Host>): Inferred
    requires a.Valid() && 1 <= |hosts| <= |a.ops| && Begins(a.ops[|hosts| - 1], hosts[|hosts| - 1])
  {
    var k := |hosts| - 1;
    var op, h := a.ops[k], hosts[k];
    InferApplied(a.transaction, k, op,
                 Witnesses(None, SourceWitness(op, h).value, Some(WitnessOf(h.tree[Parent(op.path)].stamp)), None), h)
  }

  /** Nobody's work: recovery can neither reverse it nor pass over it. */
  ghost predicate Hopeless(a: Attempt, hosts: seq<Host>) {
    match NextVerdict(a, hosts)
    case Some(Ambiguous) => true
    case _ => false
  }

  ghost function NextVerdict(a: Attempt, hosts: seq<Host>): Option<Inferred> {
    if a.Valid() && 1 <= |hosts| <= |a.ops| && Begins(a.ops[|hosts| - 1], hosts[|hosts| - 1]) then Some(Verdict(a, hosts)) else None
  }

  /** Recovery reports a conflict and keeps everything, now and whenever it is asked again. */
  ghost predicate Stranded(c: Config, hash: Hash, d: Disk) {
    && d.workspace.Some?
    && forall s :: s in {Committing, RecoveryRequired} ==> StrandedAs(c, hash, d, s)
  }

  predicate StrandedAs(c: Config, hash: Hash, d: Disk, s: TransactionState) {
    RecoverDisk(c, hash, d.(state := Some(s))) == (d.(state := Some(RecoveryRequired)), Conflicted)
  }

  /** Begun and not run, it leaves a conflict to recovery, which takes nothing back of what ran before. */
  ghost predicate Strands(c: Config, hash: Hash, a: Attempt, encoded: seq<byte>, hosts: seq<Host>) {
    && Executes(a, hosts) && |hosts| <= |a.ops| && Begins(a.ops[|hosts| - 1], hosts[|hosts| - 1])
    && Stranded(c, hash, BegunDisk(hash, a, encoded, hosts))
  }

  lemma HopelessBegins(a: Attempt, hosts: seq<Host>)
    requires Hopeless(a, hosts)
    ensures a.Valid() && 1 <= |hosts| <= |a.ops| && Begins(a.ops[|hosts| - 1], hosts[|hosts| - 1])
  {
  }

  /** A disk with such an intent as the last of its records. */
  lemma HopelessIsStranded(c: Config, hash: Hash, a: Attempt, p: PreparedPlan, hosts: seq<Host>, d: Disk, rs: seq<Record>)
    requires d.workspace.Some? && |d.workspace.value.journal| <= c.maxJournalBytes && PlanHeld(c, hash, a, p, d.workspace.value.plan) && !d.workspace.value.marker
    requires Executes(a, hosts) && Hopeless(a, hosts) && HostOf(d.tree, d.workspace.value) == hosts[|hosts| - 1]
    requires Holds(hash, a, hosts, d.workspace.value.journal, rs) && |rs| == 2 * |hosts| - 1
    ensures Stranded(c, hash, d)
  {
    hide Decode, ReadLog, StepsTo, Recorded, Log, RollbackAll, Holds;
    var js := HeldReadsBack(c, hash, a, hosts, d.workspace.value.journal, rs);
    RecordedIsJournaled(a, hosts, rs, js);
    var w, h := d.workspace.value, hosts[|hosts| - 1];
    assert Keep(w, h) == w;
    StuckAtIntent(a, p, js, hosts);
  }

  lemma RefusedIsStranded(c: Config, hash: Hash, a: Attempt, p: PreparedPlan, encoded: seq<byte>, hosts: seq<Host>)
    requires Roomy(c, a) && PlanHeld(c, hash, a, p, encoded) && Executes(a, hosts) && Hopeless(a, hosts)
    ensures Strands(c, hash, a, encoded, hosts)
  {
    hide Decode, StepsTo, Recorded, Log, Stranded;
    var k := |hosts| - 1;
    var init := CompleteRecords(a, hosts, k);
    CompleteIsRecorded(a, hosts, k);
    RecordedIntent(a, hosts, init, IntentOf(a, hosts, k));
    HoldsWhole(hash, a, hosts, init + [IntentOf(a, hosts, k)]);
    HeldFits(hash, a, hosts, BegunDisk(hash, a, encoded, hosts).workspace.value.journal, init + [IntentOf(a, hosts, k)]);
    HopelessIsStranded(c, hash, a, p, hosts, BegunDisk(hash, a, encoded, hosts), init + [IntentOf(a, hosts, k)]);
  }

  lemma StuckAtIntent(a: Attempt, p: PreparedPlan, js: JournalState, hosts: seq<Host>)
    requires Executes(a, hosts) && |hosts| <= |a.ops| && Begins(a.ops[|hosts| - 1], hosts[|hosts| - 1]) && Verdict(a, hosts) == Ambiguous
    requires a.transaction == p.transaction && a.ops == p.operations && Journaled(a, hosts, js, |hosts| - 1, |hosts|)
    ensures Reversal(p).Valid() && RollbackAll(Reversal(p), js, |p.operations|, hosts[|hosts| - 1]) == Stuck(hosts[|hosts| - 1])
  {
    var k := |hosts| - 1;
    assert IntentFaithful(a, hosts, js, k);
    assert RollbackOne(a, js, k, hosts[k]) == Stuck(hosts[k]);
    SkipUnintended(a, js, k + 1, |a.ops|, hosts[k]);
    AllocsIrrelevant(a, Reversal(p), js, |a.ops|, hosts[k]);
  }

  // --------------------------------------------------------- marker clashes

  /** The marker is in place when the operation that is to put an entry there takes its turn. */
  lemma MarkerInTheWay(plan: CommitPlan, a: Attempt, hosts: seq<Host>, final: Image, k: nat) returns (j: nat)
    requires Executes(a, hosts) && |hosts| == k + 1 <= |a.ops| && Scenario(plan, a, hosts[0], final) && Clashes(a.ops, k)
    ensures j < k && a.ops[j].CreateDirectory? && MarkerOf(a.ops[j].path) == a.ops[k].path
    ensures a.ops[k].path in hosts[k].tree && hosts[k].tree[a.ops[k].path] == NewMarker(a.transaction, j, a.allocs[j])
    ensures IsDir(hosts[k].tree, a.ops[j].path) && OwnerWrite(hosts[k].tree[a.ops[j].path].stamp.mode)
    ensures !IsDir(hosts[0].tree, a.ops[j].path)
  {
    j :| 0 <= j < k && a.ops[j].CreateDirectory? && MarkerOf(a.ops[j].path) == a.ops[k].path;
    var d, m := a.ops[j].path, a.ops[k].path;
    forall i | j < i < k
      ensures a.ops[i].path != m
    {
      assert Precedes(a.ops[i], a.ops[k]) && Precedes(a.ops[j], a.ops[i]);
    }
    AddedFate(a, hosts[0], j, k, m);
    AddedFate(a, hosts[0], j, k, d);
    FateOf(a, hosts, k, m);
    FateOf(a, hosts, k, d);
    assert |m| == |d| + 1;
    CreatedWritable(plan, a, hosts[0], final, j);
    var e := ServedBy(plan, a, hosts[0].tree, final, j);
  }

  /** A directory or a file in the marker's place then fails and changes nothing. */
  lemma ClashFails(plan: CommitPlan, a: Attempt, hosts: seq<Host>, final: Image, k: nat)
    requires Executes(a, hosts) && |hosts| == k + 1 <= |a.ops| && Scenario(plan, a, hosts[0], final)
    requires Clashes(a.ops, k) && !a.ops[k].InstallSymlink? && Reentry.FreshIds(a, hosts[0])
    ensures Hopeless(a, hosts) && Step(a, k, hosts[k]) == Applied.Failed(hosts[k], HostIo)
  {
    var j := MarkerInTheWay(plan, a, hosts, final, k);
    assert Parent(MarkerOf(a.ops[j].path)) == a.ops[j].path;
    assert Precedes(a.ops[j], a.ops[k]);
    StagedConstant(a, hosts, k);
    var e := ServedBy(plan, a, hosts[0].tree, final, k);
    if a.ops[k].InstallFile? && a.ops[k].slot in hosts[0].staged {
      assert Reentry.AddedId(a, hosts[0], k).value != a.allocs[j].marker;
    }
    OccupiedFails(a, hosts, k);
  }

  lemma OccupiedFails(a: Attempt, hosts: seq<Host>, k: nat)
    requires a.Valid() && |hosts| == k + 1 <= |a.ops|
    requires a.ops[k].CreateDirectory? || a.ops[k].InstallFile?
    requires var op, h := a.ops[k], hosts[k];
             && op.path in h.tree && h.tree[op.path].stamp.kind == File
             && IsDir(h.tree, Parent(op.path)) && OwnerWrite(h.tree[Parent(op.path)].stamp.mode)
             && (op.InstallFile? && op.slot in h.staged ==> h.staged[op.slot].stamp.id != h.tree[op.path].stamp.id)
    ensures Hopeless(a, hosts) && Step(a, k, hosts[k]) == Applied.Failed(hosts[k], HostIo)
  {
  }

  /** Whatever is to be put in the marker's place: once it began, and as long as it did not run, it looks like nobody's work. */
  lemma ClashIsHopeless(plan: CommitPlan, a: Attempt, hosts: seq<Host>, final: Image, k: nat)
    requires Executes(a, hosts) && |hosts| == k + 1 <= |a.ops| && Scenario(plan, a, hosts[0], final)
    requires Clashes(a.ops, k) && Reentry.FreshIds(a, hosts[0])
    ensures Hopeless(a, hosts) && hosts[k].tree != hosts[0].tree
  {
    hide Hopeless, Clashes, ExactDiff, Orderly, Quotable, Staged, Reentry.FreshIds;
    var j := MarkerInTheWay(plan, a, hosts, final, k);
    assert hosts[k].tree != hosts[0].tree by {
      assert IsDir(hosts[k].tree, a.ops[j].path) && !IsDir(hosts[0].tree, a.ops[j].path);
    }
    if a.ops[k].InstallSymlink? {
      SourceStaged(plan, a, hosts, final, k);
      LinkWaits(a, hosts, j, k);
    } else {
      ClashFails(plan, a, hosts, final, k);
    }
  }

  /** A link that is still staged while something is in its place. */
  lemma LinkWaits(a: Attempt, hosts: seq<Host>, j: nat, k: nat)
    requires a.Valid() && |hosts| == k + 1 <= |a.ops| && a.ops[k].InstallSymlink? && a.ops[k].slot in hosts[k].links
    requires j < |a.ops| && a.ops[k].path == MarkerOf(a.ops[j].path) && IsDir(hosts[k].tree, a.ops[j].path)
    requires a.ops[k].path in hosts[k].tree
    ensures Hopeless(a, hosts)
  {
    assert Parent(MarkerOf(a.ops[j].path)) == a.ops[j].path;
  }

  /**
   So a process lost right after the intent of any such operation leaves the created directory in
   place and a conflict for good.
   */
  lemma ClashIsStranded(c: Config, hash: Hash, plan: CommitPlan, a: Attempt, p: PreparedPlan, encoded: seq<byte>,
                        hosts: seq<Host>, final: Image, k: nat)
    requires Executes(a, hosts) && |hosts| == k + 1 <= |a.ops| && Scenario(plan, a, hosts[0], final) && Reentry.FreshIds(a, hosts[0])
    requires Roomy(c, a) && PlanHeld(c, hash, a, p, encoded)
    requires Clashes(a.ops, k)
    ensures hosts[k].tree != hosts[0].tree && Strands(c, hash, a, encoded, hosts)
  {
    ClashIsHopeless(plan, a, hosts, final, k);
    RefusedIsStranded(c, hash, a, p, encoded, hosts);
  }

  /**
   And every run gets there, unless a read-only directory stops it before: of a plan with such a
   clash, the first one decides.
   */
  lemma ClashIsReached(plan: CommitPlan, a: Attempt, h: Host, final: Image, k: nat)
    requires Scenario(plan, a, h, final) && MeetsMarker(a.ops, h.tree, final, k)
    ensures Executes(a, Trace(a, h, k)) && |Trace(a, h, k)| == k + 1 && Trace(a, h, k)[0] == h
  {
    RunsUntilForbidden(plan, a, h, final, k);
  }

  /** A plan that meets a marker has a point at which a lost process strands it, whatever was to be put there. */
  lemma MetMarkerStrands(c: Config, hash: Hash, plan: CommitPlan, a: Attempt, p: PreparedPlan, encoded: seq<byte>,
                         h: Host, final: Image, k: nat)
    requires Scenario(plan, a, h, final) && Reentry.FreshIds(a, h) && MeetsMarker(a.ops, h.tree, final, k)
    requires Roomy(c, a) && PlanHeld(c, hash, a, p, encoded)
    ensures |Trace(a, h, k)| == k + 1 && Trace(a, h, k)[k].tree != h.tree
    ensures Strands(c, hash, a, encoded, Trace(a, h, k))
  {
    hide ExactDiff, Orderly, Quotable, Staged, MeetsMarker, Strands, Executes, Reentry.FreshIds, PlanHeld;
    ClashIsReached(plan, a, h, final, k);
    MetIsClash(a, h.tree, final, k);
    ClashIsStranded(c, hash, plan, a, p, encoded, Trace(a, h, k), final, k);
  }

  lemma MetIsClash(a: Attempt, base: Tree, final: Image, k: nat)
    requires a.Valid() && MeetsMarker(a.ops, base, final, k)
    ensures k < |a.ops| && Clashes(a.ops, k)
  {
  }

  // ------------------------------------------- a link in the marker's place

  /** A link is moved over the marker without complaint; what it leaves there is not a marker that could be cleared. */
  lemma LinkReplacesMarker(plan: CommitPlan, a: Attempt, hosts: seq<Host>, final: Image, k: nat) returns (j: nat)
    requires Executes(a, hosts) && |hosts| == k + 1 <= |a.ops| && Scenario(plan, a, hosts[0], final)
    requires Clashes(a.ops, k) && a.ops[k].InstallSymlink?
    ensures Step(a, k, hosts[k]).Done? && j < k && a.ops[j].CreateDirectory?
    ensures Step(a, k, hosts[k]).host == Relinked(hosts[k], a.ops[k])
    ensures a.ops[k].path == MarkerOf(a.ops[j].path) && a.ops[k].path in hosts[k].tree
    ensures forall pinned, owner :: !MarkerReady(a, j, Step(a, k, hosts[k]).host.tree, pinned, owner)
  {
    j := MarkerInTheWay(plan, a, hosts, final, k);
    assert Parent(MarkerOf(a.ops[j].path)) == a.ops[j].path;
    SourceStaged(plan, a, hosts, final, k);
    var e := ServedBy(plan, a, hosts[0].tree, final, k);
  }

  function Relinked(h: Host, op: Operation): Host
    requires op.InstallSymlink?
  {
    if op.slot in h.links then h.(tree := h.tree[op.path := h.links[op.slot]], links := h.links - {op.slot}) else h
  }

  /** The attempt at the first n operations, and what the journal says of them. */
  function FirstOps(a: Attempt, n: nat): Attempt
    requires a.Valid() && n <= |a.ops|
  {
    Attempt(a.transaction, a.ops[..n], a.allocs[..n])
  }

  function FirstRecords(js: JournalState, n: nat): JournalState {
    JournalState(
      map i | i in js.completed && i < n :: js.completed[i], map i | i in js.metadata && i < n :: js.metadata[i],
      map i | i in js.intents && i < n :: js.intents[i], js.pending, js.tornTail)
  }

  lemma {:induction false} RollbackOfFirst(a: Attempt, js: JournalState, n: nat, k: nat, h: Host)
    requires a.Valid() && k <= n <= |a.ops|
    ensures RollbackAll(FirstOps(a, n), FirstRecords(js, n), k, h) == RollbackAll(a, js, k, h)
  {
    if k > 0 {
      assert WitnessesOf(FirstRecords(js, n), k - 1) == WitnessesOf(js, k - 1);
      assert RollbackOne(FirstOps(a, n), FirstRecords(js, n), k - 1, h) == RollbackOne(a, js, k - 1, h);
      match RollbackOne(a, js, k - 1, h)
      case Restored(h') => RollbackOfFirst(a, js, n, k - 1, h');
      case Stuck(_) =>
    }
  }

  lemma ExecutesFirst(a: Attempt, hosts: seq<Host>, js: JournalState)
    requires Executes(a, hosts) && |hosts| <= |a.ops| && Journaled(a, hosts, js, |hosts| - 1, |hosts|)
    ensures Executes(FirstOps(a, |hosts| - 1), hosts)
    ensures Journaled(FirstOps(a, |hosts| - 1), hosts, FirstRecords(js, |hosts| - 1), |hosts| - 1, |hosts| - 1)
  {
    var k := |hosts| - 1;
    var first, firstJs := FirstOps(a, k), FirstRecords(js, k);
    forall i | 0 <= i < k
      ensures Ran(first, hosts, i)
    {
      assert Ran(a, hosts, i);
    }
    forall i: u32 | i < k
      ensures IntentFaithful(first, hosts, firstJs, i) && CompletionFaithful(first, hosts, firstJs, i)
    {
      assert IntentFaithful(a, hosts, js, i) && CompletionFaithful(a, hosts, js, i);
    }
  }

  /** What the journal says once the completion of operation k is in it as well. */
  function Completing(js: JournalState, k: u32, owner: Witness): JournalState {
    js.(completed := js.completed[k := owner])
  }

  /** Undoing the link leaves the directory without its marker, as if the marker had been cleared. */
  lemma LinkIsUndone(a: Attempt, hosts: seq<Host>, js: JournalState, k: nat)
    requires Executes(a, hosts) && |hosts| == k + 1 <= |a.ops| && Journaled(a, hosts, js, k, k + 1)
    requires a.ops[k].InstallSymlink? && a.ops[k].path in hosts[k].tree
    requires Step(a, k, hosts[k]).Done? && Step(a, k, hosts[k]).host == Relinked(hosts[k], a.ops[k])
    ensures UndoneOver(a, hosts, k, RollbackOne(a, js, k, Relinked(hosts[k], a.ops[k])))
    ensures UndoneOver(a, hosts, k, RollbackOne(a, Completing(js, k, Step(a, k, hosts[k]).owner), k, Relinked(hosts[k], a.ops[k])))
  {
    assert IntentFaithful(a, hosts, js, k);
  }

  ghost predicate UndoneOver(a: Attempt, hosts: seq<Host>, k: nat, r: RollbackResult)
    requires k < |a.ops| && k < |hosts|
  {
    r.Restored? && After(r.host, hosts[k], {a.ops[k].path})
  }

  /** With a link undone the marker below it is gone; the operations before it go back all the same. */
  lemma FirstUnwind(plan: CommitPlan, a: Attempt, hosts: seq<Host>, final: Image, js: JournalState, js': JournalState, j: nat, h: Host)
    requires Executes(a, hosts) && |hosts| <= |a.ops| && Scenario(plan, a, hosts[0], final)
    requires forall i :: 0 <= i < |hosts| - 1 ==> !Clashes(a.ops, i)
    requires j < |hosts| - 1 && a.ops[j].CreateDirectory? && Journaled(a, hosts, js, |hosts| - 1, |hosts|)
    requires After(h, hosts[|hosts| - 1], {MarkerOf(a.ops[j].path)}) && FirstRecords(js', |hosts| - 1) == FirstRecords(js, |hosts| - 1)
    ensures var r := RollbackAll(a, js', |hosts| - 1, h);
            r.Restored? && r.host.tree == hosts[0].tree
  {
    hide RollbackOne, StepsTo, Clashes, IntentFaithful, CompletionFaithful, WitnessesOf, ExactDiff, Orderly, Quotable, Staged;
    var k := |hosts| - 1;
    var first := FirstOps(a, k);
    ExecutesFirst(a, hosts, js);
    ShapedUpTo(plan, a, hosts[0].tree, final, k);
    assert MarkerOf(first.ops[j].path) in Markers(first.ops, k);
    RollbackRestores(first, hosts, FirstRecords(js, k), k, k, k, h, {MarkerOf(a.ops[j].path)});
    RollbackOfFirst(a, js', k, k, h);
    assert hosts[0].tree - {} == hosts[0].tree;
  }

  /**
   Once the link has moved, and before the next operation begins, one rollback restores the base,
   with or without the completion record. Before it moves the same loss strands.
   */
  lemma LinkClashUnwinds(plan: CommitPlan, a: Attempt, hosts: seq<Host>, final: Image, js: JournalState, k: nat, completed: bool)
    requires Executes(a, hosts) && |hosts| == k + 1 <= |a.ops| && Scenario(plan, a, hosts[0], final)
    requires Clashes(a.ops, k) && a.ops[k].InstallSymlink? && (forall i :: 0 <= i < k ==> !Clashes(a.ops, i))
    requires Journaled(a, hosts, js, k, k + 1)
    ensures Step(a, k, hosts[k]).Done?
    ensures var done := Step(a, k, hosts[k]);
            var r := RollbackAll(a, if completed then Completing(js, k, done.owner) else js, |a.ops|, done.host);
            r.Restored? && r.host.tree == hosts[0].tree
  {
    hide RollbackOne, ExactDiff, Orderly, Quotable, Staged, StepsTo, Clashes, IntentFaithful, CompletionFaithful, Completing;
    var j := LinkReplacesMarker(plan, a, hosts, final, k);
    LinkIsUndone(a, hosts, js, k);
    var done := Step(a, k, hosts[k]);
    var js' := if completed then Completing(js, k, done.owner) else js;
    CompletingLater(js, k, done.owner);
    SkipUnintended(a, js', k + 1, |a.ops|, done.host);
    FirstUnwind(plan, a, hosts, final, js, js', j, RollbackOne(a, js', k, done.host).host);
  }

  lemma CompletingLater(js: JournalState, k: u32, owner: Witness)
    ensures FirstRecords(Completing(js, k, owner), k) == FirstRecords(js, k)
    ensures Completing(js, k, owner).intents == js.intents
  {
  }

  // ----------------------------------------------------- a tree that changed

  /** A file that was edited since its mode change was planned: the change is refused, and nobody's work. */
  lemma EditedFileFails(a: Attempt, hosts: seq<Host>, k: nat)
    requires a.Valid() && |hosts| == k + 1 <= |a.ops| && a.ops[k].SetFileMode?
    requires var op, t := a.ops[k], hosts[k].tree;
             && IsDir(t, Parent(op.path)) && op.path in t && t[op.path].stamp.kind == File && !FileMatches(t[op.path], op.expected)
             && op.expected.content.Stamp? && op.expected.content.stamp.mtime != t[op.path].stamp.mtime
    ensures Hopeless(a, hosts)
    ensures Step(a, k, hosts[k]) == Applied.Failed(hosts[k], VerificationFailed)
  {
  }
}
