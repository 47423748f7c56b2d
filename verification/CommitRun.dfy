/**
 One transaction against the durable world, step by step, with process loss possible at every
 fault point; and the recovery that follows.
 */
module CommitRun {
  import opened Types
  import opened Engine
  import opened Rollback
  import opened Planning
  import opened Ordering
  import opened Correctness
  import opened OperationLog
  import opened PlanCodec
  import opened CrashRecovery
  import opened FinalVerification
  import opened Overlaying
  import opened Committing
  import opened Stranding
  import Reentry

  // ---------------------------------------------------- leftovers of a run

  /** A plan as admission and preparation leave it, readable by recovery; exact against some tree. */
  ghost predicate Accepted(c: Config, hash: Hash, plan: CommitPlan, a: Attempt, p: PreparedPlan, encoded: seq<byte>,
                           base: Tree, final: Image) {
    && Roomy(c, a) && PlanHeld(c, hash, a, p, encoded)
    && p.finalStates == FinalStates(plan.diff)
    && Planned(plan, a, base, final)
  }

  /** The disk in the middle of a run: after `hosts`, with exactly the records `rs`. */
  ghost predicate Midway(hash: Hash, a: Attempt, hosts: seq<Host>, encoded: seq<byte>, d: Disk, rs: seq<Record>) {
    && Executes(a, hosts) && d.workspace.Some?
    && HostOf(d.tree, d.workspace.value) == hosts[|hosts| - 1]
    && d.workspace.value.plan == encoded && !d.workspace.value.marker
    && d.workspace.value.journal == Log(hash, SetsFileMode(a.ops), rs)
    && Recorded(a, hosts, rs)
  }

  /** None of the first n operations clashes with a marker. */
  ghost predicate Clean(a: Attempt, n: nat) {
    forall i :: 0 <= i < n && i < |a.ops| ==> !Clashes(a.ops, i)
  }

  /** What the whole run relies on: a plan exact against the tree it started from, staged and private. */
  ghost predicate Sound(c: Config, hash: Hash, plan: CommitPlan, a: Attempt, p: PreparedPlan, encoded: seq<byte>, base: Host, image: Image) {
    && Accepted(c, hash, plan, a, p, encoded, base.tree, image)
    && Scenario(plan, a, base, image) && Reentry.Private(a, base)
    && ParentsObserved(base.tree, plan, a.ops)
  }

  /** The durable state is one that a run of this attempt passes through, or leaves when it is lost. */
  ghost predicate Abandoned(c: Config, hash: Hash, a: Attempt, p: PreparedPlan, base: Tree, d: Disk) {
    && d.workspace.Some? && PlanHeld(c, hash, a, p, d.workspace.value.plan) && |d.workspace.value.journal| <= c.maxJournalBytes
    && exists hosts: seq<Host>, rs: seq<Record>, gone: set<Path> :: LeftBehind(hash, a, base, d, hosts, rs, gone)
  }

  ghost predicate LeftBehind(hash: Hash, a: Attempt, base: Tree, d: Disk, hosts: seq<Host>, rs: seq<Record>, gone: set<Path>)
    requires d.workspace.Some?
  {
    && Leftover(hash, a, hosts, d.tree, d.workspace.value, rs, gone)
    && hosts[0].tree == base && Reentry.Private(a, hosts[0])
  }

  lemma CleanIsShaped(plan: CommitPlan, a: Attempt, base: Tree, final: Image, n: nat)
    requires Planned(plan, a, base, final) && Clean(a, n)
    ensures Shaped(a.ops, n)
  {
    hide Planned, Clashes, Shaped;
    ShapedUpTo(plan, a, base, final, n);
  }

  /** What a run leaves that was lost after `hosts`, or later, when its markers were being cleared. */
  lemma RunLeaves(hash: Hash, a: Attempt, hosts: seq<Host>, encoded: seq<byte>, full: Disk, d: Disk, rs: seq<Record>, gone: set<Path>)
    requires Midway(hash, a, hosts, encoded, full, rs) && Shaped(a.ops, (|rs| + 1) / 2)
    requires 2 * |hosts| - 3 <= |rs| <= 2 * |hosts| - 1
    requires |rs| == 2 * |hosts| - 1 ==> |hosts| <= |a.ops| && Awaits(a.ops[|hosts| - 1], hosts[|hosts| - 1])
    requires gone <= Markers(a.ops, |hosts| - 1) && (gone != {} ==> |rs| == 2 * |a.ops|)
    requires d.workspace == full.workspace && d.tree == full.tree - gone
    ensures Leftover(hash, a, hosts, d.tree, d.workspace.value, rs, gone) && |d.workspace.value.journal| <= 8 + 179 * |a.ops|
  {
    hide Log, Recorded, Shaped, Awaits, Holds, Markers;
    HoldsWhole(hash, a, hosts, rs);
    HeldFits(hash, a, hosts, d.workspace.value.journal, rs);
  }

  /** From any point of the run recovery restores the base. */
  lemma MidwayUnwinds(c: Config, hash: Hash, plan: CommitPlan, a: Attempt, p: PreparedPlan, encoded: seq<byte>,
                      final: Image, hosts: seq<Host>, d: Disk, rs: seq<Record>)
    requires Midway(hash, a, hosts, encoded, d, rs)
    requires Sound(c, hash, plan, a, p, encoded, hosts[0], final)
    requires 2 * |hosts| - 3 <= |rs| <= 2 * |hosts| - 1
    requires |rs| == 2 * |hosts| - 1 ==> |hosts| <= |a.ops| && Awaits(a.ops[|hosts| - 1], hosts[|hosts| - 1])
    requires Clean(a, (|rs| + 1) / 2)
    ensures Abandoned(c, hash, a, p, hosts[0].tree, d)
  {
    hide Leftover, ExactDiff, Orderly, Quotable, Staged, Reentry.Private, Awaits, Clean, Shaped, PlanHeld, ParentsObserved, Executes, Log, Recorded;
    CleanIsShaped(plan, a, hosts[0].tree, final, (|rs| + 1) / 2);
    assert d.tree - {} == d.tree;
    RunLeaves(hash, a, hosts, encoded, d, d, rs, {});
    assert LeftBehind(hash, a, hosts[0].tree, d, hosts, rs, {});
  }

  /** The same once every operation completed and some markers were cleared. */
  lemma ClearedUnwinds(c: Config, hash: Hash, plan: CommitPlan, a: Attempt, p: PreparedPlan, encoded: seq<byte>,
                       final: Image, hosts: seq<Host>, d: Disk, full: Disk, rs: seq<Record>, gone: set<Path>)
    requires Midway(hash, a, hosts, encoded, full, rs)
    requires Sound(c, hash, plan, a, p, encoded, hosts[0], final)
    requires |hosts| == |a.ops| + 1 && |rs| == 2 * |a.ops| && gone <= Markers(a.ops, |a.ops|)
    requires d.workspace == full.workspace && d.tree == full.tree - gone && Clean(a, |a.ops|)
    ensures Abandoned(c, hash, a, p, hosts[0].tree, d)
  {
    hide Leftover, ExactDiff, Orderly, Quotable, Staged, Reentry.Private, Clean, Shaped, PlanHeld, ParentsObserved, Executes, Log, Recorded, Markers;
    CleanIsShaped(plan, a, hosts[0].tree, final, |a.ops|);
    RunLeaves(hash, a, hosts, encoded, full, d, rs, gone);
    assert LeftBehind(hash, a, hosts[0].tree, d, hosts, rs, gone);
  }

  /** Whatever an abandoned run left, one recovery restores the base. */
  lemma AbandonedUnwinds(c: Config, hash: Hash, a: Attempt, p: PreparedPlan, base: Tree, d: Disk)
    requires Abandoned(c, hash, a, p, base, d) && Reversible(d.state)
    ensures RecoverDisk(c, hash, d) == (Disk(base, Failing(d.state), None), RolledBack)
  {
    var hosts: seq<Host>, rs: seq<Record>, gone: set<Path> :| LeftBehind(hash, a, base, d, hosts, rs, gone);
    LeftoverIsUnwound(c, hash, a, p, hosts, d, rs, gone);
  }

  /** An operation other than a mode change, at which a rollback that was lost there may have been at work. */
  predicate Repeats(ops: seq<Operation>, loss: Loss) {
    exists i :: Stop(loss, |ops|) <= i < |ops| && !ops[i].IsMode()
  }

  /**
   Lose the recovery of an abandoned run anywhere and recover again: the base is back, or a
   conflict is reported, nothing is touched and the transaction directory is kept. The conflict
   needs an operation other than a mode change that was undone before.
   */
  lemma AbandonedTwice(c: Config, hash: Hash, a: Attempt, p: PreparedPlan, base: Tree, d: Disk, loss: Loss)
    requires Abandoned(c, hash, a, p, base, d) && Reversible(d.state)
    ensures var lost := RecoveryLost(c, hash, d, loss);
            var (d', o) := RecoverDisk(c, hash, lost);
            || (o == RolledBack && d' == Disk(base, Failing(d.state), None))
            || (o == Conflicted && d' == lost && lost.workspace.Some? && Repeats(a.ops, loss))
  {
    hide RecoverDisk, RecoveryLost, PlanHeld, LeftBehind, Interrupted, Repeats;
    var hosts: seq<Host>, rs: seq<Record>, gone: set<Path> :| LeftBehind(hash, a, base, d, hosts, rs, gone);
    LeftBehindTwice(c, hash, a, p, base, d, hosts, rs, gone, loss);
  }

  lemma LeftBehindTwice(c: Config, hash: Hash, a: Attempt, p: PreparedPlan, base: Tree, d: Disk,
                        hosts: seq<Host>, rs: seq<Record>, gone: set<Path>, loss: Loss)
    requires d.workspace.Some? && |d.workspace.value.journal| <= c.maxJournalBytes && PlanHeld(c, hash, a, p, d.workspace.value.plan)
    requires LeftBehind(hash, a, base, d, hosts, rs, gone) && Reversible(d.state)
    ensures var lost := RecoveryLost(c, hash, d, loss);
            var (d', o) := RecoverDisk(c, hash, lost);
            || (o == RolledBack && d' == Disk(base, Failing(d.state), None))
            || (o == Conflicted && d' == lost && lost.workspace.Some? && Repeats(a.ops, loss))
  {
    hide RecoverDisk, RecoveryLost, OnlyModesUndone, Shaped, Holds, Reentry.Private, Decode, ReadLog, Awaits, Repeats;
    var js := HeldReadsBack(c, hash, a, hosts, d.workspace.value.journal, rs);
    LostIsInterrupted(c, hash, a, d, p, js, loss);
    LostRecoveryIsSafe(c, hash, a, p, hosts, d, js, rs, loss, gone);
    if !OnlyModesUndone(a, StoppedBefore(hosts, Stop(loss, |a.ops|)), |rs| / 2) {
      UndoneRepeats(a, hosts, rs, loss);
    }
  }

  lemma LostIsInterrupted(c: Config, hash: Hash, a: Attempt, d: Disk, p: PreparedPlan, js: JournalState, loss: Loss)
    requires d.workspace.Some? && PlanHeld(c, hash, a, p, d.workspace.value.plan) && !d.workspace.value.marker
    requires ReadLog(hash, c.maxJournalBytes, d.workspace.value.journal) == Ok(js) && Reversible(d.state)
    ensures Reversal(p).Valid() && RecoveryLost(c, hash, d, loss) == Interrupted(d, p, js, loss)
  {
    hide Decode, ReadLog, Interrupted;
  }

  lemma UndoneRepeats(a: Attempt, hosts: seq<Host>, rs: seq<Record>, loss: Loss)
    requires a.Valid() && 1 <= |hosts| <= |a.ops| + 1 && |rs| <= 2 * |hosts| - 1 && |rs| / 2 <= |a.ops|
    requires !OnlyModesUndone(a, StoppedBefore(hosts, Stop(loss, |a.ops|)), |rs| / 2)
    ensures Repeats(a.ops, loss)
  {
    var v := StoppedBefore(hosts, Stop(loss, |a.ops|));
    var i :| v <= i < |rs| / 2 && !a.ops[i].IsMode();
    assert i <= |hosts| - 1;
  }

  /** The intent that is due after `hosts`. */
  ghost predicate IntentDue(a: Attempt, hosts: seq<Host>, source: Option<Witness>, parent: Witness)
    requires a.Valid()
  {
    && 1 <= |hosts| <= |a.ops|
    && var op, h := a.ops[|hosts| - 1], hosts[|hosts| - 1];
       && IsDir(h.tree, Parent(op.path)) && SourceWitness(op, h) == Some(source)
       && parent == WitnessOf(h.tree[Parent(op.path)].stamp)
  }

  function WithJournal(d: Disk, file: seq<byte>): Disk
    requires d.workspace.Some?
  {
    d.(workspace := Some(d.workspace.value.(journal := file)))
  }

  lemma MidwayHost(hash: Hash, a: Attempt, hosts: seq<Host>, encoded: seq<byte>, d: Disk, rs: seq<Record>)
    requires Midway(hash, a, hosts, encoded, d, rs)
    ensures Executes(a, hosts) && d.workspace.Some? && HostOf(d.tree, d.workspace.value) == hosts[|hosts| - 1]
  {
  }

  /** The committer finds the parent of the next operation pinned, and the source and the intent it is to record. */
  ghost predicate DueWith(a: Attempt, hosts: seq<Host>, pinned: map<Path, FileId>) {
    && a.Valid() && 1 <= |hosts| <= |a.ops|
    && var op := a.ops[|hosts| - 1];
       && Parent(op.path) in pinned && SourceWitness(op, hosts[|hosts| - 1]).Some?
       && IntentDue(a, hosts, SourceWitness(op, hosts[|hosts| - 1]).value, Witness(Directory, pinned[Parent(op.path)]))
  }

  /** In a sound run the next operation is ready, and its intent is the one the committer writes. */
  lemma DueSoundly(c: Config, hash: Hash, aim: Aim, a: Attempt, hosts: seq<Host>, d: Disk, rs: seq<Record>, pinned: map<Path, FileId>)
    requires Midway(hash, a, hosts, aim.encoded, d, rs) && |hosts| <= |a.ops|
    requires Sound(c, hash, aim.plan, a, aim.prepared, aim.encoded, hosts[0], aim.image)
    requires PinHolds(hosts[|hosts| - 1].tree, pinned, Parent(a.ops[|hosts| - 1].path)) && !Clashes(a.ops, |hosts| - 1)
    ensures NextReady(a, hosts, aim.image) && DueWith(a, hosts, pinned)
  {
    hide ExactDiff, Orderly, Quotable, Staged, Reentry.Private, ParentsObserved, Log, Recorded, Allowed, SourceWitness, PlanHeld, Roomy;
    NextStep(aim.plan, a, hosts, aim.image);
  }

  /** Only a link has an effect where there is something already. */
  ghost predicate OnlyLinks(a: Attempt, hosts: seq<Host>) {
    && a.Valid() && 1 <= |hosts| <= |a.ops|
    && var k := |hosts| - 1;
       if a.ops[k].InstallSymlink? then Step(a, k, hosts[k]).Done? else Step(a, k, hosts[k]) == Applied.Failed(hosts[k], HostIo)
  }

  /** The same where the next operation clashes: it begins, and without its effect it strands. */
  lemma DueOnMarker(c: Config, hash: Hash, aim: Aim, a: Attempt, hosts: seq<Host>, d: Disk, rs: seq<Record>, pinned: map<Path, FileId>)
    requires Midway(hash, a, hosts, aim.encoded, d, rs) && |hosts| <= |a.ops|
    requires Sound(c, hash, aim.plan, a, aim.prepared, aim.encoded, hosts[0], aim.image)
    requires PinHolds(hosts[|hosts| - 1].tree, pinned, Parent(a.ops[|hosts| - 1].path)) && Clashes(a.ops, |hosts| - 1)
    ensures Hopeless(a, hosts) && hosts[|hosts| - 1].tree != hosts[0].tree
    ensures DueWith(a, hosts, pinned) && OnlyLinks(a, hosts)
  {
    hide ExactDiff, Orderly, Quotable, Staged, ParentsObserved, Log, Recorded, SourceWitness, PlanHeld, Roomy, Clashes, Hopeless, Step;
    var k := |hosts| - 1;
    ClashIsHopeless(aim.plan, a, hosts, aim.image, k);
    HopelessBegins(a, hosts);
    if a.ops[k].InstallSymlink? {
      var j := LinkReplacesMarker(aim.plan, a, hosts, aim.image, k);
    } else {
      ClashFails(aim.plan, a, hosts, aim.image, k);
    }
  }

  /** Once its intent is durable, that is. */
  lemma StrandedMidway(c: Config, hash: Hash, aim: Aim, a: Attempt, hosts: seq<Host>, d: Disk, rs: seq<Record>)
    requires Midway(hash, a, hosts, aim.encoded, d, rs) && |rs| == 2 * |hosts| - 1
    requires Sound(c, hash, aim.plan, a, aim.prepared, aim.encoded, hosts[0], aim.image) && Hopeless(a, hosts)
    ensures Stranded(c, hash, d) && d.tree == hosts[|hosts| - 1].tree
  {
    hide ExactDiff, Orderly, Quotable, Staged, ParentsObserved, Log, Recorded, PlanHeld, Hopeless, Stranded, Scenario, Reentry.Private;
    HoldsWhole(hash, a, hosts, rs);
    HeldFits(hash, a, hosts, d.workspace.value.journal, rs);
    HopelessIsStranded(c, hash, a, aim.prepared, hosts, d, rs);
  }

  lemma MeetsSoundly(c: Config, hash: Hash, aim: Aim, a: Attempt, hosts: seq<Host>, d: Disk, rs: seq<Record>)
    requires Midway(hash, a, hosts, aim.encoded, d, rs) && |hosts| <= |a.ops| && Clean(a, |hosts| - 1)
    requires Sound(c, hash, aim.plan, a, aim.prepared, aim.encoded, hosts[0], aim.image)
    ensures Clashes(a.ops, |hosts| - 1) <==> MeetsMarker(a.ops, hosts[0].tree, aim.image, |hosts| - 1)
  {
    hide Scenario, Log, Recorded, PlanHeld, Accepted, Clashes, MeetsMarker, Reentry.Private, ParentsObserved;
    NothingMetBefore(aim.plan, a, hosts, aim.image, |hosts| - 1);
  }

  lemma PinnedSoundly(c: Config, hash: Hash, aim: Aim, a: Attempt, hosts: seq<Host>, d: Disk, rs: seq<Record>,
                      pinned: map<Path, FileId>, log: RunLog)
    requires Midway(hash, a, hosts, aim.encoded, d, rs) && |hosts| <= |a.ops|
    requires Sound(c, hash, aim.plan, a, aim.prepared, aim.encoded, hosts[0], aim.image)
    requires LogTrue(a, hosts, pinned, log, |hosts| - 1) && AllPinned(hosts[0].tree, aim.plan, a.ops, pinned, |a.ops|)
    ensures PinHolds(hosts[|hosts| - 1].tree, log.pinned, Parent(a.ops[|hosts| - 1].path))
  {
    hide ExactDiff, Orderly, Quotable, Staged, Reentry.Private, Log, Recorded, PlanHeld, Roomy, Evidence;
    ParentPinned(aim.plan, a, hosts, aim.image, pinned, log.pinned);
  }

  /** With the next intent in its journal, and nothing done yet. */
  lemma IntentHeld(c: Config, hash: Hash, aim: Aim, a: Attempt, hosts: seq<Host>, before: Disk, rs: seq<Record>,
                   source: Option<Witness>, parent: Witness)
    requires Midway(hash, a, hosts, aim.encoded, before, rs) && |rs| == 2 * |hosts| - 2 && |hosts| <= |a.ops|
    requires Sound(c, hash, aim.plan, a, aim.prepared, aim.encoded, hosts[0], aim.image)
    requires IntentDue(a, hosts, source, parent)
    ensures var rs' := rs + [Intent(|hosts| - 1, source, parent)];
            var after := WithJournal(before, Log(hash, SetsFileMode(a.ops), rs'));
            && Midway(hash, a, hosts, aim.encoded, after, rs')
            && (Clean(a, |hosts|) && NextReady(a, hosts, aim.image) ==> Abandoned(c, hash, a, aim.prepared, hosts[0].tree, after))
  {
    hide Log, Sound, SourceWitness, WitnessOf, Awaits, Recorded, Abandoned, Allowed, Clean;
    var x := Intent(|hosts| - 1, source, parent);
    RecordedIntent(a, hosts, rs, x);
    if Clean(a, |hosts|) && NextReady(a, hosts, aim.image) {
      MidwayUnwinds(c, hash, aim.plan, a, aim.prepared, aim.encoded, aim.image, hosts,
                    WithJournal(before, Log(hash, SetsFileMode(a.ops), rs + [x])), rs + [x]);
    }
  }

  /** With the completion of its last operation in its journal. */
  lemma CompletionHeld(c: Config, hash: Hash, aim: Aim, a: Attempt, hosts: seq<Host>, before: Disk, rs: seq<Record>, applied: Applied)
    requires Midway(hash, a, hosts, aim.encoded, before, rs) && |rs| == 2 * |hosts| - 3 && |hosts| >= 2
    requires Sound(c, hash, aim.plan, a, aim.prepared, aim.encoded, hosts[0], aim.image)
    requires applied.Done? && applied == Step(a, |hosts| - 2, hosts[|hosts| - 2]) && Clean(a, |hosts| - 1)
    ensures var rs' := rs + [CompletionOf(applied, |hosts| - 2)];
            var after := WithJournal(before, Log(hash, SetsFileMode(a.ops), rs'));
            Midway(hash, a, hosts, aim.encoded, after, rs') && Abandoned(c, hash, a, aim.prepared, hosts[0].tree, after)
  {
    hide Log, Sound, Step, Recorded, Abandoned, CompletionOf;
    var x := CompletionOf(applied, |hosts| - 2);
    RecordedCompletion(a, hosts, rs, x);
    MidwayUnwinds(c, hash, aim.plan, a, aim.prepared, aim.encoded, aim.image, hosts,
                  WithJournal(before, Log(hash, SetsFileMode(a.ops), rs + [x])), rs + [x]);
  }

  predicate InFlight(state: Option<TransactionState>) {
    state in {Some(Revalidating), Some(Committing), Some(RecoveryRequired)}
  }

  /** What a run is after, and whether it is known to be sound; only proofs look at it. */
  datatype Aim = Aim(plan: CommitPlan, prepared: PreparedPlan, encoded: seq<byte>, image: Image, sound: bool)

  /** One operation, whatever the circumstances: the answer, the host it leaves, and the records it wrote. */
  datatype OperationRun = OperationRun(result: Result<Applied, CommitError>, host: Host, records: seq<Record>)

  /**
   Without a pinned parent or a source to pin, nothing happens. Otherwise the intent comes first,
   naming both; the mutation only while the parent is the pinned one; the completion only when it
   was done; and each fault point stops right where it stands.
   */
  function RunOf(a: Attempt, i: nat, pinned: map<Path, FileId>, faults: Faults, h: Host): OperationRun
    requires a.Valid() && i < |a.ops|
  {
    var d, source := Parent(a.ops[i].path), SourceWitness(a.ops[i], h);
    if d !in pinned then OperationRun(Err(ParentNotPinned), h, [])
    else if source.None? then OperationRun(Err(OperationFailed(HostIo)), h, [])
    else
      var intent := Intent(i, source.value, Witness(Directory, pinned[d]));
      if faults(IntentSynced(i)) then OperationRun(Err(Injected(IntentSynced(i))), h, [intent])
      else if d !in h.tree || h.tree[d].stamp.kind != Directory || h.tree[d].stamp.id != pinned[d] then
        OperationRun(Err(ParentMoved), h, [intent])
      else
        var ran := RunOn(i, faults, Apply(a.transaction, i, a.ops[i], h, source.value, a.allocs[i]));
        ran.(records := [intent] + ran.records)
  }

  /** The ways in which it ends before the operation began, and while it runs. */
  lemma RunOfSteps(a: Attempt, i: nat, pinned: map<Path, FileId>, faults: Faults, h: Host)
    requires a.Valid() && i < |a.ops|
    ensures var d, source, run := Parent(a.ops[i].path), SourceWitness(a.ops[i], h), RunOf(a, i, pinned, faults, h);
            && (d !in pinned ==> run == OperationRun(Err(ParentNotPinned), h, []))
            && (d in pinned && source.None? ==> run == OperationRun(Err(OperationFailed(HostIo)), h, []))
            && (d in pinned && source.Some? ==>
                  var intent := Intent(i, source.value, Witness(Directory, pinned[d]));
                  && (faults(IntentSynced(i)) ==> run == OperationRun(Err(Injected(IntentSynced(i))), h, [intent]))
                  && (!faults(IntentSynced(i)) && !PinHolds(h.tree, pinned, d) ==> run == OperationRun(Err(ParentMoved), h, [intent]))
                  && (!faults(IntentSynced(i)) && PinHolds(h.tree, pinned, d) ==>
                        var ran := RunOn(i, faults, Apply(a.transaction, i, a.ops[i], h, source.value, a.allocs[i]));
                        run == ran.(records := [intent] + ran.records)))
  {
    hide Apply, SourceWitness;
  }

  /**
   What is to be changed in place, or moved from the stage, has to be there for anything to begin, and
   the intent names that very node; other operations name nothing but the parent.
   */
  lemma IntentNamesItsSource(a: Attempt, i: nat, pinned: map<Path, FileId>, faults: Faults, h: Host)
    requires a.Valid() && i < |a.ops|
    ensures var op, records := a.ops[i], RunOf(a, i, pinned, faults, h).records;
            var d := Parent(op.path);
            match op
            case SetFileMode(p, _, _) =>
              && (records != [] <==> d in pinned && p in h.tree && h.tree[p].stamp.kind == File)
              && (records != [] ==> records[0] == Intent(i, Some(Witness(File, h.tree[p].stamp.id)), Witness(Directory, pinned[d])))
            case SetDirectoryMode(p, _, _) =>
              && (records != [] <==> d in pinned && p in h.tree && h.tree[p].stamp.kind == Directory)
              && (records != [] ==> records[0] == Intent(i, Some(Witness(Directory, h.tree[p].stamp.id)), Witness(Directory, pinned[d])))
            case InstallSymlink(_, _, slot) =>
              && (records != [] <==> d in pinned && slot in h.links)
              && (records != [] ==>
                    var link := h.links[slot].stamp;
                    records[0] == Intent(i, Some(Witness(link.kind, link.id)), Witness(Directory, pinned[d])))
            case _ =>
              && (records != [] <==> d in pinned)
              && (records != [] ==> records[0] == Intent(i, None, Witness(Directory, pinned[d])))
  {
    hide Apply;
  }

  /** The rest of it, once the operation was applied. */
  function RunOn(i: u32, faults: Faults, applied: Applied): OperationRun {
    if applied.Failed? then OperationRun(Err(OperationFailed(applied.error)), applied.host, [])
    else if faults(OperationApplied(i)) then OperationRun(Err(Injected(OperationApplied(i))), applied.host, [])
    else
      OperationRun(if faults(DoneSynced(i)) then Err(Injected(DoneSynced(i))) else Ok(applied), applied.host, [CompletionOf(applied, i)])
  }

  /** The same workspace after the host moved. */
  function Moved(d: Disk, h: Host): Disk
    requires d.workspace.Some?
  {
    Disk(h.tree, d.state, Some(Keep(d.workspace.value, h)))
  }

  /** Clearing the markers of operations k - 1 down to 0, until one is not where it was left. */
  function Cleared(a: Attempt, t: Tree, pinned: map<Path, FileId>, completed: map<u32, Witness>, k: nat): (bool, Tree)
    requires a.Valid() && k <= |a.ops|
  {
    if k == 0 then (true, t)
    else if !a.ops[k - 1].CreateDirectory? then Cleared(a, t, pinned, completed, k - 1)
    else if !MarkerReady(a, k - 1, t, pinned, Lookup(completed, k - 1)) then (false, t)
    else Cleared(a, t - {MarkerOf(a.ops[k - 1].path)}, pinned, completed, k - 1)
  }

  /**
   Only a marker of this very transaction is ever removed, from the pinned directory that its
   operation recorded to have created; and without an obstacle none is left.
   */
  lemma {:induction false} ClearedAreOwn(a: Attempt, t: Tree, pinned: map<Path, FileId>, completed: map<u32, Witness>, k: nat)
    requires a.Valid() && k <= |a.ops|
    ensures var (ok, t') := Cleared(a, t, pinned, completed, k);
            && t'.Keys <= t.Keys && (forall q :: q in t' ==> t'[q] == t[q])
            && (forall q :: q in t && q !in t' ==> exists i: u32 :: i < k && OwnMarker(a, i, t, q, pinned, completed))
            && (ok ==> forall i :: 0 <= i < k && a.ops[i].CreateDirectory? ==> a.ops[i].path + [MARKER] !in t')
  {
    if k > 0 {
      if !a.ops[k - 1].CreateDirectory? {
        ClearedAreOwn(a, t, pinned, completed, k - 1);
      } else if MarkerReady(a, k - 1, t, pinned, Lookup(completed, k - 1)) {
        var m := MarkerOf(a.ops[k - 1].path);
        ClearedAreOwn(a, t - {m}, pinned, completed, k - 1);
        var last: u32 := k - 1;
        assert OwnMarker(a, last, t, m, pinned, completed);
        forall q | q in t && q !in Cleared(a, t - {m}, pinned, completed, k - 1).1
          ensures exists i: u32 :: i < k && OwnMarker(a, i, t, q, pinned, completed)
        {
          if q != m {
            var i: u32 :| i < k - 1 && OwnMarker(a, i, t - {m}, q, pinned, completed);
            assert OwnMarker(a, i, t, q, pinned, completed);
          }
        }
      }
    }
  }

  predicate OwnMarker(a: Attempt, i: u32, t: Tree, q: Path, pinned: map<Path, FileId>, completed: map<u32, Witness>)
    requires a.Valid() && i < |a.ops|
  {
    var d := a.ops[i].path;
    && a.ops[i].CreateDirectory? && q == d + [MARKER] && q in t && t[q].data == OwnerMarker(a.transaction, i)
    && d in t && t[d].stamp.kind == Directory && d in pinned && t[d].stamp.id == pinned[d]
    && t[d].stamp.mode / 128 % 2 == 1
    && i in completed && completed[i].kind == Directory && completed[i].id == t[d].stamp.id
  }

  /** The aim of a run that is no longer known to be sound once c holds. */
  ghost function Unless(aim: Aim, c: bool): Aim {
    aim.(sound := aim.sound && !c)
  }

  class Committer {
    const config: Config
    const hash: Hash
    const store: Store
    const observer: Observer
    var tree: Tree
    var state: Option<TransactionState>
    var workspace: Option<Workspace>

    constructor (config: Config, hash: Hash, store: Store, observer: Observer,
                 tree: Tree, state: Option<TransactionState>, workspace: Option<Workspace>)
      ensures this.config == config && this.hash == hash && this.store == store && this.observer == observer
      ensures Now() == Disk(tree, state, workspace)
    {
      this.config, this.hash, this.store, this.observer := config, hash, store, observer;
      this.tree, this.state, this.workspace := tree, state, workspace;
    }

    ghost function Now(): Disk
      reads this
    {
      Disk(tree, state, workspace)
    }

    /** Process loss here leaves what one recovery turns back into `base`. */
    ghost predicate UnwindsTo(a: Attempt, p: PreparedPlan, base: Tree)
      reads this
    {
      Abandoned(config, hash, a, p, base, Now())
    }

    /** Process loss here leaves a conflict for good, and a tree that is not `base`. */
    ghost predicate StrandedFrom(base: Tree)
      reads this
    {
      Stranded(config, hash, Now()) && tree != base
    }

    /** The journal file in the transaction directory is the open journal's. */
    ghost predicate Open(a: Attempt, journal: Journal, hosts: seq<Host>, encoded: seq<byte>, count: int)
      reads this, journal
    {
      && journal.hash == hash && journal.metadata == SetsFileMode(a.ops)
      && Midway(hash, a, hosts, encoded, Now(), journal.records)
      && |journal.records| == count
    }

    /** Between operations: every operation so far recorded its intent and its completion. */
    ghost predicate Running(a: Attempt, journal: Journal, hosts: seq<Host>, encoded: seq<byte>)
      reads this, journal
    {
      Open(a, journal, hosts, encoded, 2 * |hosts| - 2)
    }

    /** A sound run from `base`. */
    ghost predicate Context(aim: Aim, a: Attempt, base: Host)
      reads this
    {
      InFlight(state) && Sound(config, hash, aim.plan, a, aim.prepared, aim.encoded, base, aim.image)
    }

    ghost predicate Usable(a: Attempt, journal: Journal)
      reads this, journal
    {
      a.Valid() && workspace.Some? && journal.Valid()
    }

    method SetHost(h: Host)
      requires workspace.Some?
      modifies this
      ensures Now() == Disk(h.tree, old(state), Some(Keep(old(workspace).value, h)))
    {
      tree := h.tree;
      workspace := Some(Keep(workspace.value, h));
    }

    method SyncJournal(journal: Journal)
      requires workspace.Some?
      modifies this
      ensures Now() == Disk(old(tree), old(state), Some(old(workspace).value.(journal := journal.file)))
    {
      workspace := Some(workspace.value.(journal := journal.file));
    }

    method WriteIntent(a: Attempt, i: nat, source: Option<Witness>, parent: Witness, journal: Journal, ghost aim: Aim, ghost hosts: seq<Host>)
      requires Usable(a, journal) && i < |a.ops|
      requires aim.sound ==>
                 && Running(a, journal, hosts, aim.encoded) && |hosts| == i + 1 && Context(aim, a, hosts[0])
                 && IntentDue(a, hosts, source, parent)
      modifies this, journal
      ensures state == old(state) && Usable(a, journal)
      ensures journal.records == old(journal.records) + [Intent(i, source, parent)]
      ensures Now() == WithJournal(old(Now()), journal.file)
      ensures aim.sound ==>
                && Open(a, journal, hosts, aim.encoded, 2 * |hosts| - 1)
                && (Clean(a, i + 1) && NextReady(a, hosts, aim.image) ==> UnwindsTo(a, aim.prepared, hosts[0].tree))
    {
      hide Midway, Sound, Abandoned, NextReady, IntentDue, Log, Clean;
      ghost var before, rs := Now(), journal.records;
      journal.Intent(i, source, parent);
      SyncJournal(journal);
      if aim.sound {
        IntentHeld(config, hash, aim, a, hosts, before, rs, source, parent);
        assert Now() == WithJournal(before, journal.file);
      }
    }

    method Mutate(a: Attempt, i: nat, source: Option<Witness>, journal: Journal, ghost aim: Aim, ghost hosts: seq<Host>)
      returns (applied: Applied)
      requires Usable(a, journal) && i < |a.ops|
      requires aim.sound ==>
                 && Open(a, journal, hosts, aim.encoded, 2 * |hosts| - 1) && |hosts| == i + 1 && Context(aim, a, hosts[0])
                 && SourceWitness(a.ops[i], hosts[i]) == Some(source)
      modifies this
      ensures state == old(state) && Usable(a, journal)
      ensures applied == Apply(a.transaction, i, a.ops[i], HostOf(old(tree), old(workspace).value), source, a.allocs[i])
      ensures Now() == Mutated(old(Now()), applied)
      ensures aim.sound ==> applied == Step(a, i, hosts[i]) && (applied.host == hosts[i] ==> Now() == old(Now()))
      ensures aim.sound && Clean(a, i + 1) && NextReady(a, hosts, aim.image) ==>
                && UnwindsTo(a, aim.prepared, hosts[0].tree)
                && (applied.Done? ==> Open(a, journal, hosts + [applied.host], aim.encoded, 2 * |hosts| - 1))
                && (applied.Failed? ==> applied.error == PermissionDenied && !Allowed(a.ops, hosts[0].tree, aim.image, i))
    {
      hide Midway, Sound, Abandoned, NextReady, Allowed, SourceWitness, Apply, Log, Clean;
      applied := Apply(a.transaction, i, a.ops[i], HostOf(tree, workspace.value), source, a.allocs[i]);
      ghost var before := Now();
      if aim.sound {
        MidwayHost(hash, a, hosts, aim.encoded, before, journal.records);
      }
      SetHost(applied.host);
      if aim.sound {
        assert Now() == Mutated(before, applied);
        if Clean(a, i + 1) && NextReady(a, hosts, aim.image) {
          MutatedSoundly(config, hash, aim, a, i, hosts, before, applied, journal.records);
        }
      }
    }

    method WriteCompletion(a: Attempt, i: nat, applied: Applied, journal: Journal, ghost aim: Aim, ghost hosts: seq<Host>)
      requires Usable(a, journal) && i < |a.ops| && applied.Done?
      requires aim.sound ==>
                 && Open(a, journal, hosts, aim.encoded, 2 * |hosts| - 3) && |hosts| == i + 2 && Context(aim, a, hosts[0])
                 && applied == Step(a, i, hosts[i]) && Clean(a, i + 1)
      modifies this, journal
      ensures state == old(state) && Usable(a, journal)
      ensures journal.records == old(journal.records) + [CompletionOf(applied, i)]
      ensures Now() == WithJournal(old(Now()), journal.file)
      ensures aim.sound ==> Running(a, journal, hosts, aim.encoded) && UnwindsTo(a, aim.prepared, hosts[0].tree)
    {
      hide Midway, Sound, Abandoned, Step, Log, Clean;
      ghost var before, rs := Now(), journal.records;
      if applied.stamp.Some? {
        journal.MetadataDone(i, applied.stamp.value);
      } else {
        journal.Done(i, applied.owner);
      }
      SyncJournal(journal);
      if aim.sound {
        CompletionHeld(config, hash, aim, a, hosts, before, rs, applied);
        assert Now() == WithJournal(before, journal.file);
      }
    }

    /** With the intent durable: host mutation and completion record. */
    method CarryOut(a: Attempt, i: nat, source: Option<Witness>, journal: Journal, faults: Faults, ghost aim: Aim, ghost hosts: seq<Host>)
      returns (r: Result<Applied, CommitError>)
      requires Usable(a, journal) && i < |a.ops| && workspace.value.journal == journal.file
      requires aim.sound ==>
                 && Open(a, journal, hosts, aim.encoded, 2 * |hosts| - 1) && |hosts| == i + 1 && Context(aim, a, hosts[0])
                 && Clean(a, i) && SourceWitness(a.ops[i], hosts[i]) == Some(source) && !faults(IntentSynced(i))
                 && (if Clashes(a.ops, i) then OnlyLinks(a, hosts) && StrandedFrom(hosts[0].tree) else NextReady(a, hosts, aim.image))
      modifies this, journal
      ensures state == old(state) && Usable(a, journal)
      ensures var applied := Apply(a.transaction, i, a.ops[i], HostOf(old(tree), old(workspace).value), source, a.allocs[i]);
              var ran := RunOn(i, faults, applied);
              && r == ran.result && journal.records == old(journal.records) + ran.records
              && Now() == WithJournal(Moved(old(Now()), ran.host), journal.file)
      ensures r.Ok? ==> r.value.Done?
      ensures r.Err? && r.error.Injected? ==> faults(r.error.point)
      ensures aim.sound && !Clashes(a.ops, i) ==>
                if r.Ok? then r.value == Step(a, i, hosts[i]) && Running(a, journal, hosts + [r.value.host], aim.encoded)
                else UnwindsTo(a, aim.prepared, hosts[0].tree) && RunFailure(r.error, a, faults, hosts[0].tree, aim.image)
      ensures aim.sound && Clashes(a.ops, i) ==>
                if r.Ok? then a.ops[i].InstallSymlink?
                else ClashFailure(r.error, a, i, faults) && (AtIntent(r.error, a, i) ==> StrandedFrom(hosts[0].tree))
    {
      hide Midway, Sound, Abandoned, NextReady, Log, SourceWitness, Step, Stranded, Clashes, Apply, Allowed;
      var applied := Mutate(a, i, source, journal, aim, hosts);
      if applied.Failed? {
        return Err(OperationFailed(applied.error));
      }
      if faults(OperationApplied(i)) {
        return Err(Injected(OperationApplied(i)));
      }
      WriteCompletion(a, i, applied, journal, Unless(aim, Clashes(a.ops, i)), hosts + [applied.host]);
      if faults(DoneSynced(i)) {
        return Err(Injected(DoneSynced(i)));
      }
      return Ok(applied);
    }

    /**
     Operation i: intent record, host mutation, completion record. Where it clashes with a marker
     it can only go through as a link, and stopping between its intent and its effect strands.
     */
    method RunOperation(a: Attempt, i: nat, pinned: map<Path, FileId>, journal: Journal, faults: Faults, ghost aim: Aim, ghost hosts: seq<Host>)
      returns (r: Result<Applied, CommitError>)
      requires Usable(a, journal) && i < |a.ops|
      requires aim.sound ==>
                 && Running(a, journal, hosts, aim.encoded) && |hosts| == i + 1 && Context(aim, a, hosts[0]) && Clean(a, i)
                 && PinHolds(hosts[i].tree, pinned, Parent(a.ops[i].path))
      modifies this, journal
      ensures state == old(state) && Usable(a, journal)
      ensures var ran := RunOf(a, i, pinned, faults, HostOf(old(tree), old(workspace).value));
              && r == ran.result && journal.records == old(journal.records) + ran.records
              && Now() == WithJournal(Moved(old(Now()), ran.host), if ran.records == [] then old(workspace).value.journal else journal.file)
      ensures r.Ok? ==> r.value.Done?
      ensures r.Err? && r.error.Injected? ==> faults(r.error.point)
      ensures aim.sound && !Clashes(a.ops, i) ==>
                if r.Ok? then r.value == Step(a, i, hosts[i]) && Running(a, journal, hosts + [r.value.host], aim.encoded)
                else UnwindsTo(a, aim.prepared, hosts[0].tree) && RunFailure(r.error, a, faults, hosts[0].tree, aim.image)
      ensures aim.sound && Clashes(a.ops, i) ==>
                if r.Ok? then a.ops[i].InstallSymlink? && !faults(IntentSynced(i))
                else ClashFailure(r.error, a, i, faults) && (AtIntent(r.error, a, i) ==> StrandedFrom(hosts[0].tree))
    {
      hide Midway, Sound, Abandoned, NextReady, Log, SourceWitness, Step, IntentDue, Hopeless, Stranded, Clashes, RunOf, RunOn, Apply;
      var d, h := Parent(a.ops[i].path), HostOf(tree, workspace.value);
      RunOfSteps(a, i, pinned, faults, h);
      if aim.sound {
        MidwayHost(hash, a, hosts, aim.encoded, Now(), journal.records);
        if Clashes(a.ops, i) {
          DueOnMarker(config, hash, aim, a, hosts, Now(), journal.records, pinned);
        } else {
          DueSoundly(config, hash, aim, a, hosts, Now(), journal.records, pinned);
        }
        MidwayUnwinds(config, hash, aim.plan, a, aim.prepared, aim.encoded, aim.image, hosts, Now(), journal.records);
      }
      if d !in pinned {
        return Err(ParentNotPinned);
      }
      var source := SourceWitness(a.ops[i], h);
      if source.None? {
        return Err(OperationFailed(HostIo));
      }
      WriteIntent(a, i, source.value, Witness(Directory, pinned[d]), journal, aim, hosts);
      if aim.sound {
        MidwayHost(hash, a, hosts, aim.encoded, Now(), journal.records);
        if Clashes(a.ops, i) {
          StrandedMidway(config, hash, aim, a, hosts, Now(), journal.records);
        }
      }
      if faults(IntentSynced(i)) {
        return Err(Injected(IntentSynced(i)));
      }
      if !PinHolds(tree, pinned, d) {
        return Err(ParentMoved);
      }
      ghost var begun := journal.records;
      r := CarryOut(a, i, source.value, journal, faults, aim, hosts);
      assert begun + journal.records[|begun|..] == old(journal.records) + ([begun[|begun| - 1]] + journal.records[|begun|..]);
    }

    /** The run after i operations, with the pins and the evidence collected on the way. */
    ghost predicate Collected(a: Attempt, journal: Journal, hosts: seq<Host>, encoded: seq<byte>, base: Host,
                              pinned: map<Path, FileId>, log: RunLog, i: nat)
      reads this, journal
    {
      && |hosts| == i + 1 && i <= |a.ops| && hosts[0] == base && Running(a, journal, hosts, encoded)
      && LogTrue(a, hosts, pinned, log, i)
    }

    method RunNext(a: Attempt, i: nat, log: RunLog, journal: Journal, faults: Faults, ghost pinned: map<Path, FileId>,
                   ghost aim: Aim, ghost base: Host, ghost hosts: seq<Host>)
      returns (r: Result<RunLog, CommitError>, ghost reached: seq<Host>)
      requires Usable(a, journal) && i < |a.ops|
      requires aim.sound ==>
                 && Collected(a, journal, hosts, aim.encoded, base, pinned, log, i) && Context(aim, a, base)
                 && AllPinned(base.tree, aim.plan, a.ops, pinned, |a.ops|) && Clean(a, i)
      modifies this, journal
      ensures state == old(state) && Usable(a, journal)
      ensures r.Err? && r.error.Injected? ==> faults(r.error.point)
      ensures aim.sound && !Clashes(a.ops, i) ==>
                if r.Ok? then Collected(a, journal, reached, aim.encoded, base, pinned, r.value, i + 1)
                else UnwindsTo(a, aim.prepared, base.tree) && RunFailure(r.error, a, faults, base.tree, aim.image)
      ensures aim.sound && Clashes(a.ops, i) ==>
                && MeetsMarker(a.ops, base.tree, aim.image, i)
                && if r.Ok? then a.ops[i].InstallSymlink? && !faults(IntentSynced(i))
                   else ClashFailure(r.error, a, i, faults) && (AtIntent(r.error, a, i) ==> StrandedFrom(base.tree))
    {
      hide Midway, Abandoned, Step, Log, LogTrue, Extended, AllPinned, RunFailure, Stranded, Clashes, ClashFailure, MeetsMarker, AtIntent;
      if aim.sound {
        PinnedSoundly(config, hash, aim, a, hosts, Now(), journal.records, pinned, log);
        MeetsSoundly(config, hash, aim, a, hosts, Now(), journal.records);
      }
      var outcome := RunOperation(a, i, log.pinned, journal, faults, aim, hosts);
      reached := hosts;
      if outcome.Err? {
        return Err(outcome.error), reached;
      }
      var applied := outcome.value;
      reached := hosts + [applied.host];
      if aim.sound && !Clashes(a.ops, i) {
        LogExtends(aim.plan, a, hosts, aim.image, i, pinned, log, applied);
      }
      r := Ok(Extended(log, a, i, applied));
    }

    /** Every operation in turn; directories it creates are pinned as it goes. */
    method RunOperations(a: Attempt, pinned: map<Path, FileId>, journal: Journal, faults: Faults, ghost aim: Aim, ghost base: Host)
      returns (r: Result<RunLog, CommitError>, ghost hosts: seq<Host>)
      requires Usable(a, journal)
      requires aim.sound ==>
                 && Running(a, journal, [base], aim.encoded) && Context(aim, a, base)
                 && AllPinned(base.tree, aim.plan, a.ops, pinned, |a.ops|)
      modifies this, journal
      ensures state == old(state) && Usable(a, journal)
      ensures r.Err? && r.error.Injected? ==> faults(r.error.point)
      ensures aim.sound && r.Ok? ==>
                if Clean(a, |a.ops|) then Collected(a, journal, hosts, aim.encoded, base, pinned, r.value, |a.ops|)
                else PassesMarker(a, base.tree, aim.image, faults)
      ensures aim.sound && r.Err? && old(state) == Some(Committing) ==>
                || (UnwindsTo(a, aim.prepared, base.tree) && RunFailure(r.error, a, faults, base.tree, aim.image))
                || PassesMarker(a, base.tree, aim.image, faults)
                || EndsOnMarker(config, hash, a, base.tree, aim.image, faults, Now(), r.error)
    {
      hide Midway, Abandoned, Log, Sound, AllPinned, RunFailure, Clashes, MeetsMarker, ClashFailure, Stranded;
      var log := RunLog(pinned, map[], map[]);
      hosts := [base];
      for i := 0 to |a.ops|
        invariant state == old(state) && Usable(a, journal)
        invariant aim.sound ==>
                    if Clean(a, i) then Collected(a, journal, hosts, aim.encoded, base, pinned, log, i)
                    else PassesMarker(a, base.tree, aim.image, faults)
      {
        var outcome, reached := RunNext(a, i, log, journal, faults, pinned, Unless(aim, !Clean(a, i)), base, hosts);
        if outcome.Err? {
          if aim.sound && Clean(a, i) && Clashes(a.ops, i) && old(state) == Some(Committing) {
            assert StopsOnMarker(config, hash, a, base.tree, aim.image, faults, Now(), outcome.error, i);
          }
          return Err(outcome.error), hosts;
        }
        if aim.sound && Clean(a, i) && Clashes(a.ops, i) {
          assert MeetsMarker(a.ops, base.tree, aim.image, i);
        }
        log := outcome.value;
        hosts := reached;
      }
      r := Ok(log);
    }

    /**
     Remove the ownership markers, last created first. In a sound run the checks made before
     each removal (the pin, the owner and the marker payload) all pass.
     */
    method ClearMarkers(a: Attempt, log: RunLog, ghost pinned: map<Path, FileId>, journal: Journal, ghost aim: Aim, ghost hosts: seq<Host>)
      returns (ok: bool)
      requires a.Valid()
      requires aim.sound ==>
                 && |hosts| == |a.ops| + 1 && Collected(a, journal, hosts, aim.encoded, hosts[0], pinned, log, |a.ops|)
                 && Context(aim, a, hosts[0]) && Clean(a, |a.ops|)
      modifies this`tree
      ensures (ok, tree) == Cleared(a, old(tree), log.pinned, log.completed, |a.ops|)
      ensures aim.sound ==> ok && tree == old(tree) - Markers(a.ops, |a.ops|)
    {
      hide Midway, Sound, Abandoned, LogTrue, MarkersFrom, Markers, MarkerReady, Clean;
      ghost var full := Now();
      if aim.sound {
        MidwayHost(hash, a, hosts, aim.encoded, full, journal.records);
      }
      var i := |a.ops|;
      MarkersFromAll(a.ops);
      while i > 0
        invariant 0 <= i <= |a.ops|
        invariant Cleared(a, tree, log.pinned, log.completed, i) == Cleared(a, old(tree), log.pinned, log.completed, |a.ops|)
        invariant aim.sound ==> tree == full.tree - MarkersFrom(a.ops, i)
      {
        i := i - 1;
        MarkersFromStep(a.ops, i);
        if a.ops[i].CreateDirectory? {
          if aim.sound {
            MarkerSoundly(config, hash, aim, a, hosts, full, journal.records, pinned, log, i);
          }
          if !MarkerReady(a, i, tree, log.pinned, Lookup(log.completed, i)) {
            return false;
          }
          tree := tree - {MarkerOf(a.ops[i].path)};
        }
      }
      ok := true;
    }

    method VerifyFinal(p: PreparedPlan, metadata: map<u32, FileStamp>, completed: map<u32, Witness>) returns (ok: bool)
      requires |p.operations| < 0x1_0000_0000
      ensures ok == Verifies(tree, p, metadata, completed)
      ensures ok <==> AsPlanned(tree, p, metadata, completed)
    {
      VerifiedIsAsPlanned(tree, p, metadata, completed);
      for i := 0 to |p.operations|
        invariant forall j :: 0 <= j < i && p.operations[j].SetDirectoryMode? ==>
          DirectoryVerified(tree, p.operations[j], Lookup(completed, j))
      {
        if p.operations[i].SetDirectoryMode? && !DirectoryVerified(tree, p.operations[i], Lookup(completed, i)) {
          return false;
        }
      }
      for i := 0 to |p.finalStates|
        invariant forall j :: 0 <= j < i ==>
          FinalVerified(tree, p.finalStates[j], StampFor(p.operations, metadata, p.finalStates[j].0, |p.operations|))
      {
        var f := p.finalStates[i];
        if !FinalVerified(tree, f, StampFor(p.operations, metadata, f.0, |p.operations|)) {
          return false;
        }
      }
      return true;
    }

    /** After the last operation: clear, verify, mark, settle. In a sound run only process loss can interfere. */
    method Complete(a: Attempt, p: PreparedPlan, log: RunLog, journal: Journal, faults: Faults, ghost pinned: map<Path, FileId>,
                    ghost aim: Aim, ghost hosts: seq<Host>)
      returns (r: Result<nat, CommitError>)
      requires Usable(a, journal) && state == Some(Committing) && |p.operations| < 0x1_0000_0000 && p == aim.prepared
      requires aim.sound ==>
                 && |hosts| == |a.ops| + 1 && Collected(a, journal, hosts, aim.encoded, hosts[0], pinned, log, |a.ops|)
                 && Context(aim, a, hosts[0]) && Clean(a, |a.ops|)
      modifies this
      ensures workspace.Some? && state in {Some(Committing), Some(Committed)}
      ensures r.Ok? ==> r.value == |p.operations| && state == Some(Committed)
      ensures r.Err? && r.error.NotAsPlanned? ==> !AsPlanned(tree, p, log.metadata, log.completed)
      ensures r.Err? && r.error.MarkerLost? <==> !Cleared(a, old(tree), log.pinned, log.completed, |a.ops|).0
      ensures tree == Cleared(a, old(tree), log.pinned, log.completed, |a.ops|).1
      ensures (workspace.value.marker && !old(workspace).value.marker) || r.Ok? ==> AsPlanned(tree, p, log.metadata, log.completed)
      ensures state == Some(Committed) ==> workspace.value.marker
      ensures r.Err? && r.error.Injected? ==> faults(r.error.point)
      ensures aim.sound && r.Err? ==> r.error.Injected? && !r.error.point.IntentSynced?
      ensures aim.sound ==> Settled(a, p, hosts[0].tree, aim.image)
    {
      hide Midway, Sound, Abandoned, LogTrue, Markers, Verifies, Finishes, Unbegun, Clean;
      ghost var full, rs := Now(), journal.records;
      var cleared := ClearMarkers(a, log, pinned, journal, aim, hosts);
      if !cleared {
        return Err(MarkerLost);
      }
      if aim.sound {
        ClearedUnwinds(config, hash, aim.plan, a, p, aim.encoded, aim.image, hosts, Now(), full, rs, Markers(a.ops, |a.ops|));
        VerifiesSoundly(config, hash, aim, a, hosts, full, rs, pinned, log);
        FinishesSoundly(config, hash, aim, a, hosts, full, rs, Some(Committing));
        FinishesSoundly(config, hash, aim, a, hosts, full, rs, Some(Committed));
      }
      if faults(OwnershipMarkersCleared) {
        return Err(Injected(OwnershipMarkersCleared));
      }
      var verified := VerifyFinal(p, log.metadata, log.completed);
      if !verified {
        return Err(NotAsPlanned);
      }
      if faults(Verified) {
        return Err(Injected(Verified));
      }
      workspace := Some(workspace.value.(marker := true));
      if faults(CommitMarkerSynced) {
        return Err(Injected(CommitMarkerSynced));
      }
      state := Some(Committed);
      if faults(CommittedStatePersisted) {
        return Err(Injected(CommittedStatePersisted));
      }
      return Ok(|p.operations|);
    }

    /** A durable plan and an empty journal: no operation has begun. */
    ghost predicate NothingBegun(a: Attempt, p: PreparedPlan)
      reads this
    {
      workspace.Some? && Unbegun(config, hash, a, p, workspace.value)
    }

    /** Put the content on the stage, between two fault points. */
    method Stage(a: Attempt, faults: Faults, ids: Identities, ghost p: PreparedPlan)
      returns (r: Result<(), CommitError>)
      requires NothingBegun(a, p) && StagingShape(a.ops)
      modifies this`workspace
      ensures NothingBegun(a, p) && workspace.value.journal == old(workspace).value.journal
      ensures workspace.value.quarantine == old(workspace).value.quarantine && workspace.value.plan == old(workspace).value.plan
      ensures r.Ok? ==>
                && StagedUpTo(a.ops, |a.ops|, workspace.value.staged, workspace.value.links, ids)
                && HoldsBytes(workspace.value.staged) && HoldsBytes(workspace.value.links)
      ensures r.Err? ==> StageFailure(r.error, store, a, faults)
    {
      if faults(PlanSynced) {
        return Err(Injected(PlanSynced));
      }
      var staged, content, links := StageContent(store, a.ops, ids);
      workspace := Some(workspace.value.(staged := content, links := links));
      if !staged {
        return Err(StagingFailed);
      }
      if faults(StageSynced) {
        return Err(Injected(StageSynced));
      }
      return Ok(());
    }

    /** Revalidate the dependencies and pin the parents; both only read the tree. */
    method Inspect(a: Attempt, faults: Faults, plan: CommitPlan, observed: seq<Path>, written: seq<Path>)
      returns (r: Result<map<Path, FileId>, CommitError>)
      requires a.Valid() && state == Some(Revalidating)
      requires Lists(observed, plan.readSet) && Lists(written, plan.writeSet)
      modifies this`state
      ensures r.Ok? ==> state == Some(Revalidating) && AllPinned(tree, plan, a.ops, r.value, |a.ops|)
      ensures r.Ok? && config.maxConflicts > 0 ==> Current(observer, tree, plan, observed, written)
      ensures r.Err? ==> state in {Some(Revalidating), Some(Stale)}
      ensures r.Err? ==> InspectFailure(r.error, config, observer, tree, plan, a, faults, observed, written)
      ensures r.Err? ==> (state == Some(Stale) <==> r.error.StaleDependencies? || r.error.StaleParents?)
    {
      var conflicts := Revalidate(config, observer, tree, plan, observed, written);
      if conflicts.Err? {
        return Err(RevalidationFailed);
      }
      if conflicts.value != [] {
        state := Some(Stale);
        return Err(StaleDependencies(conflicts.value));
      }
      var pinnedAll, pinned := PinParents(tree, plan, a.ops);
      if !pinnedAll {
        state := Some(Stale);
        return Err(StaleParents);
      }
      if faults(Revalidated) {
        return Err(Injected(Revalidated));
      }
      if config.maxConflicts > 0 {
        RevalidationIsExact(observer, tree, plan, observed, written, config.maxConflicts);
      }
      return Ok(pinned);
    }

    /** Everything before the first mutation, ending with the durable decision to commit. */
    method Ready(a: Attempt, faults: Faults, ids: Identities, plan: CommitPlan, observed: seq<Path>, written: seq<Path>, ghost p: PreparedPlan)
      returns (r: Result<map<Path, FileId>, CommitError>)
      requires NothingBegun(a, p) && StagingShape(a.ops) && state == Some(Revalidating)
      requires Lists(observed, plan.readSet) && Lists(written, plan.writeSet)
      modifies this`workspace, this`state
      ensures NothingBegun(a, p) && workspace.value.journal == old(workspace).value.journal
      ensures workspace.value.quarantine == old(workspace).value.quarantine && workspace.value.plan == old(workspace).value.plan
      ensures r.Ok? ==>
                && state == Some(Committing) && AllPinned(tree, plan, a.ops, r.value, |a.ops|)
                && StagedUpTo(a.ops, |a.ops|, workspace.value.staged, workspace.value.links, ids)
                && HoldsBytes(workspace.value.staged) && HoldsBytes(workspace.value.links)
      ensures state in {Some(Revalidating), Some(Stale), Some(Committing)}
      ensures state == Some(Committing) && config.maxConflicts > 0 ==> Current(observer, tree, plan, observed, written)
      ensures r.Err? ==> ReadyFailure(r.error, config, store, observer, tree, plan, a, faults, observed, written)
      ensures r.Err? ==> (state == Some(Stale) <==> r.error.StaleDependencies? || r.error.StaleParents?)
    {
      var staged := Stage(a, faults, ids, p);
      if staged.Err? {
        return Err(staged.error);
      }
      r := Inspect(a, faults, plan, observed, written);
      if r.Err? {
        return;
      }
      state := Some(Committing);
      if faults(CommitStatePersisted) {
        return Err(Injected(CommitStatePersisted));
      }
    }

    /** Where a commit may be found: each case recovers in its own way. */
    ghost predicate Settled(a: Attempt, p: PreparedPlan, base: Tree, image: Image)
      reads this
    {
      SettledDisk(config, hash, a, p, base, Now(), image)
    }

    /** From pinned parents to the durable outcome. */
    method Execute(a: Attempt, p: PreparedPlan, pinned: map<Path, FileId>, journal: Journal, faults: Faults, ghost aim: Aim, ghost base: Host)
      returns (r: Result<nat, CommitError>)
      requires Usable(a, journal) && state == Some(Committing) && |p.operations| < 0x1_0000_0000 && p == aim.prepared
      requires aim.sound ==>
                 && Running(a, journal, [base], aim.encoded) && Context(aim, a, base)
                 && AllPinned(base.tree, aim.plan, a.ops, pinned, |a.ops|)
      modifies this, journal
      ensures workspace.Some? && state in {Some(Committing), Some(Committed)}
      ensures r.Ok? ==> r.value == |p.operations| && state == Some(Committed)
      ensures r.Err? && r.error.Injected? ==> faults(r.error.point)
      ensures aim.sound ==> Ends(config, hash, a, p, base.tree, aim.image, faults, Now(), r)
    {
      hide Midway, Log, Sound, AllPinned, Evidence, PinnedSince, Finishes, Unbegun, Allowed, EndsOnMarker, PassesMarker, Clashes;
      var log, hosts := RunOperations(a, pinned, journal, faults, aim, base);
      if log.Err? {
        return Err(log.error);
      }
      r := Complete(a, p, log.value, journal, faults, pinned, Unless(aim, !Clean(a, |a.ops|)), hosts);
    }

    /** The run begins, soundly when the live tree is still what the execution saw. */
    lemma BeginsSoundly(a: Attempt, p: PreparedPlan, journal: Journal, aim: Aim, ids: Identities, snapshot: Tree, final: Image)
      requires Accepted(config, hash, aim.plan, a, p, aim.encoded, snapshot, final) && Snapshotted(aim.plan, snapshot)
      requires Trusted(snapshot, tree) && StillTrue(aim.plan, tree) && Fresh(a, tree, ids)
      requires aim.prepared == p && aim.image == Overlay(tree, aim.plan, final)
      requires NothingBegun(a, p) && workspace.value.plan == aim.encoded && workspace.value.quarantine == map[] && state == Some(Committing)
      requires journal.hash == hash && journal.metadata == SetsFileMode(a.ops) && journal.records == []
      requires StagedUpTo(a.ops, |a.ops|, workspace.value.staged, workspace.value.links, ids)
      requires HoldsBytes(workspace.value.staged) && HoldsBytes(workspace.value.links)
      ensures var base := HostOf(tree, workspace.value);
              Running(a, journal, [base], aim.encoded) && Context(aim, a, base)
    {
      hide Sound, Accepted, StillTrue, Trusted, Snapshotted, Overlay, StagedUpTo, Fresh, HoldsBytes;
      SoundFromHere(config, hash, aim.plan, a, p, aim.encoded, snapshot, final, HostOf(tree, workspace.value), ids);
      MidwayAtFirst(config, hash, aim, a, p, HostOf(tree, workspace.value), Now());
    }

    /**
     The commit, from the durable plan to the durable outcome, on any live tree. Before it
     enters Committing it changes nothing, and with a positive conflict bound it enters only a
     tree that is still what the execution saw. From there on, wherever it stops, one recovery
     either restores the tree it started from or settles that tree overlaid with the plan, the
     commit marker telling which.
     */
    method PrepareAndCommit(a: Attempt, p: PreparedPlan, encoded: seq<byte>, faults: Faults, ids: Identities,
                            plan: CommitPlan, observed: seq<Path>, written: seq<Path>, ghost snapshot: Tree, ghost final: Image)
      returns (r: Result<nat, CommitError>)
      requires Accepted(config, hash, plan, a, p, encoded, snapshot, final) && Snapshotted(plan, snapshot)
      requires Trusted(snapshot, tree) && Fresh(a, tree, ids)
      requires state == Some(Revalidating) && workspace.None?
      requires Lists(observed, plan.readSet) && Lists(written, plan.writeSet)
      modifies this
      ensures workspace.Some? && state in {Some(Revalidating), Some(Stale), Some(Committing), Some(Committed)}
      ensures r.Ok? ==> r.value == |p.operations| && state == Some(Committed)
      ensures state in {Some(Revalidating), Some(Stale)} ==>
                && NothingBegun(a, p) && tree == old(tree)
                && r.Err? && ReadyFailure(r.error, config, store, observer, tree, plan, a, faults, observed, written)
                && (state == Some(Stale) <==> r.error.StaleDependencies? || r.error.StaleParents?)
      ensures state in {Some(Committing), Some(Committed)} && config.maxConflicts > 0 ==>
                Current(observer, old(tree), plan, observed, written)
      ensures Current(observer, old(tree), plan, observed, written) && AvoidsMarkers(a.ops, old(tree), plan, final) ==>
                && Settled(a, p, old(tree), Overlay(old(tree), plan, final))
                && (r.Err? ==> CommitFailure(r.error, config, store, observer, old(tree), plan, a, faults, observed, written,
                                             Overlay(old(tree), plan, final)))
      ensures Current(observer, old(tree), plan, observed, written) ==>
                forall k: nat :: k < |a.ops| && MeetsMarker(a.ops, old(tree), Overlay(old(tree), plan, final), k) ==>
                  && StopsAsMet(config, hash, a, old(tree), faults, Now(), r, k)
                  && (r.Err? ==> MetFailure(r.error, config, store, observer, old(tree), plan, a, faults, observed, written, k))
    {
      hide Log, Sound, Current, Overlay, Trusted, StillTrue, Snapshotted, Midway, Abandoned, Finishes, StagedUpTo, HoldsBytes, Fresh, Ends, MeetsMarker, StopsAsMet, RunFailure, ReadyFailure, Unbegun, SettledDisk, AtIntent, PlanHeld, Planned;
      var journal := new Journal.Create(hash, SetsFileMode(a.ops));
      workspace := Some(Workspace(encoded, journal.file, map[], map[], map[], false));
      BeginsAt(config, hash, plan, a, p, encoded, snapshot, final, journal.file);
      var ready := Ready(a, faults, ids, plan, observed, written, p);
      if ready.Err? {
        EarlyIsSettled(config, hash, a, p, Now(), Overlay(tree, plan, final));
        EarlyIsUnmet(config, hash, store, observer, tree, plan, a, faults, observed, written, Now(), ready.error);
        return Err(ready.error);
      }
      ghost var aim := Aim(plan, p, encoded, Overlay(tree, plan, final),
                           Current(observer, tree, plan, observed, written));
      if aim.sound {
        CurrentIsStillTrue(observer, tree, plan, observed, written);
        BeginsSoundly(a, p, journal, aim, ids, snapshot, final);
      }
      r := Execute(a, p, ready.value, journal, faults, aim, HostOf(tree, workspace.value));
      if aim.sound {
        EndsDecide(config, hash, a, p, old(tree), aim.image, faults, Now(), r);
      }
    }

    /** What the committer makes of its own outcome, if it lives to see it. */
    method Resolve(r: Result<nat, CommitError>)
      requires workspace.Some? && (r.Ok? ==> state == Some(Committed))
      modifies this
      ensures Now() == Resolved(old(Now()))
    {
      if state == Some(Revalidating) {
        state := Some(TransactionState.Failed);
        workspace := None;
      } else if state == Some(Committing) {
        state := Some(RecoveryRequired);
      } else if state == Some(Committed) || state == Some(Stale) {
        workspace := None;
      }
    }

    /** Reverse what the journal says was begun, last operation first, down to operation `stop`. */
    method Rollback(p: PreparedPlan, js: JournalState, stop: nat) returns (ok: bool)
      requires workspace.Some? && Reversal(p).Valid() && stop <= |p.operations|
      modifies this
      ensures state == old(state) && workspace.Some?
      ensures var result := Reentry.RollbackTo(Reversal(p), js, |p.operations|, stop, HostOf(old(tree), old(workspace).value));
              && ok == result.Restored? && tree == result.host.tree
              && workspace == Some(Keep(old(workspace).value, result.host))
    {
      var a := Reversal(p);
      var h := HostOf(tree, workspace.value);
      var i := |p.operations|;
      ok := true;
      while i > stop && ok
        invariant stop <= i <= |p.operations|
        invariant ok ==> Reentry.RollbackTo(a, js, i, stop, h)
                         == Reentry.RollbackTo(a, js, |p.operations|, stop, HostOf(old(tree), old(workspace).value))
        invariant !ok ==> Stuck(h) == Reentry.RollbackTo(a, js, |p.operations|, stop, HostOf(old(tree), old(workspace).value))
      {
        i := i - 1;
        match RollbackOne(a, js, i, h) {
          case Restored(h') => h := h';
          case Stuck(h') => h, ok := h', false;
        }
      }
      SetHost(h);
    }

    /** The durable plan and journal of the transaction directory, or why recovery refuses it. */
    method ReadLeftovers() returns (r: Result<(PreparedPlan, JournalState), Refusal>)
      requires workspace.Some?
      ensures match ReadPlan(config, hash, workspace.value)
              case Err(e) => r == Err(e)
              case Ok(p) =>
                match ReadLog(hash, config.maxJournalBytes, workspace.value.journal)
                case Err(e) => r == Err(BadJournal(e))
                case Ok(js) => r == Ok((p, js))
    {
      var plan := ReadPlan(config, hash, workspace.value);
      if plan.Err? {
        return Err(plan.error);
      }
      var journal := ReadJournal(hash, config.maxJournalBytes, workspace.value.journal);
      if journal.Err? {
        return Err(BadJournal(journal.error));
      }
      return Ok((plan.value, journal.value));
    }

    /** Settle the leftovers of the transaction, or report why they must be kept. */
    method Recover() returns (outcome: Outcome)
      modifies this
      ensures (Now(), outcome) == RecoverDisk(config, hash, old(Now()))
    {
      hide Decode, ReadLog, Verifies;
      if workspace.None? {
        return NothingToDo;
      }
      var read := ReadLeftovers();
      if read.Err? {
        return Refused(read.error);
      }
      var (p, js) := read.value;
      if workspace.value.marker {
        var verified := VerifyFinal(p, js.metadata, js.completed);
        if !verified || (state.Some? && state.value !in {Committing, RecoveryRequired, Committed}) {
          return Conflicted;
        }
        state := if state.Some? then Some(Committed) else None;
        workspace := None;
        return Finalized;
      }
      if state == Some(Committed) {
        return Conflicted;
      }
      RollbackToIsAll(Reversal(p), js, |p.operations|, HostOf(tree, workspace.value));
      if state == Some(Committing) {
        state := Some(RecoveryRequired);
      }
      var restored := Rollback(p, js, 0);
      if !restored || (state.Some? && state.value !in {RecoveryRequired, Revalidating, Reserved, TransactionState.Failed}) {
        return Conflicted;
      }
      state := if state.Some? then Some(TransactionState.Failed) else None;
      workspace := None;
      return RolledBack;
    }

    /** The same, with the process lost before the transaction directory is removed. */
    method RecoverLost(loss: Loss)
      modifies this
      ensures Now() == RecoveryLost(config, hash, old(Now()), loss)
    {
      hide Decode, ReadLog, Verifies;
      if workspace.None? {
        return;
      }
      var read := ReadLeftovers();
      if read.Err? {
        return;
      }
      var (p, js) := read.value;
      if workspace.value.marker {
        var verified := VerifyFinal(p, js.metadata, js.completed);
        if verified && loss.Settling? && state.Some? && state.value in {Committing, RecoveryRequired, Committed} {
          state := Some(Committed);
        }
        return;
      }
      if state == Some(Committed) {
        return;
      }
      ghost var before := state;
      if state == Some(Committing) {
        state := Some(RecoveryRequired);
      }
      var restored := Rollback(p, js, Stop(loss, |p.operations|));
      if loss.Settling? && restored && state.Some? && state.value in {RecoveryRequired, Revalidating, Reserved, TransactionState.Failed} {
        state := Some(TransactionState.Failed);
      }
    }

    /**
     Crash atomicity: commit under any fault injection, then either lose the process or let it
     resolve its own failure, then recover once. If the tree is still what the execution saw, or
     the conflict bound is positive, so that a tree that is not turns the transaction stale, then
     the tree is the one it started from or that tree overlaid with the plan, the store agrees,
     and nothing is left behind. Only a transaction that went stale and then lost its process is
     left for an operator, with the tree as it was.
     */
    method CommitThenRecover(a: Attempt, p: PreparedPlan, encoded: seq<byte>, faults: Faults, lost: bool, ids: Identities,
                             plan: CommitPlan, observed: seq<Path>, written: seq<Path>, ghost snapshot: Tree, ghost final: Image)
      returns (r: Result<nat, CommitError>, outcome: Outcome)
      requires Accepted(config, hash, plan, a, p, encoded, snapshot, final) && Snapshotted(plan, snapshot)
      requires Trusted(snapshot, tree) && Fresh(a, tree, ids)
      requires state == Some(Revalidating) && workspace.None?
      requires Lists(observed, plan.readSet) && Lists(written, plan.writeSet)
      modifies this
      ensures Guarded(config, observer, old(tree), plan, observed, written) && AvoidsMarkers(a.ops, old(tree), plan, final) && state != Some(Stale) ==>
                Decided(Now(), old(tree), Overlay(old(tree), plan, final)) && !outcome.Conflicted? && !outcome.Refused?
      ensures state == Some(Stale) ==>
                && tree == old(tree) && r.Err? && (r.error.StaleDependencies? || r.error.StaleParents?)
                && (if lost then outcome == Conflicted && workspace.Some? else outcome == NothingToDo && workspace.None?)
      ensures config.maxConflicts > 0 && !Current(observer, old(tree), plan, observed, written) ==>
                tree == old(tree) && r.Err? && state in {Some(Stale), Some(TransactionState.Failed)}
      ensures r.Ok? && Guarded(config, observer, old(tree), plan, observed, written) && AvoidsMarkers(a.ops, old(tree), plan, final) ==> state == Some(Committed)
      ensures Current(observer, old(tree), plan, observed, written) ==>
                forall k: nat :: k < |a.ops| && MeetsMarker(a.ops, old(tree), Overlay(old(tree), plan, final), k) ==>
                  && (faults(IntentSynced(k)) || !a.ops[k].InstallSymlink? ==> r.Err?)
                  && (r.Err? ==> MetFailure(r.error, config, store, observer, old(tree), plan, a, faults, observed, written, k))
                  && (r.Err? && AtIntent(r.error, a, k) ==>
                        outcome == Conflicted && state == Some(RecoveryRequired) && workspace.Some? && tree != old(tree))
    {
      hide PlanHeld, Planned, Unbegun, Abandoned, Finishes, RecoverDisk, CommitFailure, Current, Overlay, MeetsMarker, MetFailure, AtIntent, Stranded;
      r := PrepareAndCommit(a, p, encoded, faults, ids, plan, observed, written, snapshot, final);
      RecoversAs(config, hash, a, p, old(tree), Now(), Overlay(old(tree), plan, final), lost);
      if Stranded(config, hash, Now()) && state == Some(Committing) {
        StrandedStays(config, hash, Now(), lost);
      }
      if !lost {
        Resolve(r);
      }
      outcome := Recover();
    }

    /**
     The same with the recovery itself lost anywhere, and run again. The tree is the one the
     commit started from or that tree overlaid with the plan; or else the second recovery reports
     a conflict, having changed nothing and dropped nothing. It does so only for a stale
     transaction, or where it meets an operation, other than a mode change, that was undone before.
     */
    method CommitLoseRecovery(a: Attempt, p: PreparedPlan, encoded: seq<byte>, faults: Faults, loss: Loss, ids: Identities,
                              plan: CommitPlan, observed: seq<Path>, written: seq<Path>, ghost snapshot: Tree, ghost final: Image)
      returns (r: Result<nat, CommitError>, outcome: Outcome, ghost between: Disk)
      requires Accepted(config, hash, plan, a, p, encoded, snapshot, final) && Snapshotted(plan, snapshot)
      requires Trusted(snapshot, tree) && Fresh(a, tree, ids)
      requires state == Some(Revalidating) && workspace.None?
      requires Lists(observed, plan.readSet) && Lists(written, plan.writeSet)
      modifies this
      ensures Guarded(config, observer, old(tree), plan, observed, written) && AvoidsMarkers(a.ops, old(tree), plan, final) ==>
                if outcome == Conflicted
                then Now() == between && workspace.Some? && (state == Some(Stale) || Repeats(a.ops, loss))
                else Decided(Now(), old(tree), Overlay(old(tree), plan, final))
    {
      hide PlanHeld, Planned, Unbegun, Abandoned, Finishes, RecoverDisk, RecoveryLost, CommitFailure, Current, Overlay, MeetsMarker, MetFailure, AtIntent, ClashFailure;
      r := PrepareAndCommit(a, p, encoded, faults, ids, plan, observed, written, snapshot, final);
      if Guarded(config, observer, old(tree), plan, observed, written) && AvoidsMarkers(a.ops, old(tree), plan, final) {
        SettledTwice(config, hash, a, p, old(tree), Now(), Overlay(old(tree), plan, final), loss);
      }
      RecoverLost(loss);
      between := Now();
      outcome := Recover();
    }
  }

  /** The run puts nothing where it keeps its markers. */
  ghost predicate AvoidsMarkers(ops: seq<Operation>, live: Tree, plan: CommitPlan, final: Image) {
    (forall op :: op in ops ==> op.path != []) && !ReachesMarker(ops, live, Overlay(live, plan, final))
  }

  /** Revalidation stands between a changed tree and the commit, or the tree did not change. */
  ghost predicate Guarded(c: Config, o: Observer, t: Tree, plan: CommitPlan, observed: seq<Path>, written: seq<Path>)
    requires (forall q :: q in observed ==> q in plan.readSet) && (forall q :: q in written ==> q in plan.writeSet)
  {
    c.maxConflicts > 0 || Current(o, t, plan, observed, written)
  }

  /** The disk after a mutation. */
  function Mutated(d: Disk, applied: Applied): Disk
    requires d.workspace.Some?
  {
    Disk(applied.host.tree, d.state, Some(Keep(d.workspace.value, applied.host)))
  }

  lemma MutatedSoundly(c: Config, hash: Hash, aim: Aim, a: Attempt, i: nat, hosts: seq<Host>, before: Disk, applied: Applied, rs: seq<Record>)
    requires Midway(hash, a, hosts, aim.encoded, before, rs) && |rs| == 2 * |hosts| - 1 && |hosts| == i + 1 <= |a.ops|
    requires Sound(c, hash, aim.plan, a, aim.prepared, aim.encoded, hosts[0], aim.image) && NextReady(a, hosts, aim.image)
    requires applied == Step(a, i, hosts[i])
    requires Clean(a, |hosts|)
    ensures Abandoned(c, hash, a, aim.prepared, hosts[0].tree, Mutated(before, applied))
    ensures applied.Done? ==> Midway(hash, a, hosts + [applied.host], aim.encoded, Mutated(before, applied), rs)
    ensures applied.Failed? ==> applied.error == PermissionDenied && !Allowed(a.ops, hosts[0].tree, aim.image, i)
  {
    hide Log, Recorded, Sound, Allowed;
    var after := Mutated(before, applied);
    if applied.Failed? {
      assert after == before;
      MidwayUnwinds(c, hash, aim.plan, a, aim.prepared, aim.encoded, aim.image, hosts, after, rs);
    } else {
      ExtendExecution(a, hosts, applied.host);
      RecordedExtends(a, hosts, applied.host, rs);
      MidwayUnwinds(c, hash, aim.plan, a, aim.prepared, aim.encoded, aim.image, hosts + [applied.host], after, rs);
    }
  }

  lemma MidwayAtFirst(c: Config, hash: Hash, aim: Aim, a: Attempt, p: PreparedPlan, base: Host, d: Disk)
    requires d.workspace.Some? && Unbegun(c, hash, a, p, d.workspace.value) && d.workspace.value.plan == aim.encoded
    requires base == HostOf(d.tree, d.workspace.value) && WellFormed(base.tree)
    ensures Midway(hash, a, [base], aim.encoded, d, [])
  {
    hide Log, WellFormed;
  }

  /** Every check before a marker is cleared passes in a sound run. */
  lemma MarkerSoundly(c: Config, hash: Hash, aim: Aim, a: Attempt, hosts: seq<Host>, full: Disk, rs: seq<Record>,
                      pinned: map<Path, FileId>, log: RunLog, i: nat)
    requires Midway(hash, a, hosts, aim.encoded, full, rs) && |hosts| == |a.ops| + 1
    requires Sound(c, hash, aim.plan, a, aim.prepared, aim.encoded, hosts[0], aim.image)
    requires LogTrue(a, hosts, pinned, log, |a.ops|) && i < |a.ops| && a.ops[i].CreateDirectory?
    requires Clean(a, |a.ops|)
    ensures MarkerReady(a, i, full.tree - MarkersFrom(a.ops, i + 1), log.pinned, Lookup(log.completed, i))
  {
    hide ExactDiff, Orderly, Quotable, Staged, Reentry.Private, Log, Recorded, PlanHeld, Roomy, MarkersFrom, MarkerReady, NoMarkerClash;
    ClashesSayAll(aim.plan, a, hosts[0].tree, aim.image);
    MarkerCleared(aim.plan, a, hosts, aim.image, i, full.tree - MarkersFrom(a.ops, i + 1), pinned, log);
  }

  lemma FinishedSoundly(c: Config, hash: Hash, aim: Aim, a: Attempt, hosts: seq<Host>, full: Disk, rs: seq<Record>)
    requires Midway(hash, a, hosts, aim.encoded, full, rs) && |hosts| == |a.ops| + 1
    requires Sound(c, hash, aim.plan, a, aim.prepared, aim.encoded, hosts[0], aim.image)
    requires Clean(a, |a.ops|)
    ensures CrashRecovery.Finished(aim.plan, a, hosts, aim.image, full.tree - Markers(a.ops, |a.ops|))
    ensures aim.prepared.operations == a.ops && aim.prepared.finalStates == FinalStates(aim.plan.diff)
    ensures Roomy(c, a) && PlanHeld(c, hash, a, aim.prepared, aim.encoded)
  {
    hide ExactDiff, Orderly, Quotable, Staged, Reentry.Private, Log, Recorded, Roomy, Markers, NoMarkerClash;
    ClashesSayAll(aim.plan, a, hosts[0].tree, aim.image);
  }

  /** The final verification passes. */
  lemma VerifiesSoundly(c: Config, hash: Hash, aim: Aim, a: Attempt, hosts: seq<Host>, full: Disk, rs: seq<Record>,
                        pinned: map<Path, FileId>, log: RunLog)
    requires Midway(hash, a, hosts, aim.encoded, full, rs) && |hosts| == |a.ops| + 1
    requires Sound(c, hash, aim.plan, a, aim.prepared, aim.encoded, hosts[0], aim.image)
    requires LogTrue(a, hosts, pinned, log, |a.ops|)
    requires Clean(a, |a.ops|)
    ensures Verifies(full.tree - Markers(a.ops, |a.ops|), aim.prepared, log.metadata, log.completed)
  {
    hide Midway, Sound, CrashRecovery.Finished, Markers, Verifies, Evidence, PinnedSince;
    FinishedSoundly(c, hash, aim, a, hosts, full, rs);
    FinishedVerifies(aim.plan, aim.prepared, a, hosts, aim.image, full.tree - Markers(a.ops, |a.ops|), log.completed, log.metadata);
  }

  /** And once the commit marker is durable, recovery finalizes. */
  lemma FinishesSoundly(c: Config, hash: Hash, aim: Aim, a: Attempt, hosts: seq<Host>, full: Disk, rs: seq<Record>,
                        state: Option<TransactionState>)
    requires Midway(hash, a, hosts, aim.encoded, full, rs) && |hosts| == |a.ops| + 1 && |rs| == 2 * |a.ops|
    requires Sound(c, hash, aim.plan, a, aim.prepared, aim.encoded, hosts[0], aim.image)
    requires Clean(a, |a.ops|)
    ensures Finishes(c, hash, Marked(full, full.tree - Markers(a.ops, |a.ops|), state), aim.image)
  {
    hide Recorded, CrashRecovery.Finished, Markers, Sound, RecoverDisk, PlanHeld, Realizes, Clean;
    var d := Marked(full, full.tree - Markers(a.ops, |a.ops|), state);
    FinishedSoundly(c, hash, aim, a, hosts, full, rs);
    HoldsWhole(hash, a, hosts, rs);
    HeldFits(hash, a, hosts, d.workspace.value.journal, rs);
    forall s | s in {Committing, RecoveryRequired, Committed}
      ensures FinishesFrom(c, hash, d, s)
    {
      MarkedIsFinalized(c, hash, aim.plan, a, aim.prepared, hosts, aim.image, d.(state := Some(s)), rs);
    }
    FinishedRealizes(aim.plan, a, hosts, aim.image, d.tree);
  }

  function Marked(d: Disk, tree: Tree, state: Option<TransactionState>): Disk
    requires d.workspace.Some?
  {
    Disk(tree, state, Some(d.workspace.value.(marker := true)))
  }

  /** A plan that carries over to the live tree, staged with fresh identities, runs soundly. */
  lemma SoundFromHere(c: Config, hash: Hash, plan: CommitPlan, a: Attempt, p: PreparedPlan, encoded: seq<byte>,
                      snapshot: Tree, final: Image, base: Host, ids: Identities)
    requires Accepted(c, hash, plan, a, p, encoded, snapshot, final) && Snapshotted(plan, snapshot)
    requires Trusted(snapshot, base.tree) && StillTrue(plan, base.tree) && Fresh(a, base.tree, ids)
    requires StagedUpTo(a.ops, |a.ops|, base.staged, base.links, ids) && HoldsBytes(base.staged) && HoldsBytes(base.links)
    requires base.quarantine == map[]
    ensures Sound(c, hash, plan, a, p, encoded, base, Overlay(base.tree, plan, final)) && WellFormed(base.tree)
  {
    var image := Overlay(base.tree, plan, final);
    ExactOnLive(plan, snapshot, final, base.tree);
    StagedIsScenario(plan, a, base, image, ids);
    StagedIsPrivate(plan, a, base.tree, image, base, ids);
    ParentsStillObserved(plan, a, base.tree, image);
  }

  /** With the commit marker durable, recovery settles the planned tree, whatever the store says of the commit. */
  ghost predicate Finishes(c: Config, hash: Hash, d: Disk, image: Image) {
    && d.workspace.Some? && d.workspace.value.marker && Realizes(d.tree, image)
    && forall s :: s in {Committing, RecoveryRequired, Committed} ==> FinishesFrom(c, hash, d, s)
  }

  predicate FinishesFrom(c: Config, hash: Hash, d: Disk, s: TransactionState) {
    RecoverDisk(c, hash, d.(state := Some(s))) == (Disk(d.tree, Some(Committed), None), Finalized)
  }

  ghost predicate SettledDisk(c: Config, hash: Hash, a: Attempt, p: PreparedPlan, base: Tree, d: Disk, image: Image) {
    && d.workspace.Some?
    && (|| (Unbegun(c, hash, a, p, d.workspace.value) && d.tree == base && d.state in {Some(Revalidating), Some(Stale), Some(Committing)})
        || (Abandoned(c, hash, a, p, base, d) && d.state == Some(Committing))
        || (Finishes(c, hash, d, image) && d.state in {Some(Committing), Some(Committed)}))
  }

  /** The base with a failed transaction, or the planned tree with a committed one. */
  ghost predicate Decided(d: Disk, base: Tree, image: Image) {
    && d.workspace.None?
    && ((d.state == Some(TransactionState.Failed) && d.tree == base) || (d.state == Some(Committed) && Realizes(d.tree, image)))
  }

  /** What one recovery makes of each case, before and after the committer noted its own failure. */
  lemma SettledOnce(c: Config, hash: Hash, a: Attempt, p: PreparedPlan, base: Tree, d: Disk, image: Image)
    requires Roomy(c, a) && SettledDisk(c, hash, a, p, base, d, image)
    ensures d.state == Some(Stale) ==> RecoverDisk(c, hash, d) == (d, Conflicted)
    ensures d.state != Some(Stale) ==>
              var (d', o) := RecoverDisk(c, hash, d);
              Decided(d', base, image) && (o == RolledBack || o == Finalized) && (d.state == Some(Committed) ==> d'.state == d.state)
    ensures d.state == Some(Committing) ==>
              var (d', o) := RecoverDisk(c, hash, d.(state := Some(RecoveryRequired)));
              Decided(d', base, image) && (o == RolledBack || o == Finalized)
  {
    hide RecoverDisk, LeftBehind, PlanHeld, Realizes;
    var claimed := d.(state := Some(RecoveryRequired));
    if Unbegun(c, hash, a, p, d.workspace.value) && d.tree == base {
      UnbegunRecovers(c, hash, a, p, d);
      UnbegunRecovers(c, hash, a, p, claimed);
    } else if Abandoned(c, hash, a, p, base, d) && d.state == Some(Committing) {
      AbandonedUnwinds(c, hash, a, p, base, d);
      AbandonedInAnyState(c, hash, a, p, base, d, claimed);
      AbandonedUnwinds(c, hash, a, p, base, claimed);
    } else {
      assert FinishesFrom(c, hash, d, d.state.value) && FinishesFrom(c, hash, d, RecoveryRequired);
    }
  }

  /** The disk once the committer noted its own failure, or cleaned up behind its success. */
  function Resolved(d: Disk): Disk {
    match d.state
    case Some(Revalidating) => Disk(d.tree, Some(TransactionState.Failed), None)
    case Some(Committing) => d.(state := Some(RecoveryRequired))
    case Some(Committed) => d.(workspace := None)
    case Some(Stale) => d.(workspace := None)
    case _ => d
  }

  lemma RecoversAs(c: Config, hash: Hash, a: Attempt, p: PreparedPlan, base: Tree, d: Disk, image: Image, lost: bool)
    requires Roomy(c, a) && d.workspace.Some? && d.state in {Some(Revalidating), Some(Stale), Some(Committing), Some(Committed)}
    requires d.state in {Some(Revalidating), Some(Stale)} ==> Unbegun(c, hash, a, p, d.workspace.value) && d.tree == base
    ensures var (d', o) := RecoverDisk(c, hash, if lost then d else Resolved(d));
            && (d'.state == Some(Stale) <==> d.state == Some(Stale))
            && (d.state == Some(Stale) ==>
                  d'.tree == base && if lost then o == Conflicted && d'.workspace.Some? else o == NothingToDo && d'.workspace.None?)
            && (d.state == Some(Revalidating) ==> d'.tree == base && d'.state == Some(TransactionState.Failed))
            && (SettledDisk(c, hash, a, p, base, d, image) && d.state != Some(Stale) ==>
                  Decided(d', base, image) && !o.Conflicted? && !o.Refused? && (d.state == Some(Committed) ==> d'.state == d.state))
  {
    hide RecoverDisk, Abandoned, FinishesFrom, Unbegun;
    if SettledDisk(c, hash, a, p, base, d, image) {
      SettledOnce(c, hash, a, p, base, d, image);
    }
    if d.state in {Some(Revalidating), Some(Stale)} {
      UnbegunRecovers(c, hash, a, p, d);
    }
    OnlyStaleIsStale(c, hash, d);
    OnlyStaleIsStale(c, hash, Resolved(d));
    KeepsItsSide(c, hash, Resolved(d));
  }

  lemma StrandedStays(c: Config, hash: Hash, d: Disk, lost: bool)
    requires Stranded(c, hash, d) && d.state == Some(Committing)
    ensures RecoverDisk(c, hash, if lost then d else Resolved(d)) == (d.(state := Some(RecoveryRequired)), Conflicted)
  {
    hide RecoverDisk;
    assert StrandedAs(c, hash, d, Committing) && StrandedAs(c, hash, d, RecoveryRequired);
    assert d.(state := Some(Committing)) == d;
  }

  /** Without a transaction directory recovery has nothing to do. */
  lemma KeepsItsSide(c: Config, hash: Hash, d: Disk)
    ensures d.workspace.None? ==> RecoverDisk(c, hash, d) == (d, NothingToDo)
  {
  }

  lemma AbandonedInAnyState(c: Config, hash: Hash, a: Attempt, p: PreparedPlan, base: Tree, d: Disk, d': Disk)
    requires Abandoned(c, hash, a, p, base, d) && d'.tree == d.tree && d'.workspace == d.workspace
    ensures Abandoned(c, hash, a, p, base, d')
  {
    var hosts: seq<Host>, rs: seq<Record>, gone: set<Path> :| LeftBehind(hash, a, base, d, hosts, rs, gone);
    assert LeftBehind(hash, a, base, d', hosts, rs, gone);
  }

  /** What two recoveries make of each case, the first of them lost. */
  lemma SettledTwice(c: Config, hash: Hash, a: Attempt, p: PreparedPlan, base: Tree, d: Disk, image: Image, loss: Loss)
    requires Roomy(c, a) && SettledDisk(c, hash, a, p, base, d, image)
    ensures var lost := RecoveryLost(c, hash, d, loss);
            var (d', o) := RecoverDisk(c, hash, lost);
            if o == Conflicted
            then d' == lost && lost.workspace.Some? && (lost.state == Some(Stale) || Repeats(a.ops, loss))
            else Decided(d', base, image)
  {
    if Unbegun(c, hash, a, p, d.workspace.value) && d.tree == base {
      UnbegunStays(c, hash, a, p, d, loss);
      UnbegunRecovers(c, hash, a, p, RecoveryLost(c, hash, d, loss));
    } else if Abandoned(c, hash, a, p, base, d) && d.state == Some(Committing) {
      AbandonedTwice(c, hash, a, p, base, d, loss);
    } else {
      FinishesTwice(c, hash, d, image, loss);
    }
  }

  lemma FinishesTwice(c: Config, hash: Hash, d: Disk, image: Image, loss: Loss)
    requires Finishes(c, hash, d, image) && d.state in {Some(Committing), Some(Committed)}
    ensures RecoverDisk(c, hash, RecoveryLost(c, hash, d, loss)) == (Disk(d.tree, Some(Committed), None), Finalized)
  {
    assert FinishesFrom(c, hash, d, d.state.value) && FinishesFrom(c, hash, d, Committed);
  }

  /** Recovery makes nothing stale. */
  lemma OnlyStaleIsStale(c: Config, hash: Hash, d: Disk)
    ensures RecoverDisk(c, hash, d).0.state == Some(Stale) ==> d.state == Some(Stale)
  {
  }

  lemma {:induction false} RollbackToIsAll(a: Attempt, js: JournalState, k: nat, h: Host)
    requires a.Valid() && k <= |a.ops|
    ensures Reentry.RollbackTo(a, js, k, 0, h) == RollbackAll(a, js, k, h)
  {
    if k > 0 {
      match RollbackOne(a, js, k - 1, h)
      case Restored(h') => RollbackToIsAll(a, js, k - 1, h');
      case Stuck(_) =>
    }
  }

  lemma MarkerCleared(plan: CommitPlan, a: Attempt, hosts: seq<Host>, final: Image, i: u32, t: Tree,
                      pinned: map<Path, FileId>, log: RunLog)
    requires Executes(a, hosts) && |hosts| == |a.ops| + 1 && Scenario(plan, a, hosts[0], final) && NoMarkerClash(plan, final)
    requires Evidence(a, hosts, |a.ops|, log.completed, log.metadata) && PinnedSince(a, pinned, log.pinned, |a.ops|)
    requires i < |a.ops| && a.ops[i].CreateDirectory? && t == hosts[|a.ops|].tree - MarkersFrom(a.ops, i + 1)
    ensures MarkerReady(a, i, t, log.pinned, Lookup(log.completed, i))
  {
    assert EvidenceAt(a, hosts, i, log.completed, log.metadata);
    MarkerStillThere(plan, a, hosts, final, i, t, log.pinned, log.completed);
  }

  /** Why a sound run can fail before it meets a marker: an injected loss, or a directory that is never writable. */
  ghost predicate RunFailure(e: CommitError, a: Attempt, faults: Faults, base: Tree, image: Image)
    requires a.Valid()
  {
    match e
    case Injected(point) => faults(point) && (point.IntentSynced? ==> Clean(a, point.index + 1))
    case OperationFailed(error) =>
      error == PermissionDenied && exists i :: 0 <= i < |a.ops| && !Allowed(a.ops, base, image, i) && Clean(a, i + 1)
    case _ => false
  }

  /** Why it can fail where operation k meets a marker; a link can get past it. */
  predicate ClashFailure(e: CommitError, a: Attempt, k: nat, faults: Faults)
    requires a.Valid() && k < |a.ops|
  {
    match e
    case Injected(point) => faults(point) && (point == IntentSynced(k) || a.ops[k].InstallSymlink?)
    case OperationFailed(error) => error == HostIo && !a.ops[k].InstallSymlink? && !faults(IntentSynced(k))
    case _ => false
  }

  /** Stopped with the intent of operation k durable and no effect. */
  predicate AtIntent(e: CommitError, a: Attempt, k: nat)
    requires a.Valid() && k < |a.ops|
  {
    e == Injected(IntentSynced(k)) || (e == OperationFailed(HostIo) && !a.ops[k].InstallSymlink?)
  }

  /** The run stopped at an operation that meets a marker; if before its effect, for good. */
  ghost predicate StopsOnMarker(c: Config, hash: Hash, a: Attempt, base: Tree, image: Image, faults: Faults, d: Disk, e: CommitError, k: nat)
    requires a.Valid() && k < |a.ops|
  {
    && MeetsMarker(a.ops, base, image, k) && ClashFailure(e, a, k, faults)
    && (AtIntent(e, a, k) ==> d.state == Some(Committing) && Stranded(c, hash, d) && d.tree != base)
  }

  ghost predicate EndsOnMarker(c: Config, hash: Hash, a: Attempt, base: Tree, image: Image, faults: Faults, d: Disk, e: CommitError)
    requires a.Valid()
  {
    exists k: nat :: k < |a.ops| && StopsOnMarker(c, hash, a, base, image, faults, d, e, k)
  }

  /** A link went where the marker was. */
  ghost predicate PassesMarker(a: Attempt, base: Tree, image: Image, faults: Faults)
    requires a.Valid()
  {
    exists k: nat :: k < |a.ops| && MeetsMarker(a.ops, base, image, k) && a.ops[k].InstallSymlink? && !faults(IntentSynced(k))
  }

  /** Why a commit can stop that is to meet a marker at operation k; a link that got past it is another matter. */
  ghost predicate MetFailure(e: CommitError, c: Config, s: Store, o: Observer, t: Tree, plan: CommitPlan, a: Attempt, faults: Faults,
                             observed: seq<Path>, written: seq<Path>, k: nat)
    requires a.Valid() && k < |a.ops|
    requires (forall q :: q in observed ==> q in plan.readSet) && (forall q :: q in written ==> q in plan.writeSet)
  {
    || ReadyFailure(e, c, s, o, t, plan, a, faults, observed, written)
    || (e.Injected? && faults(e.point)) || ClashFailure(e, a, k, faults)
    || (a.ops[k].InstallSymlink? && !faults(IntentSynced(k)))
  }

  /** Only a link gets past a marker; a run that stops before the effect of what meets it is stranded. */
  ghost predicate StopsAsMet(c: Config, hash: Hash, a: Attempt, base: Tree, faults: Faults, d: Disk, r: Result<nat, CommitError>, k: nat)
    requires a.Valid() && k < |a.ops|
  {
    && (r.Ok? ==> a.ops[k].InstallSymlink? && !faults(IntentSynced(k)))
    && (r.Err? && AtIntent(r.error, a, k) ==> d.state == Some(Committing) && Stranded(c, hash, d) && d.tree != base)
  }

  lemma BeginsAt(c: Config, hash: Hash, plan: CommitPlan, a: Attempt, p: PreparedPlan, encoded: seq<byte>, snapshot: Tree, final: Image, file: seq<byte>)
    requires Accepted(c, hash, plan, a, p, encoded, snapshot, final) && file == Log(hash, SetsFileMode(a.ops), [])
    ensures a.Valid() && |p.operations| < 0x1_0000_0000 && StagingShape(a.ops)
    ensures Unbegun(c, hash, a, p, Workspace(encoded, file, map[], map[], map[], false))
  {
    PlannedStagingShape(plan, a, snapshot, final);
  }

  lemma EarlyIsSettled(c: Config, hash: Hash, a: Attempt, p: PreparedPlan, d: Disk, image: Image)
    requires d.workspace.Some? && Unbegun(c, hash, a, p, d.workspace.value) && d.state in {Some(Revalidating), Some(Stale), Some(Committing)}
    ensures SettledDisk(c, hash, a, p, d.tree, d, image)
  {
  }

  lemma EarlyIsUnmet(c: Config, hash: Hash, s: Store, o: Observer, t: Tree, plan: CommitPlan, a: Attempt, faults: Faults,
                     observed: seq<Path>, written: seq<Path>, d: Disk, e: CommitError)
    requires a.Valid() && (forall q :: q in observed ==> q in plan.readSet) && (forall q :: q in written ==> q in plan.writeSet)
    requires ReadyFailure(e, c, s, o, t, plan, a, faults, observed, written)
    ensures forall k: nat :: k < |a.ops| ==> StopsAsMet(c, hash, a, t, faults, d, Err(e), k)
  {
    hide Stranded;
  }

  /** The ways in which a sound run can end. */
  ghost predicate Ends(c: Config, hash: Hash, a: Attempt, p: PreparedPlan, base: Tree, image: Image, faults: Faults, d: Disk,
                       r: Result<nat, CommitError>)
    requires a.Valid()
  {
    && (r.Err? && r.error.Injected? ==> faults(r.error.point))
    && (|| (SettledDisk(c, hash, a, p, base, d, image) && if r.Ok? then Clean(a, |a.ops|) else RunFailure(r.error, a, faults, base, image))
        || PassesMarker(a, base, image, faults)
        || (r.Err? && EndsOnMarker(c, hash, a, base, image, faults, d, r.error)))
  }

  lemma MarkerDecides(c: Config, hash: Hash, a: Attempt, p: PreparedPlan, base: Tree, image: Image, faults: Faults, d: Disk,
                      r: Result<nat, CommitError>, k: nat)
    requires a.Valid() && k < |a.ops| && MeetsMarker(a.ops, base, image, k) && Ends(c, hash, a, p, base, image, faults, d, r)
    ensures StopsAsMet(c, hash, a, base, faults, d, r, k)
    ensures r.Err? ==> || (r.error.Injected? && faults(r.error.point)) || ClashFailure(r.error, a, k, faults)
                       || (a.ops[k].InstallSymlink? && !faults(IntentSynced(k)))
  {
    hide MeetsMarker, Stranded, RunFailure, Clashes, SettledDisk;
    MeetingDecides(a, base, image, k);
    if PassesMarker(a, base, image, faults) {
      var j: nat :| j < |a.ops| && MeetsMarker(a.ops, base, image, j) && a.ops[j].InstallSymlink? && !faults(IntentSynced(j));
      OneMarkerDecides(a, base, image, j, k);
    } else if r.Err? && EndsOnMarker(c, hash, a, base, image, faults, d, r.error) {
      var j: nat :| j < |a.ops| && StopsOnMarker(c, hash, a, base, image, faults, d, r.error, j);
      OneMarkerDecides(a, base, image, j, k);
    }
  }

  /** What they mean for a run that meets no marker, and for one that does. */
  lemma EndsDecide(c: Config, hash: Hash, a: Attempt, p: PreparedPlan, base: Tree, image: Image, faults: Faults, d: Disk,
                   r: Result<nat, CommitError>)
    requires a.Valid() && Ends(c, hash, a, p, base, image, faults, d, r)
    ensures !ReachesMarker(a.ops, base, image) ==>
              SettledDisk(c, hash, a, p, base, d, image) && (r.Err? ==> RunFailure(r.error, a, faults, base, image))
    ensures forall k: nat :: k < |a.ops| && MeetsMarker(a.ops, base, image, k) ==>
              && StopsAsMet(c, hash, a, base, faults, d, r, k)
              && (r.Err? ==> || (r.error.Injected? && faults(r.error.point)) || ClashFailure(r.error, a, k, faults)
                             || (a.ops[k].InstallSymlink? && !faults(IntentSynced(k))))
  {
    hide MeetsMarker, StopsAsMet, RunFailure, SettledDisk, ClashFailure;
    if !ReachesMarker(a.ops, base, image) && r.Err? {
      NoMarkerDecides(c, hash, a, base, image, faults, d, r.error);
    }
    forall k: nat | k < |a.ops| && MeetsMarker(a.ops, base, image, k)
      ensures StopsAsMet(c, hash, a, base, faults, d, r, k)
      ensures r.Err? ==> || (r.error.Injected? && faults(r.error.point)) || ClashFailure(r.error, a, k, faults)
                         || (a.ops[k].InstallSymlink? && !faults(IntentSynced(k)))
    {
      MarkerDecides(c, hash, a, p, base, image, faults, d, r, k);
    }
  }

  lemma NoMarkerDecides(c: Config, hash: Hash, a: Attempt, base: Tree, image: Image, faults: Faults, d: Disk, e: CommitError)
    requires a.Valid() && !ReachesMarker(a.ops, base, image)
    ensures !PassesMarker(a, base, image, faults) && !EndsOnMarker(c, hash, a, base, image, faults, d, e)
  {
    hide MeetsMarker, Stranded;
  }

  lemma OneMarkerDecides(a: Attempt, base: Tree, image: Image, j: nat, k: nat)
    requires a.Valid() && MeetsMarker(a.ops, base, image, j) && MeetsMarker(a.ops, base, image, k)
    ensures j == k
  {
  }

  lemma MeetingDecides(a: Attempt, base: Tree, image: Image, k: nat)
    requires a.Valid() && MeetsMarker(a.ops, base, image, k)
    ensures k < |a.ops| && Clashes(a.ops, k) && Clean(a, k) && ReachesMarker(a.ops, base, image)
    ensures forall e, faults :: RunFailure(e, a, faults, base, image) ==> e.Injected? && faults(e.point) && !AtIntent(e, a, k)
  {
  }

  /** Pinned directories, ownership witnesses and recorded stamps. */
  datatype RunLog = RunLog(pinned: map<Path, FileId>, completed: map<u32, Witness>, metadata: map<u32, FileStamp>)

  function Extended(log: RunLog, a: Attempt, i: u32, applied: Applied): RunLog
    requires a.Valid() && i < |a.ops| && applied.Done?
  {
    RunLog(
      if a.ops[i].CreateDirectory? then log.pinned[a.ops[i].path := a.allocs[i].directory] else log.pinned,
      log.completed[i := applied.owner],
      if applied.stamp.Some? then log.metadata[i := applied.stamp.value] else log.metadata)
  }

  /** The log says what the first i operations did. */
  ghost predicate LogTrue(a: Attempt, hosts: seq<Host>, pinned: map<Path, FileId>, log: RunLog, i: nat)
    requires a.Valid() && i <= |a.ops|
  {
    && Evidence(a, hosts, i, log.completed, log.metadata)
    && (forall j :: j in log.metadata ==> j < i)
    && PinnedSince(a, pinned, log.pinned, i)
  }

  lemma LogExtends(plan: CommitPlan, a: Attempt, hosts: seq<Host>, final: Image, i: u32, pinned: map<Path, FileId>, log: RunLog, applied: Applied)
    requires |hosts| == i + 1 && i < |a.ops| && Planned(plan, a, hosts[0].tree, final) && LogTrue(a, hosts, pinned, log, i)
    requires applied == Step(a, i, hosts[i]) && applied.Done?
    ensures LogTrue(a, hosts + [applied.host], pinned, Extended(log, a, i, applied), i + 1)
  {
    EvidenceExtends(a, hosts, i, log, applied);
    PinsExtend(plan, a, hosts[0].tree, final, pinned, log.pinned, i);
  }

  lemma EvidenceExtends(a: Attempt, hosts: seq<Host>, i: u32, log: RunLog, applied: Applied)
    requires a.Valid() && i < |a.ops| && |hosts| == i + 1 && Evidence(a, hosts, i, log.completed, log.metadata)
    requires applied == Step(a, i, hosts[i]) && applied.Done? && i !in log.metadata
    ensures var log' := Extended(log, a, i, applied);
            Evidence(a, hosts + [applied.host], i + 1, log'.completed, log'.metadata)
  {
    var log' := Extended(log, a, i, applied);
    forall j: u32 | j <= i
      ensures EvidenceAt(a, hosts + [applied.host], j, log'.completed, log'.metadata)
    {
      if j < i {
        assert EvidenceAt(a, hosts, j, log.completed, log.metadata);
      }
    }
  }

  lemma PinsExtend(plan: CommitPlan, a: Attempt, base: Tree, final: Image, pinned: map<Path, FileId>, now: map<Path, FileId>, i: nat)
    requires Planned(plan, a, base, final) && i < |a.ops| && PinnedSince(a, pinned, now, i)
    ensures PinnedSince(a, pinned, if a.ops[i].CreateDirectory? then now[a.ops[i].path := a.allocs[i].directory] else now, i + 1)
  {
    forall j | 0 <= j < i && a.ops[j].CreateDirectory? && a.ops[i].CreateDirectory?
      ensures a.ops[j].path != a.ops[i].path
    {
      assert Precedes(a.ops[j], a.ops[i]);
    }
  }

  /** Why staging can stop the commit. */
  ghost predicate StageFailure(e: CommitError, s: Store, a: Attempt, faults: Faults) {
    match e
    case Injected(point) => faults(point) && point in {PlanSynced, StageSynced, CommitStatePersisted}
    case StagingFailed => exists i :: 0 <= i < |a.ops| && !Stageable(s, a.ops[i])
    case _ => false
  }

  /** Why revalidation or pinning can stop it. */
  ghost predicate InspectFailure(e: CommitError, c: Config, o: Observer, t: Tree, plan: CommitPlan, a: Attempt, faults: Faults,
                                 observed: seq<Path>, written: seq<Path>)
    requires a.Valid()
    requires (forall q :: q in observed ==> q in plan.readSet) && (forall q :: q in written ==> q in plan.writeSet)
  {
    match e
    case Injected(point) => faults(point) && point == Revalidated
    case RevalidationFailed => |observed| + |written| > c.maxDependencies || !Readable(o, t, plan, observed)
    case StaleDependencies(conflicts) =>
      conflicts != [] && (c.maxConflicts > 0 ==> conflicts == FirstConflicts(o, t, plan, observed, written, c.maxConflicts))
    case StaleParents => exists i :: 0 <= i < |a.ops| && !ParentAsSeen(t, plan, a.ops[i])
    case _ => false
  }

  ghost predicate ReadyFailure(e: CommitError, c: Config, s: Store, o: Observer, t: Tree, plan: CommitPlan, a: Attempt, faults: Faults,
                               observed: seq<Path>, written: seq<Path>)
    requires a.Valid()
    requires (forall q :: q in observed ==> q in plan.readSet) && (forall q :: q in written ==> q in plan.writeSet)
  {
    StageFailure(e, s, a, faults) || InspectFailure(e, c, o, t, plan, a, faults, observed, written)
  }

  ghost predicate CommitFailure(e: CommitError, c: Config, s: Store, o: Observer, t: Tree, plan: CommitPlan, a: Attempt, faults: Faults,
                                observed: seq<Path>, written: seq<Path>, final: Image)
    requires a.Valid()
    requires (forall q :: q in observed ==> q in plan.readSet) && (forall q :: q in written ==> q in plan.writeSet)
  {
    || ReadyFailure(e, c, s, o, t, plan, a, faults, observed, written)
    || RunFailure(e, a, faults, t, final)
  }

  lemma StagedIsScenario(plan: CommitPlan, a: Attempt, h: Host, final: Image, ids: Identities)
    requires Planned(plan, a, h.tree, final) && h.quarantine == map[]
    requires StagedUpTo(a.ops, |a.ops|, h.staged, h.links, ids)
    ensures Scenario(plan, a, h, final)
  {
    forall op | op in a.ops
      ensures op.InstallFile? ==> op.slot in h.staged && NodeMatches(h.staged[op.slot], op.after)
      ensures op.InstallSymlink? ==> op.slot in h.links && NodeMatches(h.links[op.slot], op.after)
    {
      var i :| 0 <= i < |a.ops| && a.ops[i] == op;
      assert StagedFor(a.ops[i], h.staged, h.links, ids);
    }
  }
}
