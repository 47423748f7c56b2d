/**
 What recovery does with the durable leftovers of one transaction, and why it always ends
 with the base tree or with the planned one.
 */
module CrashRecovery {
  import opened Types
  import opened Engine
  import opened Rollback
  import opened Planning
  import opened Ordering
  import opened Correctness
  import opened OperationLog
  import opened PlanCodec
  import Reentry

  datatype TransactionState =
    | Created | Running | VirtualComplete | Denied | AutoApproved | PendingApproval | Approved
    | Rejected | Reserved | Revalidating | Stale | Committing | Committed | RecoveryRequired | Failed | Expired

  /** Bounds on the durable artifacts. */
  datatype Config = Config(
    maxOperations: nat, maxDependencies: nat, maxPathBytes: nat, maxPlanBytes: nat, maxJournalBytes: nat, maxConflicts: nat)

  /** The transaction directory: plan, journal, staged content, quarantine, commit marker. */
  datatype Workspace = Workspace(
    plan: seq<byte>, journal: seq<byte>,
    staged: map<nat, Node>, links: map<nat, Node>, quarantine: map<nat, Tree>, marker: bool)

  /** Everything that survives process loss. */
  datatype Disk = Disk(tree: Tree, state: Option<TransactionState>, workspace: Option<Workspace>)

  function HostOf(tree: Tree, w: Workspace): Host {
    Host(tree, w.staged, w.links, w.quarantine)
  }

  function Keep(w: Workspace, h: Host): Workspace {
    w.(staged := h.staged, links := h.links, quarantine := h.quarantine)
  }

  // ------------------------------------------------------------ verification

  /** The stamp recorded for the file whose mode the plan set at `path`. */
  function StampFor(ops: seq<Operation>, metadata: map<u32, FileStamp>, path: Path, n: nat): Option<FileStamp>
    requires n <= |ops| < 0x1_0000_0000
  {
    if n == 0 then None
    else if ops[n - 1].SetFileMode? && ops[n - 1].path == path && n - 1 in metadata then Some(metadata[n - 1])
    else StampFor(ops, metadata, path, n - 1)
  }

  predicate DirectoryVerified(t: Tree, op: Operation, completed: Option<Witness>)
    requires op.SetDirectoryMode?
  {
    IsDir(t, op.path) && t[op.path].stamp.mode == op.afterMode && completed == Some(WitnessOf(t[op.path].stamp))
  }

  predicate FinalVerified(t: Tree, f: (Path, State), recorded: Option<FileStamp>) {
    && StateMatches(t, f.0, if recorded.Some? then Some(FromStamp(recorded.value)) else f.1)
    && (recorded.Some? && f.1.Some? && f.1.value.content.Blob? ==>
          f.0 in t && FileMatches(t[f.0], f.1.value) && t[f.0].stamp == recorded.value)
  }

  function Lookup<K, V>(m: map<K, V>, k: K): Option<V> {
    if k in m then Some(m[k]) else None
  }

  predicate Verifies(t: Tree, p: PreparedPlan, metadata: map<u32, FileStamp>, completed: map<u32, Witness>)
    requires |p.operations| < 0x1_0000_0000
  {
    && (forall i :: 0 <= i < |p.operations| && p.operations[i].SetDirectoryMode? ==>
          DirectoryVerified(t, p.operations[i], Lookup(completed, i)))
    && (forall i :: 0 <= i < |p.finalStates| ==>
          FinalVerified(t, p.finalStates[i],
                        StampFor(p.operations, metadata, p.finalStates[i].0, |p.operations|)))
  }

  // ---------------------------------------------------------------- recovery

  datatype Refusal = PlanTooLarge | BadPlan(plan: DecodeError) | BadJournal(journal: JournalError) | RootOperation

  datatype Outcome =
    | NothingToDo
    | Finalized
    | RolledBack
    | Conflicted
    | Refused(reason: Refusal)

  /** The states in which a transaction may still be reversed; a store that forgot it is no obstacle. */
  predicate Reversible(state: Option<TransactionState>) {
    state.None? || state.value in {Reserved, Revalidating, Committing, RecoveryRequired, TransactionState.Failed}
  }

  /** The state recovery leaves it in. */
  function Failing(state: Option<TransactionState>): Option<TransactionState> {
    if state.Some? then Some(TransactionState.Failed) else None
  }

  /** The state while recovery is at it. */
  function Claimed(state: Option<TransactionState>): Option<TransactionState> {
    if state == Some(Committing) then Some(RecoveryRequired) else state
  }

  /** Rollback reads identities, it hands out none. */
  function Reversal(p: PreparedPlan): Attempt {
    Attempt(p.transaction, p.operations, seq(|p.operations|, _ => Alloc(FileId(0, 0), FileId(0, 0))))
  }

  function ReadPlan(c: Config, hash: Hash, w: Workspace): Result<PreparedPlan, Refusal> {
    if |w.plan| > c.maxPlanBytes then Err(PlanTooLarge)
    else match Decode(hash, w.plan, c.maxOperations, c.maxPathBytes)
      case Err(e) => Err(BadPlan(e))
      case Ok(p) => if Reversal(p).Valid() then Ok(p) else Err(RootOperation)
  }

  /** A durable commit marker: check the final tree, then settle the store. */
  function Finalize(d: Disk, p: PreparedPlan, js: JournalState): (Disk, Outcome)
    requires Reversal(p).Valid()
  {
    if !Verifies(d.tree, p, js.metadata, js.completed) then (d, Conflicted)
    else if d.state.Some? && d.state.value !in {Committing, RecoveryRequired, Committed} then (d, Conflicted)
    else (Disk(d.tree, if d.state.Some? then Some(Committed) else None, None), Finalized)
  }

  /** No marker: reverse what ran, then fail the transaction. */
  function Unwind(d: Disk, p: PreparedPlan, js: JournalState): (Disk, Outcome)
    requires Reversal(p).Valid() && d.workspace.Some?
  {
    if d.state == Some(Committed) then (d, Conflicted)
    else
      var state := Claimed(d.state);
      match RollbackAll(Reversal(p), js, |p.operations|, HostOf(d.tree, d.workspace.value))
      case Stuck(h) => (Disk(h.tree, state, Some(Keep(d.workspace.value, h))), Conflicted)
      case Restored(h) =>
        if state.Some? && state.value !in {RecoveryRequired, Revalidating, Reserved, TransactionState.Failed} then
          (Disk(h.tree, state, Some(Keep(d.workspace.value, h))), Conflicted)
        else (Disk(h.tree, Failing(state), None), RolledBack)
  }

  function RecoverDisk(c: Config, hash: Hash, d: Disk): (Disk, Outcome) {
    if d.workspace.None? then (d, NothingToDo)
    else match ReadPlan(c, hash, d.workspace.value)
      case Err(e) => (d, Refused(e))
      case Ok(p) =>
        match ReadLog(hash, c.maxJournalBytes, d.workspace.value.journal)
        case Err(e) => (d, Refused(BadJournal(e)))
        case Ok(js) => if d.workspace.value.marker then Finalize(d, p, js) else Unwind(d, p, js)
  }

  /** Recovery never counts a rollback, nor removes the leftovers, while anything is in doubt. */
  lemma RecoveryFailsClosed(c: Config, hash: Hash, d: Disk)
    ensures var (d', o) := RecoverDisk(c, hash, d);
            && (d.workspace.Some? && (o.Conflicted? || o.Refused?) ==>
                  d'.workspace.Some? && d'.workspace.value.plan == d.workspace.value.plan
                  && d'.workspace.value.journal == d.workspace.value.journal
                  && d'.workspace.value.marker == d.workspace.value.marker)
            && (o.Finalized? ==> d.workspace.Some? && d.workspace.value.marker && d'.tree == d.tree)
            && (o.RolledBack? ==> d.workspace.Some? && !d.workspace.value.marker)
            && (o.Refused? ==> d' == d)
  {
    hide ReadPlan, ReadLog, RollbackAll, HostOf;
  }

  /** Without an intent there is nothing to reverse. */
  lemma {:induction false} NothingToReverse(a: Attempt, js: JournalState, k: nat, h: Host)
    requires a.Valid() && k <= |a.ops| && js.intents == map[]
    ensures RollbackAll(a, js, k, h) == Restored(h)
  {
    if k > 0 {
      NothingToReverse(a, js, k - 1, h);
    }
  }

  /** A transaction that went stale keeps its leftovers: recovery calls it a conflict, and touches nothing. */
  lemma StaleLeftoverIsConflict(c: Config, hash: Hash, d: Disk)
    requires d.workspace.Some? && d.state == Some(Stale)
    requires ReadPlan(c, hash, d.workspace.value).Ok?
    requires ReadLog(hash, c.maxJournalBytes, d.workspace.value.journal).Ok?
    ensures var (d', o) := RecoverDisk(c, hash, d);
            && o == Conflicted && d'.state == d.state && d'.workspace.Some?
            && (ReadLog(hash, c.maxJournalBytes, d.workspace.value.journal).value.intents == map[] ==> d' == d)
  {
    var w := d.workspace.value;
    var p, js := ReadPlan(c, hash, w).value, ReadLog(hash, c.maxJournalBytes, w.journal).value;
    if js.intents == map[] {
      NothingToReverse(Reversal(p), js, |p.operations|, HostOf(d.tree, w));
      assert Keep(w, HostOf(d.tree, w)) == w;
    }
  }

  lemma {:induction false} AllocsIrrelevant(a: Attempt, b: Attempt, js: JournalState, k: nat, h: Host)
    requires a.Valid() && b.Valid() && a.transaction == b.transaction && a.ops == b.ops && k <= |a.ops|
    ensures RollbackAll(a, js, k, h) == RollbackAll(b, js, k, h)
  {
    if k > 0 {
      assert RollbackOne(a, js, k - 1, h) == RollbackOne(b, js, k - 1, h);
      match RollbackOne(a, js, k - 1, h)
      case Restored(h') => AllocsIrrelevant(a, b, js, k - 1, h');
      case Stuck(_) =>
    }
  }

  /**
   A quarantine that never recorded its completion is only undone while the node it holds still
   looks as it was expected to. Otherwise rollback passes over it and reports success, with the
   node left behind in quarantine.
   */
  lemma DisturbedQuarantineIsMissed(a: Attempt, js: JournalState, i: u32, h: Host)
    requires a.Valid() && i < |a.ops| && a.ops[i].Quarantine? && i in js.intents && i !in js.completed
    requires var op := a.ops[i];
             && ParentOpens(h.tree, op.path, js.intents[i].parent) && OwnerWrite(h.tree[Parent(op.path)].stamp.mode)
             && op.path !in h.tree && op.slot in h.quarantine && [] in h.quarantine[op.slot]
    ensures var op, after := a.ops[i], RollbackOne(a, js, i, h);
            && after.Restored?
            && (op.path in after.host.tree <==> RelocatedMatches(h.quarantine[op.slot][[]], op.expected))
            && (op.path !in after.host.tree ==> after.host == h)
  {
    var op := a.ops[i];
    RootedAt(h.quarantine[op.slot], op.path, op.path);
    assert op.path[|op.path|..] == [];
  }

  /** Reversing mode changes neither adds nor removes an entry. */
  lemma {:induction false} ModesKeepEntries(a: Attempt, js: JournalState, k: nat, h: Host)
    requires a.Valid() && k <= |a.ops| && forall i :: 0 <= i < k ==> a.ops[i].IsMode()
    ensures RollbackAll(a, js, k, h).host.tree.Keys == h.tree.Keys
  {
    if k > 0 {
      var one := RollbackOne(a, js, k - 1, h);
      assert one.host.tree.Keys == h.tree.Keys;
      if one.Restored? {
        ModesKeepEntries(a, js, k - 1, one.host);
      }
    }
  }

  lemma {:induction false} SkipUnintended(a: Attempt, js: JournalState, n: nat, k: nat, h: Host)
    requires a.Valid() && n <= k <= |a.ops| && forall i: u32 :: i in js.intents ==> i < n
    ensures RollbackAll(a, js, k, h) == RollbackAll(a, js, n, h)
  {
    if n < k {
      SkipUnintended(a, js, n, k - 1, h);
    }
  }

  /** The quarantine of operation i was applied, did not record its completion, and the held node changed since. */
  predicate Disturbed(ops: seq<Operation>, js: JournalState, i: u32, h: Host)
    requires i < |ops| && ops[i].path != []
  {
    && ops[i].Quarantine? && i in js.intents && i !in js.completed
    && ParentOpens(h.tree, ops[i].path, js.intents[i].parent) && OwnerWrite(h.tree[Parent(ops[i].path)].stamp.mode)
    && ops[i].path !in h.tree && ops[i].slot in h.quarantine && [] in h.quarantine[ops[i].slot]
    && !RelocatedMatches(h.quarantine[ops[i].slot][[]], ops[i].expected)
  }

  /** Rollback passes over the last operation it finds an intent of, and only mode changes are left. */
  lemma PassedRollback(a: Attempt, js: JournalState, i: u32, h: Host)
    requires a.Valid() && i < |a.ops| && RollbackOne(a, js, i, h) == Restored(h)
    requires (forall j :: 0 <= j < i ==> a.ops[j].IsMode()) && forall j: u32 :: j in js.intents ==> j < i + 1
    ensures RollbackAll(a, js, |a.ops|, h).host.tree.Keys == h.tree.Keys
    ensures i == 0 ==> RollbackAll(a, js, |a.ops|, h) == Restored(h)
  {
    SkipUnintended(a, js, i + 1, |a.ops|, h);
    LastPassed(a, js, i, h);
    ModesKeepEntries(a, js, i, h);
  }

  lemma LastPassed(a: Attempt, js: JournalState, i: nat, h: Host)
    requires a.Valid() && i < |a.ops| && RollbackOne(a, js, i, h) == Restored(h)
    ensures RollbackAll(a, js, i + 1, h) == RollbackAll(a, js, i, h)
  {
  }

  lemma DisturbedIsPassed(a: Attempt, js: JournalState, i: u32, h: Host)
    requires a.Valid() && i < |a.ops| && Disturbed(a.ops, js, i, h)
    ensures RollbackOne(a, js, i, h) == Restored(h)
  {
    DisturbedQuarantineIsMissed(a, js, i, h);
  }

  /**
   What that leads to: when only mode changes ran before the disturbed quarantine, whatever
   recovery answers, the entry is missing; and if it reports a rollback, which it does when
   nothing ran before, the transaction directory and the node held there are gone as well.
   */
  lemma DisturbedQuarantineIsLost(c: Config, hash: Hash, d: Disk, p: PreparedPlan, js: JournalState, i: u32)
    requires d.workspace.Some? && !d.workspace.value.marker && Reversible(d.state)
    requires ReadPlan(c, hash, d.workspace.value) == Ok(p) && i < |p.operations| && p.operations[i].path != []
    requires ReadLog(hash, c.maxJournalBytes, d.workspace.value.journal) == Ok(js)
    requires Disturbed(p.operations, js, i, HostOf(d.tree, d.workspace.value))
    requires (forall j :: 0 <= j < i ==> p.operations[j].IsMode()) && forall j: u32 :: j in js.intents ==> j <= i
    ensures var (d', o) := RecoverDisk(c, hash, d);
            && p.operations[i].path !in d'.tree
            && (o == RolledBack || o == Conflicted) && (o == RolledBack ==> d'.workspace.None?)
            && (i == 0 ==> (d', o) == (Disk(d.tree, Failing(d.state), None), RolledBack))
  {
    hide ReadLog;
    var h := HostOf(d.tree, d.workspace.value);
    DisturbedIsPassed(Reversal(p), js, i, h);
    PassedRollback(Reversal(p), js, i, h);
  }

  // ------------------------------------------------- the journal of a run

  /** Record number k says what the run did. */
  ghost predicate RecordTrue(a: Attempt, hosts: seq<Host>, rs: seq<Record>, k: nat)
    requires a.Valid() && k < |rs|
  {
    var i := k / 2;
    && i < |a.ops| && i < |hosts|
    && if k % 2 == 0 then
         && IsDir(hosts[i].tree, Parent(a.ops[i].path))
         && SourceWitness(a.ops[i], hosts[i]).Some?
         && rs[k] == Intent(i, SourceWitness(a.ops[i], hosts[i]).value,
                            WitnessOf(hosts[i].tree[Parent(a.ops[i].path)].stamp))
       else
         && i < |hosts| - 1
         && Step(a, i, hosts[i]).Done?
         && rs[k] == CompletionOf(Step(a, i, hosts[i]), i)
  }

  function CompletionOf(done: Applied, i: u32): Record
    requires done.Done?
  {
    if done.stamp.Some? then MetadataCompleted(i, done.stamp.value) else Completed(i, done.owner)
  }

  ghost predicate Recorded(a: Attempt, hosts: seq<Host>, rs: seq<Record>)
    requires a.Valid()
  {
    forall k :: 0 <= k < |rs| ==> RecordTrue(a, hosts, rs, k)
  }

  lemma RecordedExtends(a: Attempt, hosts: seq<Host>, next: Host, rs: seq<Record>)
    requires a.Valid() && Recorded(a, hosts, rs)
    ensures Recorded(a, hosts + [next], rs)
  {
    forall k | 0 <= k < |rs|
      ensures RecordTrue(a, hosts + [next], rs, k)
    {
      assert RecordTrue(a, hosts, rs, k);
    }
  }

  lemma RecordedIntent(a: Attempt, hosts: seq<Host>, rs: seq<Record>, x: Record)
    requires Executes(a, hosts) && |hosts| <= |a.ops| && Recorded(a, hosts, rs) && |rs| == 2 * |hosts| - 2
    requires var k := |hosts| - 1;
             && IsDir(hosts[k].tree, Parent(a.ops[k].path)) && SourceWitness(a.ops[k], hosts[k]).Some?
             && x == Intent(k, SourceWitness(a.ops[k], hosts[k]).value, WitnessOf(hosts[k].tree[Parent(a.ops[k].path)].stamp))
    ensures Recorded(a, hosts, rs + [x])
  {
    forall k | 0 <= k < |rs| + 1
      ensures RecordTrue(a, hosts, rs + [x], k)
    {
      if k < |rs| {
        assert RecordTrue(a, hosts, rs, k);
      }
    }
  }

  lemma RecordedCompletion(a: Attempt, hosts: seq<Host>, rs: seq<Record>, x: Record)
    requires Executes(a, hosts) && |hosts| >= 2 && Recorded(a, hosts, rs) && |rs| == 2 * |hosts| - 3
    requires var k := |hosts| - 2;
             Step(a, k, hosts[k]).Done? && x == CompletionOf(Step(a, k, hosts[k]), k)
    ensures Recorded(a, hosts, rs + [x])
  {
    forall k | 0 <= k < |rs| + 1
      ensures RecordTrue(a, hosts, rs + [x], k)
    {
      if k < |rs| {
        assert RecordTrue(a, hosts, rs, k);
      }
    }
  }

  /** Only file-mode operations record a stamp, and it is the stamp of a file. */
  lemma StampedIsFileMode(a: Attempt, i: nat, h: Host)
    requires a.Valid() && i < |a.ops| && Step(a, i, h).Done?
    ensures Step(a, i, h).stamp.Some? <==> a.ops[i].SetFileMode?
    ensures a.ops[i].SetFileMode? ==>
              Step(a, i, h).stamp.value.kind == File && WitnessOf(Step(a, i, h).stamp.value) == Step(a, i, h).owner
  {
  }

  lemma RecordedIsPaired(a: Attempt, hosts: seq<Host>, rs: seq<Record>)
    requires a.Valid() && Recorded(a, hosts, rs)
    ensures |rs| <= 2 * |a.ops| && Paired(rs, SetsFileMode(a.ops))
  {
    if rs != [] {
      assert RecordTrue(a, hosts, rs, |rs| - 1);
    }
    forall k | 0 <= k < |rs|
      ensures rs[k].index == k / 2 && (k % 2 == 0 <==> rs[k].Intent?)
      ensures rs[k].MetadataCompleted? ==> SetsFileMode(a.ops) && rs[k].stamp.kind == File
    {
      assert RecordTrue(a, hosts, rs, k);
      if k % 2 == 1 {
        StampedIsFileMode(a, k / 2, hosts[k / 2]);
      }
    }
  }

  /** The evidence that n completions leave behind. */
  ghost predicate Evidence(a: Attempt, hosts: seq<Host>, n: nat, completed: map<u32, Witness>, metadata: map<u32, FileStamp>)
    requires a.Valid()
  {
    && n <= |a.ops| && n <= |hosts|
    && forall i: u32 :: i < n ==> EvidenceAt(a, hosts, i, completed, metadata)
  }

  ghost predicate EvidenceAt(a: Attempt, hosts: seq<Host>, i: u32, completed: map<u32, Witness>, metadata: map<u32, FileStamp>)
    requires a.Valid() && i < |a.ops| && i < |hosts|
  {
    && Step(a, i, hosts[i]).Done?
    && Lookup(completed, i) == Some(Step(a, i, hosts[i]).owner)
    && Lookup(metadata, i) == Step(a, i, hosts[i]).stamp
  }

  lemma ReplayIntent(a: Attempt, hosts: seq<Host>, rs: seq<Record>, js: JournalState, i: u32)
    requires a.Valid() && Recorded(a, hosts, rs) && Learned(rs, js) && 2 * i < |rs|
    ensures i < |a.ops| && i < |hosts| && IntentFaithful(a, hosts, js, i)
  {
    assert RecordTrue(a, hosts, rs, 2 * i);
  }

  lemma ReplayCompletion(a: Attempt, hosts: seq<Host>, rs: seq<Record>, js: JournalState, i: u32)
    requires a.Valid() && Recorded(a, hosts, rs) && Learned(rs, js) && 2 * i + 1 < |rs|
    ensures i < |a.ops| && i < |hosts| && EvidenceAt(a, hosts, i, js.completed, js.metadata)
    ensures CompletionFaithful(a, hosts, js, i)
  {
    assert RecordTrue(a, hosts, rs, 2 * i + 1);
    assert LearnedCompletion(rs[2 * i + 1], js, i);
    StampedIsFileMode(a, i, hosts[i]);
  }

  /** What recovery reads from the run's journal is faithful to the run. */
  lemma RecordedIsJournaled(a: Attempt, hosts: seq<Host>, rs: seq<Record>, js: JournalState)
    requires Executes(a, hosts) && Recorded(a, hosts, rs) && Learned(rs, js)
    requires 2 * |hosts| - 3 <= |rs| <= 2 * |hosts| - 1
    ensures Journaled(a, hosts, js, |rs| / 2, (|rs| + 1) / 2)
    ensures Evidence(a, hosts, |rs| / 2, js.completed, js.metadata)
  {
    RecordedIsPaired(a, hosts, rs);
    if rs != [] {
      assert RecordTrue(a, hosts, rs, |rs| - 1);
    }
    forall i: u32 | i < (|rs| + 1) / 2
      ensures IntentFaithful(a, hosts, js, i)
    {
      ReplayIntent(a, hosts, rs, js, i);
    }
    forall i: u32 | i < |rs| / 2
      ensures EvidenceAt(a, hosts, i, js.completed, js.metadata) && CompletionFaithful(a, hosts, js, i)
    {
      ReplayCompletion(a, hosts, rs, js, i);
    }
  }

  // ----------------------------------------------------- durable leftovers

  /** A journal file that holds the records `rs` whole, and perhaps part of one more. */
  ghost predicate Holds(hash: Hash, a: Attempt, hosts: seq<Host>, file: seq<byte>, rs: seq<Record>)
    requires a.Valid()
  {
    exists full: seq<Record>, room: nat :: HoldsCut(hash, a, hosts, file, rs, full, room)
  }

  ghost predicate HoldsCut(hash: Hash, a: Attempt, hosts: seq<Host>, file: seq<byte>, rs: seq<Record>,
                           full: seq<Record>, room: nat)
    requires a.Valid()
  {
    && Recorded(a, hosts, full) && room <= |Frames(hash, full)|
    && file == CutLog(hash, SetsFileMode(a.ops), full, room)
    && rs == full[..Whole(hash, full, room)]
  }

  lemma HoldsWhole(hash: Hash, a: Attempt, hosts: seq<Host>, rs: seq<Record>)
    requires a.Valid() && Recorded(a, hosts, rs)
    ensures Holds(hash, a, hosts, Log(hash, SetsFileMode(a.ops), rs), rs)
  {
    var room := |Frames(hash, rs)|;
    assert rs[..|rs|] == rs && Frames(hash, rs)[..room] == Frames(hash, rs);
    assert HoldsCut(hash, a, hosts, Log(hash, SetsFileMode(a.ops), rs), rs, rs, room);
  }

  /** The journal bound admits the whole log of an attempt. */
  predicate Roomy(c: Config, a: Attempt) {
    8 + 179 * |a.ops| <= c.maxJournalBytes
  }

  /** However it was cut, the journal of a run is within the bound for its operations. */
  lemma HeldFits(hash: Hash, a: Attempt, hosts: seq<Host>, file: seq<byte>, rs: seq<Record>)
    requires a.Valid() && Holds(hash, a, hosts, file, rs)
    ensures |file| <= 8 + 179 * |a.ops|
  {
    var full: seq<Record>, room: nat :| HoldsCut(hash, a, hosts, file, rs, full, room);
    RecordedIsPaired(a, hosts, full);
    LogSize(hash, SetsFileMode(a.ops), full, |a.ops|);
  }

  lemma HeldReadsBack(c: Config, hash: Hash, a: Attempt, hosts: seq<Host>, file: seq<byte>, rs: seq<Record>) returns (js: JournalState)
    requires a.Valid() && |file| <= c.maxJournalBytes && Holds(hash, a, hosts, file, rs)
    ensures Recorded(a, hosts, rs) && Learned(rs, js)
    ensures ReadLog(hash, c.maxJournalBytes, file) == Ok(js)
  {
    var full: seq<Record>, room: nat :| HoldsCut(hash, a, hosts, file, rs, full, room);
    CutReads(c, hash, a, hosts, full, room);
    js := Replay(rs).state.(tornTail := room > |Frames(hash, rs)|);
    PrefixRecorded(a, hosts, full, |rs|);
    RecordedIsPaired(a, hosts, rs);
    PairedIsSequenced(rs, SetsFileMode(a.ops));
    LearnedTorn(rs, Replay(rs).state, js);
  }

  lemma CutReads(c: Config, hash: Hash, a: Attempt, hosts: seq<Host>, full: seq<Record>, room: nat)
    requires a.Valid() && 8 + room <= c.maxJournalBytes && Recorded(a, hosts, full) && room <= |Frames(hash, full)|
    ensures var rs := full[..Whole(hash, full, room)];
            ReadLog(hash, c.maxJournalBytes, CutLog(hash, SetsFileMode(a.ops), full, room))
            == Ok(Replay(rs).state.(tornTail := room > |Frames(hash, rs)|))
  {
    var metadata := SetsFileMode(a.ops);
    RecordedIsPaired(a, hosts, full);
    PairedIsSequenced(full, metadata);
    TornTail(hash, metadata, full, c.maxJournalBytes, room);
  }

  lemma PrefixRecorded(a: Attempt, hosts: seq<Host>, full: seq<Record>, j: nat)
    requires a.Valid() && Recorded(a, hosts, full) && j <= |full|
    ensures Recorded(a, hosts, full[..j])
  {
    forall k | 0 <= k < j
      ensures RecordTrue(a, hosts, full[..j], k)
    {
      assert RecordTrue(a, hosts, full, k);
    }
  }

  lemma LearnedTorn(rs: seq<Record>, s: JournalState, js: JournalState)
    requires Learned(rs, s) && js == s.(tornTail := js.tornTail)
    ensures Learned(rs, js)
  {
    forall i: u32 | 2 * i + 1 < |rs|
      ensures LearnedCompletion(rs[2 * i + 1], js, i)
    {
      assert LearnedCompletion(rs[2 * i + 1], s, i);
    }
  }

  /** The plan file of a transaction reads back as the plan it executes. */
  ghost predicate PlanHeld(c: Config, hash: Hash, a: Attempt, p: PreparedPlan, file: seq<byte>) {
    && a.Valid() && a.transaction == p.transaction && a.ops == p.operations && |a.ops| <= c.maxOperations
    && |file| <= c.maxPlanBytes
    && Decode(hash, file, c.maxOperations, c.maxPathBytes) == Ok(p)
  }

  /**
   What process loss can leave behind before the commit marker: the host after the first
   |hosts| - 1 operations, a journal at most one record behind or ahead of it and cut at any
   byte, and, once everything completed, any part of the ownership markers already cleared.
   */
  ghost predicate Leftover(hash: Hash, a: Attempt, hosts: seq<Host>, tree: Tree, w: Workspace, rs: seq<Record>, gone: set<Path>) {
    && Executes(a, hosts) && Shaped(a.ops, (|rs| + 1) / 2)
    && Holds(hash, a, hosts, w.journal, rs)
    && 2 * |hosts| - 3 <= |rs| <= 2 * |hosts| - 1
    && After(HostOf(tree, w), hosts[|hosts| - 1], gone) && w.links == hosts[|hosts| - 1].links
    && gone <= Markers(a.ops, |hosts| - 1)
    && (gone != {} ==> |rs| == 2 * |a.ops|)
    && (|rs| == 2 * |hosts| - 1 ==> |hosts| <= |a.ops| && Awaits(a.ops[|hosts| - 1], hosts[|hosts| - 1]))
    && !w.marker
  }

  lemma LeftoverRollsBack(a: Attempt, p: PreparedPlan, hosts: seq<Host>, js: JournalState, rs: seq<Record>, h: Host, gone: set<Path>)
    requires Executes(a, hosts) && Shaped(a.ops, (|rs| + 1) / 2) && a.transaction == p.transaction && a.ops == p.operations
    requires 2 * |hosts| - 3 <= |rs| <= 2 * |hosts| - 1
    requires Journaled(a, hosts, js, |rs| / 2, (|rs| + 1) / 2)
    requires After(h, hosts[|hosts| - 1], gone) && h.links == hosts[|hosts| - 1].links
    requires gone <= Markers(a.ops, |hosts| - 1) && (gone != {} ==> |rs| == 2 * |a.ops|)
    requires |rs| == 2 * |hosts| - 1 ==> |hosts| <= |a.ops| && Awaits(a.ops[|hosts| - 1], hosts[|hosts| - 1])
    ensures Reversal(p).Valid()
    ensures RollbackAll(Reversal(p), js, |p.operations|, h).Restored?
    ensures RollbackAll(Reversal(p), js, |p.operations|, h).host.tree == hosts[0].tree
  {
    GoneWhenComplete(a, hosts, rs, gone);
    RollbackRestores(a, hosts, js, |rs| / 2, (|rs| + 1) / 2, |a.ops|, h, gone);
    AllocsIrrelevant(a, Reversal(p), js, |a.ops|, h);
    assert hosts[0].tree - {} == hosts[0].tree;
  }

  /**
   Recovery from any such leftover restores the base and fails the transaction, exactly when the
   bound on the journal admits the file; a longer one it refuses, and nothing changes.
   */
  lemma LeftoverIsUnwound(c: Config, hash: Hash, a: Attempt, p: PreparedPlan, hosts: seq<Host>, d: Disk,
                          rs: seq<Record>, gone: set<Path>)
    requires d.workspace.Some? && PlanHeld(c, hash, a, p, d.workspace.value.plan)
    requires Leftover(hash, a, hosts, d.tree, d.workspace.value, rs, gone)
    requires Reversible(d.state)
    ensures RecoverDisk(c, hash, d)
            == if |d.workspace.value.journal| <= c.maxJournalBytes
               then (Disk(hosts[0].tree, Failing(d.state), None), RolledBack)
               else (d, Refused(BadJournal(RecordLength)))
  {
    hide Decode, ReadFrom, RollbackAll, Executes, Shaped;
    var w := d.workspace.value;
    if |w.journal| > c.maxJournalBytes {
      return;
    }
    var js := HeldReadsBack(c, hash, a, hosts, w.journal, rs);
    RecordedIsJournaled(a, hosts, rs, js);
    LeftoverRollsBack(a, p, hosts, js, rs, HostOf(d.tree, w), gone);
    UnwindsWhenRestored(d, p, js, hosts[0].tree);
  }

  lemma UnwindsWhenRestored(d: Disk, p: PreparedPlan, js: JournalState, base: Tree)
    requires Reversal(p).Valid() && d.workspace.Some? && Reversible(d.state)
    requires var r := RollbackAll(Reversal(p), js, |p.operations|, HostOf(d.tree, d.workspace.value));
             r.Restored? && r.host.tree == base
    ensures Unwind(d, p, js) == (Disk(base, Failing(d.state), None), RolledBack)
  {
  }

  lemma GoneWhenComplete(a: Attempt, hosts: seq<Host>, rs: seq<Record>, gone: set<Path>)
    requires Executes(a, hosts) && 2 * |hosts| - 3 <= |rs| <= 2 * |hosts| - 1
    requires gone != {} ==> |rs| == 2 * |a.ops|
    ensures |a.ops| > |rs| / 2 ==> gone == {}
    ensures var reached := if |a.ops| < |hosts| then |a.ops| else |hosts| - 1;
            reached == |hosts| - 1
  {
  }

  // ------------------------------------------------------ interrupted recovery

  /** Recovery was itself interrupted after it had undone operations u and later. */
  ghost predicate HalfUnwound(hash: Hash, a: Attempt, hosts: seq<Host>, tree: Tree, w: Workspace, rs: seq<Record>, u: nat, gone: set<Path>) {
    && Executes(a, hosts) && Shaped(a.ops, (|rs| + 1) / 2) && Reentry.Private(a, hosts[0])
    && Holds(hash, a, hosts, w.journal, rs)
    && 2 * |hosts| - 3 <= |rs| <= 2 * |hosts| - 1
    && u < |hosts| && Reentry.StoppedAt(a, hosts, u, HostOf(tree, w), gone)
    && (gone != {} ==> |rs| == 2 * |a.ops|)
    && (|rs| == 2 * |hosts| - 1 ==> |hosts| <= |a.ops| && Awaits(a.ops[|hosts| - 1], hosts[|hosts| - 1]))
    && !w.marker
  }

  /** Every completed operation that was already undone is a mode change. */
  predicate OnlyModesUndone(a: Attempt, u: nat, completed: nat)
    requires completed <= |a.ops|
  {
    forall i :: u <= i < completed ==> a.ops[i].IsMode()
  }

  /**
   Recovering again after an interrupted recovery restores the base exactly when only mode
   changes had been undone; otherwise it reports a conflict, leaves the tree as it found it
   and keeps the transaction's leftovers. It never settles on a third tree.
   */
  lemma InterruptedRecoveryIsSafe(c: Config, hash: Hash, a: Attempt, p: PreparedPlan, hosts: seq<Host>, d: Disk,
                                  rs: seq<Record>, u: nat, gone: set<Path>)
    requires d.workspace.Some? && |d.workspace.value.journal| <= c.maxJournalBytes && PlanHeld(c, hash, a, p, d.workspace.value.plan)
    requires HalfUnwound(hash, a, hosts, d.tree, d.workspace.value, rs, u, gone)
    requires Reversible(d.state) && d.state != Some(Committing)
    ensures |rs| / 2 <= |a.ops|
    ensures RecoverDisk(c, hash, d)
            == if OnlyModesUndone(a, u, |rs| / 2)
               then (Disk(hosts[0].tree, Failing(d.state), None), RolledBack)
               else (d, Conflicted)
  {
    hide Decode, ReadLog, RollbackAll, Executes, Shaped, OnlyModesUndone;
    var w := d.workspace.value;
    var js := HeldReadsBack(c, hash, a, hosts, w.journal, rs);
    RecordedIsJournaled(a, hosts, rs, js);
    RollsBackAgain(hash, a, p, hosts, d.tree, w, js, rs, u, gone);
    assert Keep(w, HostOf(d.tree, w)) == w;
  }

  lemma RollsBackAgain(hash: Hash, a: Attempt, p: PreparedPlan, hosts: seq<Host>, tree: Tree, w: Workspace, js: JournalState,
                       rs: seq<Record>, u: nat, gone: set<Path>)
    requires HalfUnwound(hash, a, hosts, tree, w, rs, u, gone) && a.transaction == p.transaction && a.ops == p.operations
    requires Journaled(a, hosts, js, |rs| / 2, (|rs| + 1) / 2)
    ensures Reversal(p).Valid() && |rs| / 2 <= |a.ops|
    ensures var h, again := HostOf(tree, w), RollbackAll(Reversal(p), js, |p.operations|, HostOf(tree, w));
            if OnlyModesUndone(a, u, |rs| / 2) then again.Restored? && again.host.tree == hosts[0].tree else again == Stuck(h)
  {
    hide RollbackAll, Awaits;
    var h := HostOf(tree, w);
    GoneWhenComplete(a, hosts, rs, gone);
    Reentry.SecondRollback(a, hosts, js, |rs| / 2, (|rs| + 1) / 2, u, h, gone);
    AllocsIrrelevant(a, Reversal(p), js, |a.ops|, h);
    assert hosts[0].tree - {} == hosts[0].tree;
  }

  lemma {:induction false} AllocsIrrelevantTo(a: Attempt, b: Attempt, js: JournalState, k: nat, u: nat, h: Host)
    requires a.Valid() && b.Valid() && a.transaction == b.transaction && a.ops == b.ops && u <= k <= |a.ops|
    ensures Reentry.RollbackTo(a, js, k, u, h) == Reentry.RollbackTo(b, js, k, u, h)
  {
    if k > u {
      assert RollbackOne(a, js, k - 1, h) == RollbackOne(b, js, k - 1, h);
      match RollbackOne(a, js, k - 1, h)
      case Restored(h') => AllocsIrrelevantTo(a, b, js, k - 1, u, h');
      case Stuck(_) =>
    }
  }

  /** Where recovery can be lost: after it undid operations `until` and later, or with all undone and the state settled. */
  datatype Loss = Undoing(until: nat) | Settling

  /** The first operation that is undone, of n. */
  function Stop(loss: Loss, n: nat): (u: nat)
    ensures u <= n
  {
    if loss.Settling? then 0 else if loss.until < n then loss.until else n
  }

  /** The disk when the reversal is lost there. The transaction directory is still in place. */
  function Interrupted(d: Disk, p: PreparedPlan, js: JournalState, loss: Loss): Disk
    requires d.workspace.Some? && Reversal(p).Valid()
  {
    var n := |p.operations|;
    var r := Reentry.RollbackTo(Reversal(p), js, n, Stop(loss, n), HostOf(d.tree, d.workspace.value));
    var state := if loss.Settling? && r.Restored? && Reversible(d.state) then Failing(d.state) else Claimed(d.state);
    Disk(r.host.tree, state, Some(Keep(d.workspace.value, r.host)))
  }

  /** The last operation before which a rollback that stops at `u` can stop. */
  function StoppedBefore(hosts: seq<Host>, u: nat): (v: nat)
    requires hosts != []
    ensures v < |hosts|
  {
    if u < |hosts| then u else |hosts| - 1
  }

  lemma InterruptedIsHalfUnwound(hash: Hash, a: Attempt, p: PreparedPlan, hosts: seq<Host>, d: Disk, js: JournalState,
                                 rs: seq<Record>, loss: Loss, gone: set<Path>)
    requires d.workspace.Some? && Leftover(hash, a, hosts, d.tree, d.workspace.value, rs, gone)
    requires Reentry.Private(a, hosts[0])
    requires a.transaction == p.transaction && a.ops == p.operations
    requires Journaled(a, hosts, js, |rs| / 2, (|rs| + 1) / 2)
    ensures var v, d' := StoppedBefore(hosts, Stop(loss, |a.ops|)), Interrupted(d, p, js, loss);
            && HalfUnwound(hash, a, hosts, d'.tree, d'.workspace.value, rs, v, gone * Markers(a.ops, v))
            && d'.state == if loss.Settling? && Reversible(d.state) then Failing(d.state) else Claimed(d.state)
  {
    hide Awaits, RollbackOne, Reentry.RollbackTo, Reentry.Private, Shaped, Holds, Markers, StepsTo, IntentFaithful, CompletionFaithful;
    var h, u := HostOf(d.tree, d.workspace.value), Stop(loss, |a.ops|);
    GoneWhenComplete(a, hosts, rs, gone);
    Reentry.PartialRollback(a, hosts, js, |rs| / 2, (|rs| + 1) / 2, |a.ops|, u, h, gone);
    AllocsIrrelevantTo(a, Reversal(p), js, |a.ops|, u, h);
    var h' := Reentry.RollbackTo(a, js, |a.ops|, u, h).host;
    assert HostOf(h'.tree, Keep(d.workspace.value, h')) == h';
  }

  /**
   Fail-closed: lose recovery after any number of undos, or after it settled the state, and
   recover again. Either the base is back or the conflict is reported with nothing touched and
   nothing dropped.
   */
  lemma LostRecoveryIsSafe(c: Config, hash: Hash, a: Attempt, p: PreparedPlan, hosts: seq<Host>, d: Disk, js: JournalState,
                           rs: seq<Record>, loss: Loss, gone: set<Path>)
    requires d.workspace.Some? && |d.workspace.value.journal| <= c.maxJournalBytes && PlanHeld(c, hash, a, p, d.workspace.value.plan) && Reversible(d.state)
    requires Leftover(hash, a, hosts, d.tree, d.workspace.value, rs, gone)
    requires Reentry.Private(a, hosts[0])
    requires ReadLog(hash, c.maxJournalBytes, d.workspace.value.journal) == Ok(js)
    ensures |rs| / 2 <= |a.ops|
    ensures var d' := Interrupted(d, p, js, loss);
            RecoverDisk(c, hash, d')
            == if OnlyModesUndone(a, StoppedBefore(hosts, Stop(loss, |a.ops|)), |rs| / 2)
               then (Disk(hosts[0].tree, Failing(d.state), None), RolledBack)
               else (d', Conflicted)
  {
    hide Decode, ReadLog, RollbackAll, Executes, Shaped, OnlyModesUndone, RecoverDisk;
    var read := HeldReadsBack(c, hash, a, hosts, d.workspace.value.journal, rs);
    RecordedIsJournaled(a, hosts, rs, js);
    InterruptedIsHalfUnwound(hash, a, p, hosts, d, js, rs, loss, gone);
    var v := StoppedBefore(hosts, Stop(loss, |a.ops|));
    InterruptedRecoveryIsSafe(c, hash, a, p, hosts, Interrupted(d, p, js, loss), rs, v, gone * Markers(a.ops, v));
  }

  /**
   Recovery is not idempotent: lost once it has undone everything, whether or not it settled the
   state, it calls its own work a conflict, although the tree is already the base.
   */
  lemma UndoneRecoveryConflicts(c: Config, hash: Hash, a: Attempt, p: PreparedPlan, hosts: seq<Host>, d: Disk, js: JournalState,
                                rs: seq<Record>, loss: Loss, gone: set<Path>)
    requires d.workspace.Some? && |d.workspace.value.journal| <= c.maxJournalBytes && PlanHeld(c, hash, a, p, d.workspace.value.plan) && Reversible(d.state)
    requires Leftover(hash, a, hosts, d.tree, d.workspace.value, rs, gone) && Stop(loss, |a.ops|) == 0
    requires Reentry.Private(a, hosts[0])
    requires ReadLog(hash, c.maxJournalBytes, d.workspace.value.journal) == Ok(js)
    requires |rs| >= 2 && !a.ops[0].IsMode()
    ensures var d' := Interrupted(d, p, js, loss);
            d'.tree == hosts[0].tree && RecoverDisk(c, hash, d') == (d', Conflicted)
  {
    var read := HeldReadsBack(c, hash, a, hosts, d.workspace.value.journal, rs);
    RecordedIsJournaled(a, hosts, rs, js);
    UndoneTree(hash, a, p, hosts, d, js, rs, loss, gone);
    LostRecoveryIsSafe(c, hash, a, p, hosts, d, js, rs, loss, gone);
    assert !OnlyModesUndone(a, 0, |rs| / 2);
  }

  lemma UndoneTree(hash: Hash, a: Attempt, p: PreparedPlan, hosts: seq<Host>, d: Disk, js: JournalState,
                   rs: seq<Record>, loss: Loss, gone: set<Path>)
    requires d.workspace.Some? && Leftover(hash, a, hosts, d.tree, d.workspace.value, rs, gone) && Stop(loss, |a.ops|) == 0
    requires Reentry.Private(a, hosts[0])
    requires a.transaction == p.transaction && a.ops == p.operations
    requires Journaled(a, hosts, js, |rs| / 2, (|rs| + 1) / 2)
    ensures Interrupted(d, p, js, loss).tree == hosts[0].tree
  {
    hide Executes, Shaped, Awaits, Holds, Leftover, Journaled, Reentry.Private, Reentry.RollbackTo;
    InterruptedIsHalfUnwound(hash, a, p, hosts, d, js, rs, loss, gone);
    assert hosts[0].tree - {} == hosts[0].tree;
  }

  /** What is durable when recovery is lost. */
  function RecoveryLost(c: Config, hash: Hash, d: Disk, loss: Loss): Disk {
    if d.workspace.None? then d
    else match ReadPlan(c, hash, d.workspace.value)
      case Err(_) => d
      case Ok(p) =>
        match ReadLog(hash, c.maxJournalBytes, d.workspace.value.journal)
        case Err(_) => d
        case Ok(js) =>
          if d.workspace.value.marker then
            var (settled, outcome) := Finalize(d, p, js);
            if outcome.Finalized? && loss.Settling? then d.(state := settled.state) else d
          else if d.state == Some(Committed) then d
          else Interrupted(d, p, js, loss)
  }

  // ------------------------------------------------------ nothing has begun

  /** The transaction directory of a commit that ran no operation. */
  ghost predicate Unbegun(c: Config, hash: Hash, a: Attempt, p: PreparedPlan, w: Workspace) {
    && PlanHeld(c, hash, a, p, w.plan) && w.journal == Log(hash, SetsFileMode(a.ops), []) && !w.marker
    && |w.journal| <= c.maxJournalBytes
  }

  lemma UnbegunReads(c: Config, hash: Hash, a: Attempt, p: PreparedPlan, w: Workspace) returns (js: JournalState)
    requires Unbegun(c, hash, a, p, w)
    ensures Reversal(p).Valid() && ReadPlan(c, hash, w) == Ok(p)
    ensures ReadLog(hash, c.maxJournalBytes, w.journal) == Ok(js) && js.intents == map[]
  {
    HoldsWhole(hash, a, [], []);
    js := HeldReadsBack(c, hash, a, [], w.journal, []);
  }

  /** Whatever the tree, recovery leaves it alone and fails the transaction; a stale one it calls a conflict. */
  lemma UnbegunRecovers(c: Config, hash: Hash, a: Attempt, p: PreparedPlan, d: Disk)
    requires d.workspace.Some? && Unbegun(c, hash, a, p, d.workspace.value)
    ensures Reversible(d.state) ==> RecoverDisk(c, hash, d) == (Disk(d.tree, Failing(d.state), None), RolledBack)
    ensures d.state == Some(Stale) ==> RecoverDisk(c, hash, d) == (d, Conflicted)
  {
    var js := UnbegunReads(c, hash, a, p, d.workspace.value);
    if Reversible(d.state) {
      NothingToReverse(Reversal(p), js, |p.operations|, HostOf(d.tree, d.workspace.value));
      UnwindsWhenRestored(d, p, js, d.tree);
    } else if d.state == Some(Stale) {
      StaleLeftoverIsConflict(c, hash, d);
    }
  }

  lemma {:induction false} NothingToReverseTo(a: Attempt, js: JournalState, k: nat, u: nat, h: Host)
    requires a.Valid() && u <= k <= |a.ops| && js.intents == map[]
    ensures Reentry.RollbackTo(a, js, k, u, h) == Restored(h)
  {
    if u < k {
      NothingToReverseTo(a, js, k - 1, u, h);
    }
  }

  /** A lost recovery leaves such a directory as it was. */
  lemma UnbegunStays(c: Config, hash: Hash, a: Attempt, p: PreparedPlan, d: Disk, loss: Loss)
    requires d.workspace.Some? && Unbegun(c, hash, a, p, d.workspace.value)
    requires Reversible(d.state) || d.state == Some(Stale)
    ensures var d' := RecoveryLost(c, hash, d, loss);
            && d'.tree == d.tree && d'.workspace == d.workspace
            && (d.state == Some(Stale) ==> d' == d)
            && (Reversible(d.state) ==> Reversible(d'.state) && Failing(d'.state) == Failing(d.state))
  {
    var w := d.workspace.value;
    var js := UnbegunReads(c, hash, a, p, w);
    NothingToReverseTo(Reversal(p), js, |p.operations|, Stop(loss, |p.operations|), HostOf(d.tree, w));
    assert Keep(w, HostOf(d.tree, w)) == w;
  }

  // --------------------------------------------------------- finished runs

  /** A complete run whose markers are cleared. */
  ghost predicate Finished(plan: CommitPlan, a: Attempt, hosts: seq<Host>, final: Image, t: Tree) {
    && Executes(a, hosts) && |hosts| == |a.ops| + 1 && Scenario(plan, a, hosts[0], final) && NoMarkerClash(plan, final)
    && t == hosts[|a.ops|].tree - Markers(a.ops, |a.ops|)
  }

  /** Where a mode operation ran, the tree holds the base node with the planned mode. */
  lemma ModeSettled(plan: CommitPlan, a: Attempt, hosts: seq<Host>, final: Image, t: Tree, i: nat)
    requires Finished(plan, a, hosts, final, t) && i < |a.ops| && a.ops[i].IsMode()
    ensures var p := a.ops[i].path;
            && p in hosts[0].tree && p in t && t[p] == WithMode(hosts[0].tree[p], a.ops[i].afterMode)
            && p in hosts[i].tree && hosts[i].tree[p] == hosts[0].tree[p]
  {
    var p, h := a.ops[i].path, hosts[0];
    ModeTarget(plan, a, h, final, i);
    FateOf(a, hosts, i, p);
    FateOf(a, hosts, |a.ops|, p);
    var e := ServedBy(plan, a, h.tree, final, i);
    assert Survives(plan, h.tree, final, p);
    SurvivorFate(plan, a, h, final, p, |a.ops|);
    SurvivorTouched(plan, a, h, final, p, i);
    PlannedIsShaped(plan, a, h.tree, final);
    assert ModeRan(a, |a.ops|, p);
  }

  lemma ModeOperationVerified(plan: CommitPlan, a: Attempt, hosts: seq<Host>, final: Image, t: Tree, i: nat,
                              completed: map<u32, Witness>, metadata: map<u32, FileStamp>)
    requires Finished(plan, a, hosts, final, t) && i < |a.ops|
    requires EvidenceAt(a, hosts, i, completed, metadata)
    ensures a.ops[i].SetDirectoryMode? ==> DirectoryVerified(t, a.ops[i], Lookup(completed, i))
    ensures a.ops[i].SetFileMode? ==>
              i in metadata && a.ops[i].path in t && t[a.ops[i].path].stamp == metadata[i] && metadata[i].kind == File
  {
    if a.ops[i].IsMode() {
      ModeSettled(plan, a, hosts, final, t, i);
      StampedIsFileMode(a, i, hosts[i]);
    }
  }

  /** The stamp found for a path is the one some file-mode operation recorded. */
  lemma {:induction false} StampForOrigin(ops: seq<Operation>, metadata: map<u32, FileStamp>, path: Path, n: nat) returns (i: nat)
    requires n <= |ops| < 0x1_0000_0000
    ensures var s := StampFor(ops, metadata, path, n);
            if s.Some? then i < n && ops[i].SetFileMode? && ops[i].path == path && i in metadata && metadata[i] == s.value
            else forall j :: 0 <= j < n && ops[j].SetFileMode? && ops[j].path == path ==> j !in metadata
  {
    i := 0;
    if n > 0 {
      if ops[n - 1].SetFileMode? && ops[n - 1].path == path && n - 1 in metadata {
        i := n - 1;
      } else {
        i := StampForOrigin(ops, metadata, path, n - 1);
      }
    }
  }

  lemma EntryOfFinished(plan: CommitPlan, a: Attempt, hosts: seq<Host>, final: Image, t: Tree, e: DiffEntry)
    requires Finished(plan, a, hosts, final, t) && e in plan.diff
    ensures EntryTrue(plan, e, hosts[0].tree, final) && Served(plan, a.ops, e) && EntryError(plan, e).None? && WellFormedImage(final)
  {
    hide EntryTrue, Served, EntryError, Staged, Executes, NoMarkerClash;
    var j :| 0 <= j < |plan.diff| && plan.diff[j] == e;
  }

  lemma FinishedRealizes(plan: CommitPlan, a: Attempt, hosts: seq<Host>, final: Image, t: Tree)
    requires Finished(plan, a, hosts, final, t)
    ensures Realizes(t, final)
  {
    LoweringIsFaithful(plan, a, hosts, final);
  }

  lemma FinalEntryVerified(plan: CommitPlan, a: Attempt, hosts: seq<Host>, final: Image, t: Tree, e: DiffEntry,
                           completed: map<u32, Witness>, metadata: map<u32, FileStamp>)
    requires Finished(plan, a, hosts, final, t) && e in plan.diff
    requires Evidence(a, hosts, |a.ops|, completed, metadata)
    ensures FinalVerified(t, FinalState(e), StampFor(a.ops, metadata, e.path, |a.ops|))
  {
    hide ExactDiff, Orderly, Quotable, Staged, NoMarkerClash, Realizes, EntryError, WellFormedImage;
    FinishedRealizes(plan, a, hosts, final, t);
    EntryOfFinished(plan, a, hosts, final, t, e);
    var i := StampForOrigin(a.ops, metadata, e.path, |a.ops|);
    if StampFor(a.ops, metadata, e.path, |a.ops|).Some? {
      assert EvidenceAt(a, hosts, i, completed, metadata);
      ModeOperationVerified(plan, a, hosts, final, t, i, completed, metadata);
      StampedEntryVerified(t, e, final, hosts[0].tree, metadata[i]);
    } else if KeepsContent(e) {
      var k :| 0 <= k < |a.ops| && a.ops[k] == ContentOp(plan, e, 0);
      assert EvidenceAt(a, hosts, k, completed, metadata);
      ModeOperationVerified(plan, a, hosts, final, t, k, completed, metadata);
    } else {
      PlainEntryVerified(plan, t, e, final, hosts[0].tree);
    }
  }

  lemma StampedEntryVerified(t: Tree, e: DiffEntry, final: Image, base: Tree, stamp: FileStamp)
    requires e.path in t && t[e.path].stamp == stamp && stamp.kind == File
    requires Realizes(t, final) && (e.after.Some? ==> e.path in final && Promised(e.after.value, e.path, base, final))
    ensures FinalVerified(t, FinalState(e), Some(stamp))
  {
  }

  lemma PlainEntryVerified(plan: CommitPlan, t: Tree, e: DiffEntry, final: Image, base: Tree)
    requires Realizes(t, final) && EntryTrue(plan, e, base, final) && EntryError(plan, e).None? && !KeepsContent(e)
    requires WellFormedImage(final)
    ensures FinalVerified(t, FinalState(e), None)
  {
  }

  /** A complete run always verifies. */
  lemma FinishedVerifies(plan: CommitPlan, p: PreparedPlan, a: Attempt, hosts: seq<Host>, final: Image, t: Tree,
                         completed: map<u32, Witness>, metadata: map<u32, FileStamp>)
    requires Finished(plan, a, hosts, final, t) && Evidence(a, hosts, |a.ops|, completed, metadata)
    requires p.operations == a.ops && p.finalStates == FinalStates(plan.diff)
    ensures Verifies(t, p, metadata, completed)
  {
    forall i | 0 <= i < |a.ops| && a.ops[i].SetDirectoryMode?
      ensures DirectoryVerified(t, a.ops[i], Lookup(completed, i))
    {
      assert EvidenceAt(a, hosts, i, completed, metadata);
      ModeOperationVerified(plan, a, hosts, final, t, i, completed, metadata);
    }
    forall i | 0 <= i < |p.finalStates|
      ensures FinalVerified(t, p.finalStates[i], StampFor(a.ops, metadata, p.finalStates[i].0, |a.ops|))
    {
      FinalEntryVerified(plan, a, hosts, final, t, plan.diff[i], completed, metadata);
    }
  }

  /** With the commit marker durable, recovery finalizes: the tree is the planned one. */
  lemma MarkedIsFinalized(c: Config, hash: Hash, plan: CommitPlan, a: Attempt, p: PreparedPlan, hosts: seq<Host>,
                          final: Image, d: Disk, rs: seq<Record>)
    requires d.workspace.Some? && |d.workspace.value.journal| <= c.maxJournalBytes && PlanHeld(c, hash, a, p, d.workspace.value.plan)
    requires p.finalStates == FinalStates(plan.diff)
    requires Finished(plan, a, hosts, final, d.tree)
    requires Holds(hash, a, hosts, d.workspace.value.journal, rs) && |rs| == 2 * |a.ops|
    requires d.workspace.value.marker && d.state in {Some(Committing), Some(RecoveryRequired), Some(Committed)}
    ensures RecoverDisk(c, hash, d) == (Disk(d.tree, Some(Committed), None), Finalized)
    ensures Realizes(d.tree, final)
  {
    hide Decode, ReadLog, Scenario, Executes;
    var js := HeldReadsBack(c, hash, a, hosts, d.workspace.value.journal, rs);
    RecordedIsJournaled(a, hosts, rs, js);
    FinishedVerifies(plan, p, a, hosts, final, d.tree, js.completed, js.metadata);
    LoweringIsFaithful(plan, a, hosts, final);
  }
}
