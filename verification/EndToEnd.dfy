/**
 From an admitted artifact to the settled workspace: preparation, encoding, commit and
 recovery composed, with the exact conditions under which nothing but process loss interferes.
 */
module EndToEnd {
  import opened Types
  import opened Engine
  import opened Rollback
  import opened Planning
  import opened Ordering
  import opened Correctness
  import opened OperationLog
  import opened PlanCodec
  import opened PlanDurability
  import opened CrashRecovery
  import opened Overlaying
  import opened Committing
  import opened CommitRun
  import Reentry

  /** No operation is on the root. */
  lemma OperationsAreNamed(plan: CommitPlan, ops: seq<Operation>)
    requires Admissible(plan) && forall op :: op in ops ==> Justified(plan, op)
    ensures forall i :: 0 <= i < |ops| ==> ops[i].path != []
  {
    forall i | 0 <= i < |ops|
      ensures ops[i].path != []
    {
      assert ops[i] in ops && Justified(plan, ops[i]);
    }
  }

  /** What preparation and encoding produce is what the commit runs on. */
  lemma PreparedIsAccepted(c: Config, hash: Hash, plan: CommitPlan, p: PreparedPlan, allocs: seq<Alloc>, base: Tree, final: Image)
    requires ExactDiff(plan, base, final) && RealChanges(plan.diff) && 8 + 179 * |p.operations| <= c.maxJournalBytes
    requires Quotable(plan) && Prepared(plan, p.transaction, p.baseSnapshot, c.maxOperations, c.maxPathBytes, Ok(p)) && Encodable(p)
    requires |Sealed(hash, Body(p))| <= c.maxPlanBytes && DiffFits(plan.diff, c.maxOperations, c.maxPathBytes)
    requires |allocs| == |p.operations|
    ensures Accepted(c, hash, plan, Attempt(p.transaction, p.operations, allocs), p, Sealed(hash, Body(p)), base, final)
  {
    hide Decode, EntryTrue, RealChanges, Lower, InOrder, Served, Justified;
    ExactModesAgree(plan, base, final);
    PreparedReadsBack(hash, plan, base, final, p, c.maxOperations, c.maxPathBytes);
    LoweredIsOrderly(plan);
    OperationsAreNamed(plan, p.operations);
  }

  /**
   When the diff is larger than recovery's bounds, although its operations are not, recovery
   refuses every leftover of the transaction and touches nothing.
   */
  lemma OversizedDiffIsStranded(c: Config, hash: Hash, plan: CommitPlan, p: PreparedPlan, base: Tree, final: Image, d: Disk)
    requires ExactDiff(plan, base, final) && ModesAgree(plan) && RealChanges(plan.diff)
    requires Prepared(plan, p.transaction, p.baseSnapshot, c.maxOperations, c.maxPathBytes, Ok(p)) && Encodable(p)
    requires !DiffFits(plan.diff, c.maxOperations, c.maxPathBytes)
    requires d.workspace.Some? && d.workspace.value.plan == Sealed(hash, Body(p)) && |d.workspace.value.plan| <= c.maxPlanBytes
    ensures RecoverDisk(c, hash, d) == (d, Refused(BadPlan(Limit)))
  {
    PreparedReadsBack(hash, plan, base, final, p, c.maxOperations, c.maxPathBytes);
  }

  /** Content in the store, dependencies as they were, parents in place. */
  ghost predicate Provided(c: Config, s: Store, o: Observer, t: Tree, plan: CommitPlan, a: Attempt, observed: seq<Path>, written: seq<Path>)
    requires a.Valid() && Lists(observed, plan.readSet) && Lists(written, plan.writeSet)
  {
    && (forall i :: 0 <= i < |a.ops| ==> Stageable(s, a.ops[i]))
    && c.maxConflicts > 0 && |observed| + |written| <= c.maxDependencies
    && Readable(o, t, plan, observed) && Current(o, t, plan, observed, written)
    && (forall i :: 0 <= i < |a.ops| ==> ParentAsSeen(t, plan, a.ops[i]))
  }

  /** The conditions under which a commit of a plan that still holds has no reason to fail. */
  ghost predicate Unobstructed(c: Config, s: Store, o: Observer, t: Tree, plan: CommitPlan, a: Attempt, faults: Faults,
                               observed: seq<Path>, written: seq<Path>, image: Image)
    requires a.Valid() && Lists(observed, plan.readSet) && Lists(written, plan.writeSet)
  {
    && (forall point :: !faults(point)) && Provided(c, s, o, t, plan, a, observed, written)
    && (forall i :: 0 <= i < |a.ops| ==> Allowed(a.ops, t, image, i))
  }

  lemma ProvidedIsReady(c: Config, s: Store, o: Observer, t: Tree, plan: CommitPlan, a: Attempt, faults: Faults,
                        observed: seq<Path>, written: seq<Path>, e: CommitError)
    requires a.Valid() && Lists(observed, plan.readSet) && Lists(written, plan.writeSet)
    requires Provided(c, s, o, t, plan, a, observed, written) && ReadyFailure(e, c, s, o, t, plan, a, faults, observed, written)
    ensures e.Injected? && faults(e.point)
  {
    RevalidationIsExact(o, t, plan, observed, written, c.maxConflicts);
  }

  /** An unobstructed commit succeeds: none of the reasons a commit can give applies. */
  lemma UnobstructedSucceeds(c: Config, s: Store, o: Observer, t: Tree, plan: CommitPlan, a: Attempt, faults: Faults,
                             observed: seq<Path>, written: seq<Path>, image: Image, e: CommitError)
    requires a.Valid() && Lists(observed, plan.readSet) && Lists(written, plan.writeSet)
    requires Unobstructed(c, s, o, t, plan, a, faults, observed, written, image)
    ensures !CommitFailure(e, c, s, o, t, plan, a, faults, observed, written, image)
  {
    if ReadyFailure(e, c, s, o, t, plan, a, faults, observed, written) {
      ProvidedIsReady(c, s, o, t, plan, a, faults, observed, written, e);
    }
  }

  /** A plan with no entry at a marker's name avoids the markers of any tree it carries over to. */
  lemma UnclashedAvoids(plan: CommitPlan, a: Attempt, snapshot: Tree, final: Image, live: Tree)
    requires Planned(plan, a, snapshot, final) && Carries(plan, snapshot, final, live) && NoMarkerClash(plan, final)
    ensures AvoidsMarkers(a.ops, live, plan, final)
  {
    hide Allowed, NoMarkerClash, Overlay, Clashes;
    ExactOnLive(plan, snapshot, final, live);
    NoClashOnLive(plan, snapshot, final, live);
    forall k | 0 <= k < |a.ops|
      ensures !Clashes(a.ops, k)
    {
      NoClash(plan, a, live, Overlay(live, plan, final), k);
    }
  }

  /**
   That a plan avoids the markers is needed: of every plan that does not, lose the process right
   after the intent of the operation that meets the first one, and recovery is a conflict, with a
   tree that is neither the one before nor the one to be.
   */
  method LoseAtMarker(c: Committer, a: Attempt, p: PreparedPlan, encoded: seq<byte>, lost: bool, ids: Identities, k: nat,
                      plan: CommitPlan, observed: seq<Path>, written: seq<Path>, ghost snapshot: Tree, ghost final: Image)
    returns (r: Result<nat, CommitError>, outcome: Outcome)
    requires Accepted(c.config, c.hash, plan, a, p, encoded, snapshot, final) && Snapshotted(plan, snapshot)
    requires Trusted(snapshot, c.tree) && Fresh(a, c.tree, ids)
    requires c.state == Some(Revalidating) && c.workspace.None?
    requires Lists(observed, plan.readSet) && Lists(written, plan.writeSet)
    requires Provided(c.config, c.store, c.observer, c.tree, plan, a, observed, written)
    requires k < |a.ops| && MeetsMarker(a.ops, c.tree, Overlay(c.tree, plan, final), k)
    modifies c
    ensures r == Err(Injected(IntentSynced(k))) && outcome == Conflicted && c.state == Some(RecoveryRequired) && c.workspace.Some?
    ensures c.tree != old(c.tree)
  {
    hide Decode, Planned, Snapshotted, Trusted, Fresh, Overlay, MeetsMarker, Current;
    var faults: Faults := point => point == IntentSynced(k);
    r, outcome := c.CommitThenRecover(a, p, encoded, faults, lost, ids, plan, observed, written, snapshot, final);
    if r.Err? && ReadyFailure(r.error, c.config, c.store, c.observer, old(c.tree), plan, a, faults, observed, written) {
      ProvidedIsReady(c.config, c.store, c.observer, old(c.tree), plan, a, faults, observed, written, r.error);
    }
  }

  /** The bound on the journal admits the whole log of the plan's operations. */
  ghost predicate LogFits(c: Config, plan: CommitPlan) {
    Quotable(plan) && 8 + 179 * |Lower(plan).Ops()| <= c.maxJournalBytes
  }

  /** The prepared plan, what its operations will be handed by the host, and its encoding. */
  datatype Encoded = Encoded(attempt: Attempt, plan: PreparedPlan, bytes: seq<byte>)

  /** The attempt at a prepared plan: what the host will hand out, operation by operation. */
  function AttemptAt(p: PreparedPlan, allocate: nat -> Alloc): (a: Attempt)
    ensures a.transaction == p.transaction && a.ops == p.operations && |a.allocs| == |p.operations|
    ensures forall i :: 0 <= i < |a.allocs| ==> a.allocs[i] == allocate(i)
  {
    Attempt(p.transaction, p.operations, seq(|p.operations|, i requires 0 <= i => allocate(i)))
  }

  method PrepareEncoded(c: Config, hash: Hash, plan: CommitPlan, transaction: Digest, baseSnapshot: Digest, allocate: nat -> Alloc,
                        ghost snapshot: Tree, ghost final: Image)
    returns (r: Result<Encoded, CommitError>)
    requires LogFits(c, plan) && ExactDiff(plan, snapshot, final) && RealChanges(plan.diff)
    requires DiffFits(plan.diff, c.maxOperations, c.maxPathBytes)
    ensures r.Ok? ==> r.value.attempt.ops == Lower(plan).Ops() && r.value.attempt.transaction == transaction
    ensures r.Ok? ==> Accepted(c, hash, plan, r.value.attempt, r.value.plan, r.value.bytes, snapshot, final)
    ensures r.Ok? ==> r.value.attempt == AttemptAt(r.value.plan, allocate)
    ensures r.Ok? ==> forall op :: op in r.value.attempt.ops ==> SlotBelow(op, 0x1_0000_0000)
  {
    ExactModesAgree(plan, snapshot, final);
    var prepared := Prepare(plan, transaction, baseSnapshot, c.maxOperations, c.maxPathBytes);
    if prepared.Err? {
      return Err(Unprepared);
    }
    var p := prepared.value;
    SlotsBelow(plan);
    var encoded := Encode(hash, p);
    if encoded.Err? || |encoded.value| > c.maxPlanBytes {
      return Err(Unprepared);
    }
    var attempt := AttemptAt(p, allocate);
    PreparedIsAccepted(c, hash, plan, p, attempt.allocs, snapshot, final);
    return Ok(Encoded(attempt, p, encoded.value));
  }

  /** Among its first 2^32 identities of each sort the host repeats none, and uses none that is taken. */
  ghost predicate NewIdentities(t: Tree, allocate: nat -> Alloc, ids: Identities) {
    && (forall i: u32, q: Path :: q in t ==>
          t[q].stamp.id != allocate(i).directory && t[q].stamp.id != ids.files(i) && t[q].stamp.id != ids.links(i))
    && (forall i: u32, j: u32 ::
          && allocate(j).marker != allocate(i).directory && allocate(j).marker != ids.files(i) && allocate(j).marker != ids.links(i)
          && allocate(j).directory != ids.files(i) && allocate(j).directory != ids.links(i) && ids.files(j) != ids.links(i))
    && (forall i: u32, j: u32 :: i != j ==>
          allocate(i).directory != allocate(j).directory && ids.files(i) != ids.files(j) && ids.links(i) != ids.links(j))
  }

  /** No marker of this transaction is about. */
  ghost predicate NewTransaction(t: Tree, transaction: Digest) {
    forall q :: q in t ==> !Reentry.MarkedBy(t[q], transaction)
  }

  lemma NewIsFresh(plan: CommitPlan, a: Attempt, snapshot: Tree, final: Image, t: Tree, allocate: nat -> Alloc, ids: Identities)
    requires Planned(plan, a, snapshot, final) && NewIdentities(t, allocate, ids) && NewTransaction(t, a.transaction)
    requires forall i :: 0 <= i < |a.allocs| ==> a.allocs[i] == allocate(i)
    requires forall op :: op in a.ops ==> SlotBelow(op, 0x1_0000_0000)
    ensures Fresh(a, t, ids)
  {
    hide ExactDiff, Quotable, Justified, Served;
    forall i | 0 <= i < |a.ops| && HandedOut(a, ids, i).Some?
      ensures FreshAt(a, t, ids, i)
    {
      forall j | 0 <= j < |a.ops| && j != i
        ensures HandedOut(a, ids, j) != HandedOut(a, ids, i)
      {
        if i < j {
          assert Precedes(a.ops[i], a.ops[j]);
        } else {
          assert Precedes(a.ops[j], a.ops[i]);
        }
        assert a.allocs[i] == allocate(i) && a.allocs[j] == allocate(j);
        assert SlotBelow(a.ops[i], 0x1_0000_0000) && SlotBelow(a.ops[j], 0x1_0000_0000);
      }
      assert a.allocs[i] == allocate(i) && SlotBelow(a.ops[i], 0x1_0000_0000);
      forall j | 0 <= j < |a.ops|
        ensures a.allocs[j].marker != HandedOut(a, ids, i).value
      {
        assert a.allocs[j] == allocate(j);
      }
    }
  }

  /** Prepare, encode, commit under any fault injection, lose or resolve, and recover once; on any live tree. */
  method CommitArtifact(c: Committer, plan: CommitPlan, transaction: Digest, baseSnapshot: Digest, allocate: nat -> Alloc,
                        faults: Faults, lost: bool, ids: Identities, observed: seq<Path>, written: seq<Path>,
                        ghost snapshot: Tree, ghost final: Image)
    returns (r: Result<nat, CommitError>)
    requires c.state == Some(Reserved) && c.workspace.None? && LogFits(c.config, plan)
    requires ExactDiff(plan, snapshot, final) && RealChanges(plan.diff) && Snapshotted(plan, snapshot)
    requires DiffFits(plan.diff, c.config.maxOperations, c.config.maxPathBytes)
    requires Trusted(snapshot, c.tree) && NewIdentities(c.tree, allocate, ids) && NewTransaction(c.tree, transaction)
    requires Lists(observed, plan.readSet) && Lists(written, plan.writeSet)
    modifies c
    ensures Guarded(c.config, c.observer, old(c.tree), plan, observed, written)
            && AvoidsMarkers(Lower(plan).Ops(), old(c.tree), plan, final) ==>
              || Decided(c.Now(), old(c.tree), Overlay(old(c.tree), plan, final))
              || (c.state == Some(Stale) && c.tree == old(c.tree))
    ensures c.config.maxConflicts > 0 && !Current(c.observer, old(c.tree), plan, observed, written) ==>
              c.tree == old(c.tree) && r.Err? && c.state in {Some(Stale), Some(TransactionState.Failed)}
  {
    hide Overlay, Current, AvoidsMarkers, ExactDiff, Trusted, Snapshotted, Accepted, Fresh;
    var encoded := PrepareEncoded(c.config, c.hash, plan, transaction, baseSnapshot, allocate, snapshot, final);
    if encoded.Err? {
      c.state := Some(TransactionState.Failed);
      return Err(encoded.error);
    }
    var e := encoded.value;
    NewIsFresh(plan, e.attempt, snapshot, final, c.tree, allocate, ids);
    c.state := Some(Revalidating);
    var outcome;
    r, outcome := c.CommitThenRecover(e.attempt, e.plan, e.bytes, faults, lost, ids, plan, observed, written, snapshot, final);
  }
}
