/**
 A plan is made against a snapshot and carried out on the live tree. When what the execution saw
 still holds of the live tree, the plan is exact against that tree too, and what it is to become
 is the live tree overlaid with the diff.
 */
module Overlaying {
  import opened Types
  import opened Engine
  import opened Planning
  import opened Ordering
  import opened Correctness

  /** The live tree, with the planned nodes at the paths of the diff. */
  ghost function Overlay(live: Tree, plan: CommitPlan, final: Image): Image {
    map p | p in live.Keys + final.Keys && (if Named(plan, p) then p in final else p in live) ::
      if Named(plan, p) then final[p] else View(live[p])
  }

  /** Files and links have content, be it the payload of some marker; directories have neither content nor size. */
  ghost predicate Concrete(t: Tree) {
    forall p :: p in t ==> if t[p].stamp.kind == Directory then t[p].stamp.size == 0 && t[p].data == NoBytes else t[p].data != NoBytes
  }

  /** An unchanged stamp means the same content, or the same listing. */
  ghost predicate Vouches(snapshot: Tree, live: Tree, p: Path)
    requires p in snapshot && p in live
  {
    && live[p].data == snapshot[p].data
    && (IsDir(live, p) ==> forall q :: q in live && q != [] && Parent(q) == p ==> q in snapshot)
  }

  /**
   What the host is trusted with, and nothing more: its trees are well-formed, of files and links
   with content and directories with none, and it does not change a file or a listing behind an
   unchanged stamp.
   */
  ghost predicate Trusted(snapshot: Tree, live: Tree) {
    && WellFormed(live) && Concrete(live)
    && forall p :: p in snapshot && p in live && snapshot[p].stamp == live[p].stamp ==> Vouches(snapshot, live, p)
  }

  /** How a snapshot records: what was read is true of it, and directories are recorded by their stamps. */
  ghost predicate Snapshotted(plan: CommitPlan, snapshot: Tree) {
    && (forall p :: p in plan.readSet && plan.readSet[p].metadata.Some? ==>
          StateMatches(snapshot, p, plan.readSet[p].metadata.value))
    && (forall p :: p in plan.writeSet && IsDir(snapshot, p) && plan.writeSet[p].Some? ==> plan.writeSet[p].value.content.Stamp?)
  }

  /** The metadata that was read, and every write precondition, hold of the live tree. */
  ghost predicate StillTrue(plan: CommitPlan, live: Tree) {
    && (forall p :: p in plan.readSet && plan.readSet[p].metadata.Some? ==>
          StateMatches(live, p, plan.readSet[p].metadata.value))
    && (forall p :: p in plan.writeSet ==> StateMatches(live, p, plan.writeSet[p]))
  }

  /** A plan made against the snapshot, and a live tree on which all it relies on still holds. */
  ghost predicate Carries(plan: CommitPlan, snapshot: Tree, final: Image, live: Tree) {
    ExactDiff(plan, snapshot, final) && Snapshotted(plan, snapshot) && Trusted(snapshot, live) && StillTrue(plan, live)
  }

  // ------------------------------------------------------- one entry at a time

  /** A state observed in the snapshot and still matched describes the live node as well. */
  lemma StillObserved(s: NodeState, was: Node, live: Tree, p: Path)
    requires Observed(s, was) && StateMatches(live, p, Some(s)) && Concrete(live)
    ensures p in live && Observed(s, live[p]) && live[p].stamp.kind == was.stamp.kind && live[p].stamp.mode == was.stamp.mode
    ensures s.content.Stamp? ==> live[p].stamp == was.stamp
  {
  }

  lemma EntryStillTrue(plan: CommitPlan, snapshot: Tree, final: Image, live: Tree, e: DiffEntry)
    requires Carries(plan, snapshot, final, live) && e in plan.diff
    ensures EntryTrue(plan, e, live, Overlay(live, plan, final))
    ensures e.path in live ==> live[e.path].stamp.kind == snapshot[e.path].stamp.kind
  {
    assert EntryTrue(plan, e, snapshot, final) && Named(plan, e.path);
    var i :| 0 <= i < |plan.diff| && plan.diff[i] == e;
    assert EntryError(plan, plan.diff[i]).None?;
    assert StateMatches(live, e.path, plan.writeSet[e.path]);
    if e.before.Some? {
      StillObserved(plan.writeSet[e.path].value, snapshot[e.path], live, e.path);
      if plan.writeSet[e.path].value.content.Stamp? {
        assert Vouches(snapshot, live, e.path);
      }
    }
    if e.after.Some? {
      KeptContent(plan, snapshot, final, live, e);
    }
  }

  lemma KeptContent(plan: CommitPlan, snapshot: Tree, final: Image, live: Tree, e: DiffEntry)
    requires Carries(plan, snapshot, final, live) && e in plan.diff && e.after.Some?
    requires EntryTrue(plan, e, snapshot, final) && EntryError(plan, e).None?
    ensures e.path in Overlay(live, plan, final) && Promised(e.after.value, e.path, live, Overlay(live, plan, final))
  {
    assert Named(plan, e.path);
    if e.after.value.content.Stamp? && e.after.value.kind != Directory {
      assert StateMatches(live, e.path, plan.writeSet[e.path]);
      StillObserved(plan.writeSet[e.path].value, snapshot[e.path], live, e.path);
      assert Vouches(snapshot, live, e.path);
    }
  }

  // ------------------------------------------------------- the overlaid tree

  lemma NamedEntry(plan: CommitPlan, p: Path) returns (e: DiffEntry)
    requires Named(plan, p)
    ensures e in plan.diff && e.path == p
  {
    e :| e in plan.diff && e.path == p;
  }

  /** The parent of a planned path was observed, and is a directory of the overlay. */
  lemma PlannedParent(plan: CommitPlan, snapshot: Tree, final: Image, live: Tree, p: Path)
    requires Carries(plan, snapshot, final, live) && Named(plan, p) && p in final && p != []
    ensures ImageDir(Overlay(live, plan, final), Parent(p))
  {
    var e := NamedEntry(plan, p);
    var d := Parent(p);
    var i :| 0 <= i < |plan.diff| && plan.diff[i] == e;
    assert EntryError(plan, plan.diff[i]).None?;
    if !Named(plan, d) {
      assert !Differs(snapshot, final, d);
      assert StateMatches(snapshot, d, plan.readSet[d].metadata.value) && StateMatches(live, d, plan.readSet[d].metadata.value);
    }
  }

  /** No unplanned path of the live tree loses its parent: the listing of whatever goes is known. */
  lemma UnplannedParent(plan: CommitPlan, snapshot: Tree, final: Image, live: Tree, p: Path)
    requires Carries(plan, snapshot, final, live) && !Named(plan, p) && p in live && p != []
    ensures ImageDir(Overlay(live, plan, final), Parent(p))
  {
    var d := Parent(p);
    assert IsDir(live, d);
    if Named(plan, d) {
      var e := NamedEntry(plan, d);
      EntryStillTrue(plan, snapshot, final, live, e);
      if !ImageDir(final, d) {
        UnlistedGoes(plan, snapshot, final, live, p, e);
      }
    }
  }

  lemma UnlistedGoes(plan: CommitPlan, snapshot: Tree, final: Image, live: Tree, p: Path, e: DiffEntry)
    requires Carries(plan, snapshot, final, live) && p in live && p != [] && e in plan.diff && e.path == Parent(p)
    requires IsDir(live, e.path) && IsDir(snapshot, e.path) && !ImageDir(final, e.path)
    ensures Named(plan, p)
  {
    assert EntryTrue(plan, e, snapshot, final);
    assert StateMatches(live, e.path, plan.writeSet[e.path]);
    StillObserved(plan.writeSet[e.path].value, snapshot[e.path], live, e.path);
    assert Vouches(snapshot, live, e.path);
    assert p in snapshot && p !in final;
    assert Differs(snapshot, final, p);
  }

  lemma OverlayParents(plan: CommitPlan, snapshot: Tree, final: Image, live: Tree, p: Path)
    requires Carries(plan, snapshot, final, live) && p in Overlay(live, plan, final) && p != []
    ensures ImageDir(Overlay(live, plan, final), Parent(p))
  {
    hide Overlay, Carries, Trusted, StillTrue, Snapshotted, ExactDiff, ImageDir;
    OverlayAt(live, plan, final, p);
    if Named(plan, p) {
      PlannedParent(plan, snapshot, final, live, p);
    } else {
      UnplannedParent(plan, snapshot, final, live, p);
    }
  }

  lemma OverlayAt(live: Tree, plan: CommitPlan, final: Image, p: Path)
    requires p in Overlay(live, plan, final)
    ensures if Named(plan, p) then p in final && Overlay(live, plan, final)[p] == final[p]
            else p in live && Overlay(live, plan, final)[p] == View(live[p])
  {
  }

  /** Nodes of the live tree are viewed as an image describes them. */
  lemma ViewedWell(t: Tree, p: Path)
    requires Concrete(t) && p in t
    ensures var v := View(t[p]); if v.kind == Directory then v == DirectoryState(v.mode) else v.content != NoContent
  {
  }

  lemma OverlayWellFormed(plan: CommitPlan, snapshot: Tree, final: Image, live: Tree)
    requires Carries(plan, snapshot, final, live)
    ensures WellFormedImage(Overlay(live, plan, final))
  {
    hide Overlay, View, StillTrue, Snapshotted, Vouches;
    var image := Overlay(live, plan, final);
    forall p | p in image && p != []
      ensures ImageDir(image, Parent(p))
    {
      OverlayParents(plan, snapshot, final, live, p);
    }
    forall p | p in image
      ensures if image[p].kind == Directory then image[p] == DirectoryState(image[p].mode) else image[p].content != NoContent
    {
      OverlayAt(live, plan, final, p);
      if !Named(plan, p) {
        ViewedWell(live, p);
      }
    }
    OverlayRoot(plan, snapshot, final, live);
  }

  lemma OverlayRoot(plan: CommitPlan, snapshot: Tree, final: Image, live: Tree)
    requires Carries(plan, snapshot, final, live)
    ensures ImageDir(Overlay(live, plan, final), [])
  {
    assert !Named(plan, []);
  }

  /** The plan is exact against the live tree, and leads to the overlay. */
  lemma ExactOnLive(plan: CommitPlan, snapshot: Tree, final: Image, live: Tree)
    requires Carries(plan, snapshot, final, live)
    ensures ExactDiff(plan, live, Overlay(live, plan, final))
  {
    var image := Overlay(live, plan, final);
    OverlayWellFormed(plan, snapshot, final, live);
    forall e | e in plan.diff
      ensures EntryTrue(plan, e, live, image)
    {
      EntryStillTrue(plan, snapshot, final, live, e);
    }
    forall p | Differs(live, image, p)
      ensures Named(plan, p)
    {
    }
  }

  /** A marker name that the plan leaves free is free in the overlay: its directory is new. */
  lemma NoClashOnLive(plan: CommitPlan, snapshot: Tree, final: Image, live: Tree)
    requires Carries(plan, snapshot, final, live) && NoMarkerClash(plan, final)
    ensures NoMarkerClash(plan, Overlay(live, plan, final))
  {
    var image := Overlay(live, plan, final);
    forall e | e in plan.diff && NeedsCreate(e)
      ensures MarkerOf(e.path) !in image
    {
      EntryStillTrue(plan, snapshot, final, live, e);
      assert EntryTrue(plan, e, snapshot, final);
      assert Parent(MarkerOf(e.path)) == e.path;
      assert !IsDir(live, e.path);
    }
  }

  /** On the snapshot itself the overlay is the planned tree. */
  lemma OverlayOfSnapshot(plan: CommitPlan, snapshot: Tree, final: Image)
    requires ExactDiff(plan, snapshot, final)
    ensures Overlay(snapshot, plan, final) == final
  {
    var image := Overlay(snapshot, plan, final);
    forall p
      ensures p in image <==> p in final
      ensures p in image ==> image[p] == final[p]
    {
      assert !Named(plan, p) ==> !Differs(snapshot, final, p);
    }
  }
}
