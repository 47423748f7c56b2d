/** Capture of the base snapshot: a worklist over a quiescent tree, under three limits. */
module Snapshot {
  import opened Types
  import opened Engine
  import opened Rollback
  import opened Planning

  const MAX_U64: nat := 0xffff_ffff_ffff_ffff

  /** Limits on nodes, directory depth and the total size of files and links. */
  datatype Limits = Limits(maxNodes: nat, maxDepth: nat, maxTotalBytes: u64)

  datatype SnapshotError = NodeCount | Depth | TotalBytes

  /** The runtime's own directory is not part of the workspace. */
  predicate Reserved(q: Path) {
    q != [] && q[0] == RUNTIME_DIRECTORY
  }

  function Scope(t: Tree): set<Path> {
    set q | q in t && !Reserved(q)
  }

  /** The entries of directory `d` that the capture sees. */
  function Children(t: Tree, d: Path): set<Path> {
    set q | q in t && q != [] && !Reserved(q) && Parent(q) == d
  }

  function SizeOf(t: Tree, q: Path): nat
    requires q in t
  {
    if t[q].stamp.kind == Directory then 0 else t[q].stamp.size
  }

  /** Sum of file and link sizes over a set of paths. */
  ghost function Sizes(t: Tree, s: set<Path>): nat
    requires s <= t.Keys
  {
    if s == {} then 0
    else
      var q :| q in s;
      (if t[q].stamp.kind == Directory then 0 else t[q].stamp.size) + Sizes(t, s - {q})
  }

  lemma {:induction false} SizesWith(t: Tree, s: set<Path>, q: Path)
    requires s <= t.Keys && q in s
    ensures Sizes(t, s) == SizeOf(t, q) + Sizes(t, s - {q})
    decreases |s|
  {
    var p :| p in s && Sizes(t, s) == SizeOf(t, p) + Sizes(t, s - {p});
    if p != q {
      SizesWith(t, s - {p}, q);
      SizesWith(t, s - {q}, p);
      assert s - {p} - {q} == s - {q} - {p};
    }
  }

  lemma {:induction false} SizesMonotone(t: Tree, s: set<Path>, u: set<Path>)
    requires s <= u <= t.Keys
    ensures Sizes(t, s) <= Sizes(t, u)
    decreases |u|
  {
    if s != u {
      var q :| q in u && q !in s;
      SizesWith(t, u, q);
      SizesMonotone(t, s, u - {q});
    }
  }

  /** Everything the limits say about the workspace. */
  ghost predicate WithinLimits(t: Tree, limits: Limits) {
    && |Scope(t)| <= limits.maxNodes
    && (forall q :: q in Scope(t) && t[q].stamp.kind == Directory ==> |q| <= limits.maxDepth)
    && (Sizes(t, Scope(t)) <= limits.maxTotalBytes || limits.maxTotalBytes == MAX_U64)
  }

  /** The first limit that the workspace breaks is one that it does break. */
  ghost predicate Broken(t: Tree, limits: Limits, e: SnapshotError) {
    match e
    case NodeCount => |Scope(t)| > limits.maxNodes
    case Depth => exists q :: q in Scope(t) && t[q].stamp.kind == Directory && |q| > limits.maxDepth
    case TotalBytes => Sizes(t, Scope(t)) > limits.maxTotalBytes
  }

  type Captured = map<Path, FileStamp>

  function SaturatingAdd(a: nat, b: nat): nat {
    if a + b > MAX_U64 then MAX_U64 else a + b
  }

  /** Directories still to be read, each captured once and at its own depth. */
  ghost predicate Worklist(t: Tree, captured: Captured, pending: seq<(Path, nat)>) {
    && (forall i :: 0 <= i < |pending| ==> pending[i].0 in captured && IsDir(t, pending[i].0) && pending[i].1 == |pending[i].0|)
    && (forall i, j :: 0 <= i < j < |pending| ==> pending[i].0 != pending[j].0)
  }

  ghost predicate Listed(pending: seq<(Path, nat)>, d: Path) {
    exists i :: 0 <= i < |pending| && pending[i].0 == d
  }

  /** Captured are the root and exactly the entries of the directories already read. */
  ghost predicate Frontier(t: Tree, captured: Captured, pending: seq<(Path, nat)>) {
    && [] in captured
    && captured.Keys <= Scope(t)
    && (forall q :: q in captured ==> captured[q] == t[q].stamp)
    && (forall q :: q in Scope(t) && q != [] ==>
          (q in captured <==> Parent(q) in captured && !Listed(pending, Parent(q))))
  }

  ghost predicate Tallied(t: Tree, captured: Captured, bytes: nat, limits: Limits) {
    && captured.Keys <= t.Keys
    && bytes == SaturatingAdd(Sizes(t, captured.Keys), 0) <= limits.maxTotalBytes
    && (forall q :: q in captured && t[q].stamp.kind == Directory ==> |q| <= limits.maxDepth)
  }

  /** With nothing left to read, nothing in scope is missing. */
  lemma {:induction false} NothingMissing(t: Tree, captured: Captured, q: Path)
    requires WellFormed(t) && Frontier(t, captured, []) && q in Scope(t)
    ensures q in captured
    decreases |q|
  {
    if q != [] {
      NothingMissing(t, captured, Parent(q));
    }
  }

  /** Capturing one more entry adds it to the tallies, or breaks a limit for good. */
  lemma TallyNext(t: Tree, captured: Captured, bytes: nat, limits: Limits, q: Path)
    requires Tallied(t, captured, bytes, limits) && captured.Keys <= Scope(t)
    requires q in Scope(t) && q !in captured
    ensures var bytes' := SaturatingAdd(bytes, SizeOf(t, q));
            && bytes' == SaturatingAdd(Sizes(t, captured.Keys + {q}), 0)
            && |captured[q := t[q].stamp]| == |captured| + 1
            && captured[q := t[q].stamp].Keys == captured.Keys + {q}
            && (bytes' > limits.maxTotalBytes ==> Broken(t, limits, TotalBytes))
  {
    hide Sizes, SizeOf;
    var more := captured.Keys + {q};
    SizesWith(t, more, q);
    assert more - {q} == captured.Keys;
    SizesMonotone(t, more, Scope(t));
    assert captured[q := t[q].stamp].Keys == more;
  }

  lemma {:induction false} SubsetCount(s: set<Path>, u: set<Path>)
    requires s <= u
    ensures |s| <= |u|
    decreases |u|
  {
    if s != u {
      var q :| q in u && q !in s;
      SubsetCount(s, u - {q});
    }
  }

  /** The frontier while directory `d` is being read: `left` are its entries not captured yet. */
  ghost predicate Reading(t: Tree, captured: Captured, pending: seq<(Path, nat)>, d: Path, left: set<Path>) {
    && [] in captured && d in captured && !Listed(pending, d)
    && captured.Keys <= Scope(t)
    && (forall q :: q in captured ==> captured[q] == t[q].stamp)
    && left <= Children(t, d) && (forall q :: q in left ==> q !in captured)
    && (forall q :: q in Scope(t) && q != [] ==>
          (q in captured <==> Parent(q) in captured && !Listed(pending, Parent(q)) && q !in left))
  }

  lemma ReadNext(t: Tree, captured: Captured, pending: seq<(Path, nat)>, d: Path, left: set<Path>, q: Path)
    requires WellFormed(t) && Worklist(t, captured, pending) && Reading(t, captured, pending, d, left) && q in left
    ensures var captured' := captured[q := t[q].stamp];
            var pending' := if t[q].stamp.kind == Directory then pending + [(q, |q|)] else pending;
            Worklist(t, captured', pending') && Reading(t, captured', pending', d, left - {q})
  {
    var captured' := captured[q := t[q].stamp];
    var pending' := if t[q].stamp.kind == Directory then pending + [(q, |q|)] else pending;
    forall p
      ensures Listed(pending', p) <==> Listed(pending, p) || (t[q].stamp.kind == Directory && p == q)
    {
      if Listed(pending, p) {
        var i :| 0 <= i < |pending| && pending[i].0 == p;
        assert pending'[i].0 == p;
      }
      if t[q].stamp.kind == Directory && p == q {
        assert pending'[|pending|].0 == p;
      }
    }
    assert |q| == |d| + 1;
    forall p | p in Scope(t) && p != []
      ensures p in captured' <==> Parent(p) in captured' && !Listed(pending', Parent(p)) && p !in left - {q}
    {
      if Parent(p) == q {
        assert IsDir(t, q);
        assert q !in captured;
      }
    }
  }

  lemma ListedPop(pending: seq<(Path, nat)>)
    requires pending != []
    ensures forall p :: Listed(pending, p) <==> Listed(pending[..|pending| - 1], p) || p == pending[|pending| - 1].0
  {
    var rest, d := pending[..|pending| - 1], pending[|pending| - 1].0;
    forall p
      ensures Listed(pending, p) <==> Listed(rest, p) || p == d
    {
      if Listed(rest, p) {
        var i :| 0 <= i < |rest| && rest[i].0 == p;
        assert pending[i].0 == p;
      }
      if Listed(pending, p) && p != d {
        var i :| 0 <= i < |pending| && pending[i].0 == p;
        assert rest[i].0 == p;
      }
    }
    assert pending[|pending| - 1].0 == d;
  }

  lemma PopReads(t: Tree, captured: Captured, pending: seq<(Path, nat)>)
    requires Worklist(t, captured, pending) && Frontier(t, captured, pending) && pending != []
    ensures var rest, d := pending[..|pending| - 1], pending[|pending| - 1].0;
            Worklist(t, captured, rest) && Reading(t, captured, rest, d, Children(t, d))
  {
    ListedPop(pending);
  }

  /** Entries are counted as soon as they are seen, before any of them is captured. */
  lemma CountEntries(t: Tree, captured: Captured, pending: seq<(Path, nat)>, d: Path, maxNodes: nat)
    requires Reading(t, captured, pending, d, Children(t, d))
    ensures |captured| + |Children(t, d)| <= |Scope(t)|
  {
    var all := captured.Keys + Children(t, d);
    assert captured.Keys !! Children(t, d);
    SubsetCount(all, Scope(t));
  }

  /** What the traversal has so far. */
  datatype Progress = Progress(captured: Captured, pending: seq<(Path, nat)>, bytes: nat)

  ghost predicate InDirectory(t: Tree, limits: Limits, s: Progress, d: Path, left: set<Path>) {
    && Worklist(t, s.captured, s.pending) && Reading(t, s.captured, s.pending, d, left)
    && Tallied(t, s.captured, s.bytes, limits)
  }

  /** A directory that was read stays read. */
  ghost predicate Settles(s: Progress, s': Progress) {
    forall p :: p in s.captured && !Listed(s.pending, p) ==> p in s'.captured && !Listed(s'.pending, p)
  }

  function WithEntry(s: Progress, t: Tree, q: Path): Progress
    requires q in t
  {
    Progress(
      s.captured[q := t[q].stamp],
      if t[q].stamp.kind == Directory then s.pending + [(q, |q|)] else s.pending,
      SaturatingAdd(s.bytes, SizeOf(t, q)))
  }

  lemma SettlesItself(s: Progress)
    ensures Settles(s, s)
  {
  }

  lemma SettlesOn(s: Progress, s': Progress, s'': Progress)
    requires Settles(s, s') && Settles(s', s'')
    ensures Settles(s, s'')
  {
  }

  lemma EntryListed(t: Tree, limits: Limits, s: Progress, d: Path, left: set<Path>, q: Path)
    requires InDirectory(t, limits, s, d, left) && q in left
    ensures q in Children(t, d) && q in t && |q| == |d| + 1
  {
  }

  lemma EntryKeeps(t: Tree, limits: Limits, s: Progress, d: Path, left: set<Path>, q: Path)
    requires WellFormed(t) && InDirectory(t, limits, s, d, left) && q in left
    requires t[q].stamp.kind == Directory ==> |q| <= limits.maxDepth
    requires SaturatingAdd(s.bytes, SizeOf(t, q)) <= limits.maxTotalBytes
    ensures InDirectory(t, limits, WithEntry(s, t, q), d, left - {q})
    ensures |WithEntry(s, t, q).captured| == |s.captured| + 1
    ensures Settles(s, WithEntry(s, t, q))
  {
    TallyNext(t, s.captured, s.bytes, limits, q);
    ReadNext(t, s.captured, s.pending, d, left, q);
    ListedAppend(s.pending, q);
  }

  lemma EntryTooLarge(t: Tree, limits: Limits, s: Progress, d: Path, left: set<Path>, q: Path)
    requires InDirectory(t, limits, s, d, left) && q in left
    requires SaturatingAdd(s.bytes, SizeOf(t, q)) > limits.maxTotalBytes
    ensures Broken(t, limits, TotalBytes) && limits.maxTotalBytes < MAX_U64
  {
    TallyNext(t, s.captured, s.bytes, limits, q);
  }

  /** An entry either breaks a limit or is captured. */
  lemma NextEntry(t: Tree, limits: Limits, s: Progress, s': Progress, d: Path, left: set<Path>, q: Path)
    requires WellFormed(t) && InDirectory(t, limits, s', d, left) && q in left && Settles(s, s')
    ensures q in t
    ensures var deep, large := t[q].stamp.kind == Directory && |d| + 1 > limits.maxDepth,
                               SaturatingAdd(s'.bytes, SizeOf(t, q)) > limits.maxTotalBytes;
            && (deep ==> Broken(t, limits, Depth))
            && (large ==> Broken(t, limits, TotalBytes) && limits.maxTotalBytes < MAX_U64)
            && (!deep && !large ==>
                  && InDirectory(t, limits, WithEntry(s', t, q), d, left - {q}) && Settles(s, WithEntry(s', t, q))
                  && |WithEntry(s', t, q).captured| == |s'.captured| + 1)
  {
    hide InDirectory, Settles, Broken, SaturatingAdd, SizeOf, WithEntry, Children, WellFormed;
    EntryListed(t, limits, s', d, left, q);
    if t[q].stamp.kind == Directory && |d| + 1 > limits.maxDepth {
      DeepEntry(t, limits, d, q);
    }
    if SaturatingAdd(s'.bytes, SizeOf(t, q)) > limits.maxTotalBytes {
      EntryTooLarge(t, limits, s', d, left, q);
    } else if t[q].stamp.kind == Directory ==> |d| + 1 <= limits.maxDepth {
      EntryKeeps(t, limits, s', d, left, q);
      SettlesOn(s, s', WithEntry(s', t, q));
    }
  }

  /** Read the entries of one directory: count them all, then capture each. */
  method ReadDirectory(t: Tree, limits: Limits, s: Progress, nodes: nat, d: Path)
    returns (error: Option<SnapshotError>, s': Progress, nodes': nat)
    requires WellFormed(t) && InDirectory(t, limits, s, d, Children(t, d)) && nodes == |s.captured|
    ensures error.Some? ==> Broken(t, limits, error.value) && (error == Some(TotalBytes) ==> limits.maxTotalBytes < MAX_U64)
    ensures error.None? ==> InDirectory(t, limits, s', d, {}) && Settles(s, s') && nodes' == |s'.captured| <= limits.maxNodes
  {
    hide Worklist, Tallied, Reading, Settles;
    s' := s;
    var left := Children(t, d);
    CountEntries(t, s.captured, s.pending, d, limits.maxNodes);
    SettlesItself(s);
    nodes' := nodes + |left|;
    if nodes' > limits.maxNodes {
      return Some(NodeCount), s', nodes';
    }
    while left != {}
      invariant InDirectory(t, limits, s', d, left) && Settles(s, s')
      invariant nodes' == |s'.captured| + |left| <= limits.maxNodes
      decreases |left|
    {
      var q :| q in left;
      NextEntry(t, limits, s, s', d, left, q);
      if t[q].stamp.kind == Directory && |d| + 1 > limits.maxDepth {
        return Some(Depth), s', nodes';
      }
      if SaturatingAdd(s'.bytes, SizeOf(t, q)) > limits.maxTotalBytes {
        return Some(TotalBytes), s', nodes';
      }
      s' := WithEntry(s', t, q);
      left := left - {q};
    }
    error := None;
  }

  lemma DeepEntry(t: Tree, limits: Limits, d: Path, q: Path)
    requires q in Children(t, d) && t[q].stamp.kind == Directory && |d| + 1 > limits.maxDepth
    ensures Broken(t, limits, Depth)
  {
    assert q in Scope(t) && |q| == |d| + 1;
  }

  lemma ListedAppend(pending: seq<(Path, nat)>, q: Path)
    ensures forall p :: Listed(pending + [(q, |q|)], p) <==> Listed(pending, p) || p == q
  {
    forall p
      ensures Listed(pending + [(q, |q|)], p) <==> Listed(pending, p) || p == q
    {
      if Listed(pending, p) {
        var i :| 0 <= i < |pending| && pending[i].0 == p;
        assert (pending + [(q, |q|)])[i].0 == p;
      }
      assert (pending + [(q, |q|)])[|pending|].0 == q;
    }
  }

  ghost predicate Between(t: Tree, limits: Limits, s: Progress, done: set<Path>) {
    && Worklist(t, s.captured, s.pending) && Frontier(t, s.captured, s.pending)
    && Tallied(t, s.captured, s.bytes, limits)
    && done <= Scope(t) && (forall p :: p in done ==> p in s.captured && !Listed(s.pending, p))
  }

  lemma NextDirectory(t: Tree, limits: Limits, s: Progress, done: set<Path>)
    requires Between(t, limits, s, done) && s.pending != []
    ensures var d, s' := s.pending[|s.pending| - 1].0, s.(pending := s.pending[..|s.pending| - 1]);
            && d !in done && d in Scope(t)
            && InDirectory(t, limits, s', d, Children(t, d))
            && (forall p :: p in done + {d} ==> p in s'.captured && !Listed(s'.pending, p))
  {
    var rest, d := s.pending[..|s.pending| - 1], s.pending[|s.pending| - 1].0;
    PopReads(t, s.captured, s.pending);
    ListedPop(s.pending);
    assert Listed(s.pending, d);
    forall p | p in done + {d}
      ensures p in s.captured && !Listed(rest, p)
    {
    }
  }

  lemma DirectoryDone(t: Tree, limits: Limits, s: Progress, s': Progress, d: Path, done: set<Path>)
    requires InDirectory(t, limits, s', d, {}) && Settles(s, s') && done <= Scope(t) && d in Scope(t)
    requires forall p :: p in done + {d} ==> p in s.captured && !Listed(s.pending, p)
    ensures Between(t, limits, s', done + {d})
  {
  }

  lemma Begin(t: Tree, limits: Limits)
    requires WellFormed(t) && limits.maxNodes > 0
    ensures Between(t, limits, Progress(map[[] := t[[]].stamp], [([], 0)], 0), {})
  {
    var captured: Captured := map[[] := t[[]].stamp];
    RootFrontier(t, captured, [([], 0)]);
    SizesWith(t, {[]}, []);
    var none: set<Path> := {};
    assert {[]} - {[]} == none;
    assert captured.Keys == {[]};
  }

  lemma AllCaptured(t: Tree, limits: Limits, s: Progress, done: set<Path>)
    requires WellFormed(t) && Between(t, limits, s, done) && s.pending == [] && |s.captured| <= limits.maxNodes
    ensures s.captured.Keys == Scope(t) && WithinLimits(t, limits)
  {
    forall q | q in Scope(t)
      ensures q in s.captured
    {
      NothingMissing(t, s.captured, q);
    }
    assert s.captured.Keys == Scope(t);
  }

  /**
   The snapshot succeeds exactly when the workspace is within the limits, and then holds every
   path outside the runtime directory, with its stamp, once. Otherwise it names a limit that
   the workspace breaks.
   */
  method CaptureSnapshot(t: Tree, limits: Limits) returns (r: Result<Captured, SnapshotError>)
    requires WellFormed(t)
    ensures r.Ok? <==> WithinLimits(t, limits)
    ensures r.Ok? ==> forall q :: q in r.value <==> q in t && (q == [] || q[0] != RUNTIME_DIRECTORY)
    ensures r.Ok? ==> r.value.Keys == Scope(t) && forall q :: q in r.value ==> r.value[q] == t[q].stamp
    ensures r.Err? ==> Broken(t, limits, r.error)
  {
    assert [] in Scope(t);
    SubsetCount({[]}, Scope(t));
    if limits.maxNodes == 0 {
      return Err(NodeCount);
    }
    var s, nodes := Progress(map[[] := t[[]].stamp], [([], 0)], 0), 1;
    Begin(t, limits);
    ghost var done: set<Path> := {};
    while s.pending != []
      invariant Between(t, limits, s, done) && nodes == |s.captured| <= limits.maxNodes
      decreases |Scope(t) - done|
    {
      NextDirectory(t, limits, s, done);
      var d := s.pending[|s.pending| - 1].0;
      s := s.(pending := s.pending[..|s.pending| - 1]);
      ghost var before := s;
      var error;
      error, s, nodes := ReadDirectory(t, limits, s, nodes, d);
      if error.Some? {
        BrokenIsOutside(t, limits, error.value);
        return Err(error.value);
      }
      DirectoryDone(t, limits, before, s, d, done);
      SmallerRest(Scope(t), done, d);
      done := done + {d};
    }
    AllCaptured(t, limits, s, done);
    return Ok(s.captured);
  }

  lemma SmallerRest(scope: set<Path>, done: set<Path>, d: Path)
    requires d in scope && d !in done
    ensures |scope - (done + {d})| < |scope - done|
  {
    assert scope - (done + {d}) == (scope - done) - {d};
  }

  lemma RootFrontier(t: Tree, captured: Captured, pending: seq<(Path, nat)>)
    requires WellFormed(t) && captured == map[[] := t[[]].stamp] && pending == [([], 0)]
    ensures Worklist(t, captured, pending) && Frontier(t, captured, pending)
  {
    assert pending[0].0 == [];
    assert Listed(pending, []);
  }

  lemma BrokenIsOutside(t: Tree, limits: Limits, e: SnapshotError)
    requires Broken(t, limits, e) && (e.TotalBytes? ==> limits.maxTotalBytes < MAX_U64)
    ensures !WithinLimits(t, limits)
  {
  }
}
