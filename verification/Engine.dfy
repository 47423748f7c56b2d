/**
 The host as the commit engine sees it, and the meaning of one lowered operation:
 what applying it does, what recovery infers about it, and what undoing it does.
 */
module Engine {
  import opened Types

  /** ".vsh-runtime-owner" */
  const MARKER: Name := [46, 118, 115, 104, 45, 114, 117, 110, 116, 105, 109, 101, 45, 111, 119, 110, 101, 114]

  datatype Data =
    | NoBytes
    | Bytes(blob: Digest)
    | OwnerMarker(transaction: Digest, index: u32)

  datatype Node = Node(stamp: FileStamp, data: Data)

  type Tree = map<Path, Node>

  /** Workspace tree plus the transaction's staged files, staged links and quarantine slots. */
  datatype Host = Host(tree: Tree, staged: map<nat, Node>, links: map<nat, Node>, quarantine: map<nat, Tree>)

  /** Identities the host hands out when an operation makes a directory and its marker. */
  datatype Alloc = Alloc(directory: FileId, marker: FileId)

  predicate IsDir(t: Tree, p: Path) {
    p in t && t[p].stamp.kind == Directory
  }

  ghost predicate WellFormed(t: Tree) {
    && IsDir(t, [])
    && forall p :: p in t && p != [] ==> IsDir(t, Parent(p))
  }

  function MarkerOf(d: Path): Path {
    d + [MARKER]
  }

  // ---------------------------------------------------------------- subtrees

  function Without(t: Tree, p: Path): Tree {
    map q | q in t && !(p <= q) :: t[q]
  }

  /** The subtree at `p`, keyed relative to `p`: what a rename carries away. */
  function Relative(t: Tree, p: Path): Tree {
    var keys := set q | q in t && p <= q :: q[|p|..];
    map r | r in keys && p + r in t :: t[p + r]
  }

  /** A carried subtree placed at `p`. */
  function Rooted(s: Tree, p: Path): Tree {
    var keys := set r | r in s :: p + r;
    map q | q in keys && p <= q && q[|p|..] in s :: s[q[|p|..]]
  }

  lemma RelativeAt(t: Tree, p: Path, r: Path)
    ensures r in Relative(t, p) <==> p + r in t
    ensures r in Relative(t, p) ==> Relative(t, p)[r] == t[p + r]
  {
    if p + r in t {
      assert (p + r)[|p|..] == r;
    }
  }

  lemma RootedAt(s: Tree, p: Path, q: Path)
    ensures q in Rooted(s, p) <==> p <= q && q[|p|..] in s
    ensures q in Rooted(s, p) ==> Rooted(s, p)[q] == s[q[|p|..]]
  {
    if p <= q && q[|p|..] in s {
      assert p + q[|p|..] == q;
    }
  }

  /** Taking a subtree away and putting it back where it was changes nothing. */
  lemma PutBack(t: Tree, p: Path)
    ensures Without(t, p) + Rooted(Relative(t, p), p) == t
  {
    var u := Without(t, p) + Rooted(Relative(t, p), p);
    forall q
      ensures q in u <==> q in t
      ensures q in t ==> u[q] == t[q]
    {
      RootedAt(Relative(t, p), p, q);
      if p <= q {
        RelativeAt(t, p, q[|p|..]);
        assert p + q[|p|..] == q;
      }
    }
  }

  // ------------------------------------------------------------ observations

  function FromStamp(s: FileStamp): NodeState {
    NodeState(s.kind, s.size, s.mode, Stamp(s))
  }

  /** Does a present node meet an expected state? */
  predicate NodeMatches(n: Node, expected: NodeState) {
    match expected.content
    case Stamp(s) => s == n.stamp
    case Blob(b) =>
      && n.stamp.kind != Directory
      && n.stamp.kind == expected.kind && n.stamp.size == expected.size && n.stamp.mode == expected.mode
      && n.data == Bytes(b)
    case NoContent => n.stamp.kind == Directory && expected == DirectoryState(n.stamp.mode)
  }

  predicate StateMatches(t: Tree, p: Path, expected: Option<NodeState>) {
    if p !in t then expected.None? else expected.Some? && NodeMatches(t[p], expected.value)
  }

  /** The same question for a node that was moved: the change time is not compared. */
  predicate RelocatedMatches(n: Node, expected: NodeState) {
    match expected.content
    case Stamp(s) =>
      && s.kind == n.stamp.kind && s.size == n.stamp.size && s.mode == n.stamp.mode
      && s.mtime == n.stamp.mtime && s.id == n.stamp.id
    case _ => NodeMatches(n, expected)
  }

  /** The question asked of an already pinned regular file. */
  predicate FileMatches(n: Node, expected: NodeState) {
    && n.stamp.kind == File && expected.kind == File
    && n.stamp.size == expected.size && n.stamp.mode == expected.mode
    && match expected.content
       case Stamp(s) => s == n.stamp
       case Blob(b) => n.data == Bytes(b)
       case NoContent => false
  }

  predicate WitnessMatches(t: Tree, p: Path, w: Witness) {
    p in t && WitnessOf(t[p].stamp) == w
  }

  function WithMode(n: Node, mode: u32): Node {
    n.(stamp := n.stamp.(mode := mode))
  }

  // ------------------------------------------------------------------- apply

  datatype ApplyError = VerificationFailed | HostIo | PermissionDenied

  datatype Applied =
    | Done(host: Host, owner: Witness, stamp: Option<FileStamp>)
    | Failed(host: Host, error: ApplyError)

  /** The identity recorded with an intent, or None when the node cannot be pinned. */
  function SourceWitness(op: Operation, h: Host): Option<Option<Witness>> {
    match op
    case SetFileMode(p, _, _) =>
      if p in h.tree && h.tree[p].stamp.kind == File then Some(Some(WitnessOf(h.tree[p].stamp))) else None
    case SetDirectoryMode(p, _, _) =>
      if IsDir(h.tree, p) then Some(Some(WitnessOf(h.tree[p].stamp))) else None
    case InstallSymlink(_, _, slot) =>
      if slot in h.links then Some(Some(WitnessOf(h.links[slot].stamp))) else None
    case _ => Some(None)
  }

  function NewDirectory(mode: u32, alloc: Alloc): Node {
    Node(FileStamp(Directory, 0, mode, 0, Some(0), alloc.directory), NoBytes)
  }

  function NewMarker(transaction: Digest, index: u32, alloc: Alloc): Node {
    Node(FileStamp(File, 44, 0x1a4, 0, Some(0), alloc.marker), OwnerMarker(transaction, index))
  }

  /** Whether the operation adds, moves or removes an entry of its parent directory. */
  predicate ChangesEntries(op: Operation) {
    !op.IsMode()
  }

  function Apply(transaction: Digest, index: u32, op: Operation, h: Host, source: Option<Witness>, alloc: Alloc): Applied
    requires op.path != []
  {
    var parent := Parent(op.path);
    if !IsDir(h.tree, parent) then Failed(h, HostIo)
    else if ChangesEntries(op) && !OwnerWrite(h.tree[parent].stamp.mode) then Failed(h, PermissionDenied)
    else match op
      case Quarantine(p, expected, slot) =>
        if !StateMatches(h.tree, p, Some(expected)) then Failed(h, VerificationFailed)
        else if slot in h.quarantine then Failed(h, HostIo)
        else
          var moved := h.tree[p];
          var h' := h.(tree := Without(h.tree, p), quarantine := h.quarantine[slot := Relative(h.tree, p)]);
          if RelocatedMatches(moved, expected) then Done(h', WitnessOf(moved.stamp), None)
          else Failed(h', VerificationFailed)
      case CreateDirectory(p, after) =>
        if p in h.tree then Failed(h, HostIo)
        else
          var made := NewDirectory(after.mode, alloc);
          var h' := h.(tree := h.tree[p := made]);
          if !OwnerWrite(after.mode) then Failed(h', PermissionDenied)
          else Done(h'.(tree := h'.tree[MarkerOf(p) := NewMarker(transaction, index, alloc)]), WitnessOf(made.stamp), None)
      case InstallFile(p, after, slot) =>
        if p in h.tree || slot !in h.staged then Failed(h, HostIo)
        else
          var h' := h.(tree := h.tree[p := h.staged[slot]]);
          if NodeMatches(h.staged[slot], after) then Done(h', WitnessOf(h.staged[slot].stamp), None)
          else Failed(h', VerificationFailed)
      case InstallSymlink(p, after, slot) =>
        if IsDir(h.tree, p) || slot !in h.links then Failed(h, HostIo)
        else
          // A rename onto an existing file replaces it.
          var h' := h.(tree := h.tree[p := h.links[slot]], links := h.links - {slot});
          if NodeMatches(h.links[slot], after) then Done(h', WitnessOf(h.links[slot].stamp), None)
          else Failed(h', VerificationFailed)
      case SetFileMode(p, expected, afterMode) =>
        if p !in h.tree || h.tree[p].stamp.kind != File then Failed(h, HostIo)
        else if !FileMatches(h.tree[p], expected) || source != Some(WitnessOf(h.tree[p].stamp)) then
          Failed(h, VerificationFailed)
        else
          var n := WithMode(h.tree[p], afterMode);
          Done(h.(tree := h.tree[p := n]), WitnessOf(n.stamp), Some(n.stamp))
      case SetDirectoryMode(p, expected, afterMode) =>
        if !IsDir(h.tree, p) then Failed(h, HostIo)
        else
          var before := h.tree[p].stamp;
          if before.mode != expected.mode || source != Some(WitnessOf(before))
             || (expected.content.Stamp? && expected.content.stamp.id != before.id)
          then Failed(h, VerificationFailed)
          else
            var n := WithMode(h.tree[p], afterMode);
            Done(h.(tree := h.tree[p := n]), WitnessOf(n.stamp), None)
  }

  // --------------------------------------------------------------- inference

  datatype Witnesses = Witnesses(
    completed: Option<Witness>, source: Option<Witness>, parent: Option<Witness>, metadata: Option<FileStamp>)

  datatype Inferred = TookEffect | NoEffect | Ambiguous

  /** The parent named by the path must be the directory witnessed by the intent. */
  predicate ParentOpens(t: Tree, p: Path, parent: Option<Witness>)
    requires p != []
  {
    parent.Some? && IsDir(t, Parent(p)) && WitnessOf(t[Parent(p)].stamp) == parent.value
  }

  /** Is the node at `p` still the file whose mode this operation owns? */
  predicate ModeOwned(t: Tree, p: Path, expected: NodeState, afterMode: u32, w: Witnesses) {
    && p in t
    && var s := t[p].stamp;
    && s.kind == File
    && w.source == Some(WitnessOf(s))
    && (w.completed.Some? ==> w.completed.value == WitnessOf(s))
    && (s.mode == afterMode || s.mode == expected.mode)
    && (w.metadata.Some? ==>
          && w.metadata.value.id == s.id && w.metadata.value.size == s.size
          && w.metadata.value.mtime == s.mtime
          && (s.mode == afterMode ==> w.metadata.value == s))
    && match expected.content
       case Stamp(b) => b.id == s.id && b.size == s.size && b.mtime == s.mtime
       case Blob(_) => FileMatches(t[p], expected.(mode := s.mode))
       case NoContent => false
  }

  /** Is the node at `p` still the directory whose mode this operation owns? */
  predicate DirectoryOwned(t: Tree, p: Path, expected: NodeState, w: Witnesses) {
    && IsDir(t, p)
    && var s := t[p].stamp;
    && (expected.content.Stamp? ==> expected.content.stamp.id == s.id)
    && (w.source.Some? ==> w.source.value == WitnessOf(s))
    && (w.completed.Some? ==> w.completed.value == WitnessOf(s))
  }

  predicate MarkerPresent(transaction: Digest, index: u32, t: Tree, d: Path) {
    MarkerOf(d) in t && t[MarkerOf(d)].data == OwnerMarker(transaction, index)
  }

  function InferApplied(transaction: Digest, index: u32, op: Operation, w: Witnesses, h: Host): Inferred {
    if w.completed.Some? && !op.IsMode() then TookEffect
    else match op
      case Quarantine(p, expected, slot) =>
        if p in h.tree && slot !in h.quarantine then NoEffect
        else if p !in h.tree && slot in h.quarantine && [] in h.quarantine[slot] then
          if RelocatedMatches(h.quarantine[slot][[]], expected) then TookEffect else NoEffect
        else Ambiguous
      case CreateDirectory(p, _) =>
        if p !in h.tree then NoEffect
        else if h.tree[p].stamp.kind == Directory && MarkerPresent(transaction, index, h.tree, p) then TookEffect
        else Ambiguous
      case InstallFile(p, _, slot) =>
        if p !in h.tree then NoEffect
        else if slot in h.staged && WitnessOf(h.staged[slot].stamp) == WitnessOf(h.tree[p].stamp) then TookEffect
        else Ambiguous
      case InstallSymlink(p, after, slot) =>
        if w.source.None? then Ambiguous
        else if p !in h.tree && slot in h.links && WitnessOf(h.links[slot].stamp) == w.source.value then NoEffect
        else if p in h.tree && slot !in h.links && WitnessOf(h.tree[p].stamp) == w.source.value then
          if NodeMatches(h.tree[p], after) then TookEffect else Ambiguous
        else if p !in h.tree && slot !in h.links then NoEffect
        else Ambiguous
      case SetFileMode(p, expected, afterMode) =>
        if !ModeOwned(h.tree, p, expected, afterMode, w) then Ambiguous
        else if h.tree[p].stamp.mode == afterMode then TookEffect
        else NoEffect
      case SetDirectoryMode(p, expected, afterMode) =>
        if !DirectoryOwned(h.tree, p, expected, w) then Ambiguous
        else if h.tree[p].stamp.mode == afterMode then TookEffect
        else if h.tree[p].stamp.mode == expected.mode then NoEffect
        else Ambiguous
  }

  // -------------------------------------------------------------------- undo

  datatype Undone = Reverted(host: Host) | Conflict(host: Host)

  /** Directory `d` holds no entry at all. */
  predicate EmptyDirectory(t: Tree, d: Path) {
    forall q :: q in t ==> !(d <= q && |q| == |d| + 1)
  }

  function UndoOperation(transaction: Digest, index: u32, op: Operation, w: Witnesses, h: Host): Undone
    requires op.path != [] && IsDir(h.tree, Parent(op.path))
  {
    var writable := OwnerWrite(h.tree[Parent(op.path)].stamp.mode);
    match op
    case Quarantine(p, expected, slot) =>
      if slot !in h.quarantine || [] !in h.quarantine[slot] then Conflict(h)
      else
        var held := h.quarantine[slot];
        if w.completed.Some? && WitnessOf(held[[]].stamp) != w.completed.value then Conflict(h)
        else if !RelocatedMatches(held[[]], expected) then Conflict(h)
        else if p in h.tree then Conflict(h)
        else if !writable then Conflict(h)
        else Reverted(h.(tree := h.tree + Rooted(held, p), quarantine := h.quarantine - {slot}))
    case CreateDirectory(p, _) =>
      if w.completed.Some? && !WitnessMatches(h.tree, p, w.completed.value) then Conflict(h)
      else if !IsDir(h.tree, p) then Conflict(h)
      else if w.completed.None? && !MarkerPresent(transaction, index, h.tree, p) then Conflict(h)
      else if MarkerOf(p) in h.tree && (IsDir(h.tree, MarkerOf(p)) || !OwnerWrite(h.tree[p].stamp.mode)) then Conflict(h)
      else
        var unmarked := h.(tree := h.tree - {MarkerOf(p)});
        if !EmptyDirectory(unmarked.tree, p) || !writable then Conflict(unmarked)
        else Reverted(unmarked.(tree := unmarked.tree - {p}))
    case InstallFile(p, after, slot) =>
      if w.completed.Some? && !WitnessMatches(h.tree, p, w.completed.value) then Conflict(h)
      else if w.completed.None?
           && !(p in h.tree && slot in h.staged && WitnessOf(h.tree[p].stamp) == WitnessOf(h.staged[slot].stamp))
      then Conflict(h)
      else if !StateMatches(h.tree, p, Some(after)) then Conflict(h)
      else if !writable then Conflict(h)
      else Reverted(h.(tree := h.tree - {p}))
    case InstallSymlink(p, after, slot) =>
      var owner := if w.completed.Some? then w.completed else w.source;
      if owner.None? || !WitnessMatches(h.tree, p, owner.value) then Conflict(h)
      else if !StateMatches(h.tree, p, Some(after)) then Conflict(h)
      else if !writable then Conflict(h)
      else Reverted(h.(tree := h.tree - {p}))
    case SetFileMode(p, expected, afterMode) =>
      if !ModeOwned(h.tree, p, expected, afterMode, w) then Conflict(h)
      else if h.tree[p].stamp.mode == expected.mode then Reverted(h)
      else Reverted(h.(tree := h.tree[p := WithMode(h.tree[p], expected.mode)]))
    case SetDirectoryMode(p, expected, afterMode) =>
      if !DirectoryOwned(h.tree, p, expected, w) then Conflict(h)
      else if h.tree[p].stamp.mode == expected.mode then Reverted(h)
      else if h.tree[p].stamp.mode != afterMode then Conflict(h)
      else Reverted(h.(tree := h.tree[p := WithMode(h.tree[p], expected.mode)]))
  }
}
