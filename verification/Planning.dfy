/**
 Admission of a commit artifact and its lowering into an ordered list of operations.
 */
module Planning {
  import opened Types
  import opened Paths

  datatype DiffEntry = DiffEntry(
    path: Path, before: Option<NodeState>, after: Option<NodeState>, metadataChange: bool)

  /** What virtual execution observed: metadata (present or absent), content, listing. */
  datatype ReadObservation = ReadObservation(
    metadata: Option<Option<NodeState>>, content: Option<Digest>, directory: Option<Digest>)

  datatype CommitPlan = CommitPlan(
    diff: seq<DiffEntry>, readSet: map<Path, ReadObservation>, writeSet: map<Path, Option<NodeState>>)

  /** ".vsh-runtime" */
  const RUNTIME_DIRECTORY: Name := [46, 118, 115, 104, 45, 114, 117, 110, 116, 105, 109, 101]

  datatype PlanError =
    | RootMutation
    | ReservedPath(path: Path)
    | MissingParentDependency(path: Path)
    | MissingWritePrecondition(path: Path)
    | BeforeStateMismatch(path: Path)
    | UnmaterializedAfterState(path: Path)
    | UnsupportedMetadataMode(path: Path)
    | UnsupportedMode(path: Path)
    | TooManyOperations
    | PathTooLong(path: Path)
    | OperationCountOverflow

  // --------------------------------------------------------------- admission

  /** Directories need owner read and search; files need reopenable owner access. */
  predicate Inaccessible(s: NodeState) {
    match s.kind
    case Directory => !(s.mode / 256 % 2 == 1 && s.mode / 64 % 2 == 1)
    case File => s.mode / 128 % 4 == 0 || (s.content.Blob? && s.mode / 256 % 2 == 0)
    case Symlink => false
  }

  /** A lazily read before-state may replace the stamp of its precondition by the exact blob. */
  predicate MaterializedStamp(expected: Option<NodeState>, before: Option<NodeState>) {
    && expected.Some? && before.Some?
    && expected.value.content.Stamp? && before.value.content.Blob?
    && expected.value.kind == before.value.kind
    && expected.value.size == before.value.size
    && expected.value.mode == before.value.mode
  }

  /** A state that could not be reached again, or a new directory that could not be filled. */
  predicate UnsupportedModes(e: DiffEntry) {
    || (e.after.Some? && Inaccessible(e.after.value))
    || (e.metadataChange && e.before.Some? && Inaccessible(e.before.value))
    || (e.after.Some? && e.after.value.kind == Directory && e.after.value.mode / 64 % 8 != 7
        && !(e.before.Some? && e.before.value.kind == Directory))
  }

  function EntryError(plan: CommitPlan, e: DiffEntry): Option<PlanError> {
    if e.path == [] then Some(RootMutation)
    else if e.path[0] == RUNTIME_DIRECTORY then Some(ReservedPath(e.path))
    else if Parent(e.path) !in plan.readSet || plan.readSet[Parent(e.path)].metadata.None? then
      Some(MissingParentDependency(e.path))
    else if e.path !in plan.writeSet then Some(MissingWritePrecondition(e.path))
    else if plan.writeSet[e.path] != e.before && !MaterializedStamp(plan.writeSet[e.path], e.before) then
      Some(BeforeStateMismatch(e.path))
    else if e.after.Some? && e.after.value.kind != Directory && !e.after.value.content.Blob?
            && !(e.before.Some? && e.before.value.kind == File && ContentEquivalent(e.before.value, e.after.value)) then
      Some(UnmaterializedAfterState(e.path))
    else if UnsupportedModes(e) then Some(UnsupportedMetadataMode(e.path))
    else if e.after.Some? && e.before.Some? && e.before.value.mode != e.after.value.mode
            && e.after.value.mode >= 0x200 then
      Some(UnsupportedMode(e.path))
    else None
  }

  // What admission asks of an entry, rule by rule; the owner's permission bits one by one.

  predicate OwnerReads(mode: u32) { mode / 256 % 2 == 1 }
  predicate OwnerSearches(mode: u32) { mode / 64 % 2 == 1 }

  /** Recovery can open the node again: a directory to read and to search, a file to read if it is known by its bytes. */
  predicate Reopens(s: NodeState) {
    match s.kind
    case Directory => OwnerReads(s.mode) && OwnerSearches(s.mode)
    case File => (OwnerReads(s.mode) || OwnerWrite(s.mode)) && (s.content.Blob? ==> OwnerReads(s.mode))
    case Symlink => true
  }

  predicate ModesSupported(e: DiffEntry) {
    && (e.after.Some? ==> Reopens(e.after.value))
    && (e.metadataChange && e.before.Some? ==> Reopens(e.before.value))
    && (e.after.Some? && e.after.value.kind == Directory && (e.before.None? || e.before.value.kind != Directory) ==>
          OwnerReads(e.after.value.mode) && OwnerWrite(e.after.value.mode) && OwnerSearches(e.after.value.mode))
  }

  /** Rule k of admission. */
  predicate Rule(plan: CommitPlan, e: DiffEntry, k: nat)
    requires k > 0 ==> e.path != []
    requires k > 3 ==> e.path in plan.writeSet
  {
    match k
    case 0 => |e.path| > 0
    case 1 => e.path[0] != RUNTIME_DIRECTORY
    case 2 => Parent(e.path) in plan.readSet && plan.readSet[Parent(e.path)].metadata.Some?
    case 3 => e.path in plan.writeSet
    case 4 =>
      var w := plan.writeSet[e.path];
      || w == e.before
      || (w.Some? && e.before.Some? && w.value.content.Stamp? && e.before.value.content.Blob?
          && w.value.(content := e.before.value.content) == e.before.value)
    case 5 =>
      e.after.Some? && (e.after.value.kind == File || e.after.value.kind == Symlink) && !e.after.value.content.Blob? ==>
        e.before.Some? && e.before.value.kind == File && e.before.value.(mode := e.after.value.mode) == e.after.value
    case 6 => ModesSupported(e)
    case _ => e.before.Some? && e.after.Some? && e.before.value.mode != e.after.value.mode ==> e.after.value.mode < 512
  }

  /** The error that says that rule k is the first one broken. */
  function RuleError(e: DiffEntry, k: nat): PlanError {
    match k
    case 0 => RootMutation
    case 1 => ReservedPath(e.path)
    case 2 => MissingParentDependency(e.path)
    case 3 => MissingWritePrecondition(e.path)
    case 4 => BeforeStateMismatch(e.path)
    case 5 => UnmaterializedAfterState(e.path)
    case 6 => UnsupportedMetadataMode(e.path)
    case _ => UnsupportedMode(e.path)
  }

  ghost predicate Keeps(plan: CommitPlan, e: DiffEntry, n: nat) {
    forall k :: 0 <= k < n ==> (k > 0 ==> e.path != []) && (k > 3 ==> e.path in plan.writeSet) && Rule(plan, e, k)
  }

  lemma OctalDigits(mode: u32)
    ensures mode / 128 % 4 == 0 <==> mode / 128 % 2 == 0 && mode / 256 % 2 == 0
    ensures mode / 64 % 8 == 7 <==> mode / 64 % 2 == 1 && mode / 128 % 2 == 1 && mode / 256 % 2 == 1
  {
    Halved(mode);
    LastBits(mode / 64);
    LastBits(mode / 128);
  }

  lemma Halved(mode: nat)
    ensures mode / 128 == mode / 64 / 2 && mode / 256 == mode / 128 / 2
  {
  }

  /** The last two and the last three bits of a number. */
  lemma LastBits(n: nat)
    ensures n % 4 == n % 2 + 2 * (n / 2 % 2)
    ensures n % 8 == n % 2 + 2 * (n / 2 % 2) + 4 * (n / 2 / 2 % 2)
  {
    var half := n / 2;
    var quarter := half / 2;
    Quarters(n, quarter, n % 2 + 2 * (half % 2));
    Eighths(n, quarter / 2, n % 2 + 2 * (half % 2) + 4 * (quarter % 2));
  }

  lemma Quarters(n: nat, high: nat, low: nat)
    requires n == 4 * high + low && low < 4
    ensures n % 4 == low
  {
  }

  lemma Eighths(n: nat, high: nat, low: nat)
    requires n == 8 * high + low && low < 8
    ensures n % 8 == low
  {
  }

  lemma ReachableReopens(s: NodeState)
    ensures Inaccessible(s) <==> !Reopens(s)
  {
    OctalDigits(s.mode);
  }

  lemma ModesRule(e: DiffEntry)
    ensures UnsupportedModes(e) <==> !ModesSupported(e)
  {
    hide Inaccessible, Reopens;
    if e.after.Some? {
      ReachableReopens(e.after.value);
      OctalDigits(e.after.value.mode);
    }
    if e.before.Some? {
      ReachableReopens(e.before.value);
    }
  }

  /** An entry is admitted exactly when it keeps all eight rules; otherwise the error names the first one it breaks. */
  lemma EntryRules(plan: CommitPlan, e: DiffEntry) returns (k: nat)
    ensures k <= 8 && Keeps(plan, e, k) && (k < 8 ==> !Keeps(plan, e, k + 1))
    ensures EntryError(plan, e) == if k == 8 then None else Some(RuleError(e, k))
  {
    hide UnsupportedModes, ModesSupported;
    ModesRule(e);
    match EntryError(plan, e) {
      case None => k := 8;
      case Some(RootMutation) => k := 0;
      case Some(ReservedPath(_)) => k := 1;
      case Some(MissingParentDependency(_)) => k := 2;
      case Some(MissingWritePrecondition(_)) => k := 3;
      case Some(BeforeStateMismatch(_)) => k := 4;
      case Some(UnmaterializedAfterState(_)) => k := 5;
      case Some(UnsupportedMetadataMode(_)) => k := 6;
      case Some(_) => k := 7;
    }
    if k < 8 {
      assert !Rule(plan, e, k);
    }
  }

  ghost predicate Admissible(plan: CommitPlan) {
    forall i :: 0 <= i < |plan.diff| ==> EntryError(plan, plan.diff[i]).None?
  }

  /** Admit an artifact, or report the first entry that cannot be committed safely. */
  method Admit(plan: CommitPlan) returns (error: Option<PlanError>)
    ensures error.None? <==> Admissible(plan)
    ensures error.Some? ==> exists i :: 0 <= i < |plan.diff| && EntryError(plan, plan.diff[i]) == error
                                        && forall j :: 0 <= j < i ==> EntryError(plan, plan.diff[j]).None?
  {
    for i := 0 to |plan.diff|
      invariant forall j :: 0 <= j < i ==> EntryError(plan, plan.diff[j]).None?
    {
      error := EntryError(plan, plan.diff[i]);
      if error.Some? {
        return;
      }
    }
    error := None;
  }

  // ---------------------------------------------------- what each entry needs

  predicate Destructive(e: DiffEntry) {
    && e.before.Some?
    && (e.after.None?
        || e.after.value.kind != e.before.value.kind
        || e.after.value.kind == Symlink
        || (e.after.value.kind == File && !ContentEquivalent(e.before.value, e.after.value)))
  }

  predicate NeedsCreate(e: DiffEntry) {
    && e.after.Some? && e.after.value.kind == Directory
    && !(e.before.Some? && e.before.value.kind == Directory)
  }

  predicate KeepsContent(e: DiffEntry) {
    && e.after.Some? && e.after.value.kind == File
    && e.before.Some? && ContentEquivalent(e.before.value, e.after.value)
  }

  predicate NeedsContent(e: DiffEntry) {
    e.after.Some? && e.after.value.kind != Directory
  }

  predicate ChangesDirectoryMode(e: DiffEntry) {
    && e.after.Some? && e.after.value.kind == Directory
    && e.before.Some? && e.before.value.kind == Directory
    && e.before.value.mode != e.after.value.mode
  }

  predicate Grants(e: DiffEntry) {
    ChangesDirectoryMode(e) && !OwnerWrite(e.before.value.mode) && OwnerWrite(e.after.value.mode)
  }

  predicate Expects(plan: CommitPlan, e: DiffEntry) {
    e.path in plan.writeSet && plan.writeSet[e.path].Some?
  }

  function DirectoryModeOp(plan: CommitPlan, e: DiffEntry): Operation
    requires ChangesDirectoryMode(e) && Expects(plan, e)
  {
    SetDirectoryMode(e.path, plan.writeSet[e.path].value, e.after.value.mode)
  }

  function QuarantineOp(plan: CommitPlan, e: DiffEntry, slot: nat): Operation
    requires Expects(plan, e)
  {
    Quarantine(e.path, plan.writeSet[e.path].value, slot)
  }

  function CreateOp(e: DiffEntry): Operation
    requires NeedsCreate(e)
  {
    CreateDirectory(e.path, DirectoryState(e.after.value.mode))
  }

  function ContentOp(plan: CommitPlan, e: DiffEntry, slot: nat): Operation
    requires NeedsContent(e) && (KeepsContent(e) ==> Expects(plan, e))
  {
    if KeepsContent(e) then SetFileMode(e.path, plan.writeSet[e.path].value, e.after.value.mode)
    else if e.after.value.kind == File then InstallFile(e.path, e.after.value, slot)
    else InstallSymlink(e.path, e.after.value, slot)
  }

  // ------------------------------------------------------------------ sorting

  /** Stable insertion: equal ranks keep their order. */
  function Insert<T>(x: T, s: seq<T>, rank: T -> int): (r: seq<T>)
    ensures |r| == |s| + 1
  {
    if s == [] || rank(x) <= rank(s[0]) then [x] + s else [s[0]] + Insert(x, s[1..], rank)
  }

  function SortBy<T>(s: seq<T>, rank: T -> int): (r: seq<T>)
    ensures |r| == |s|
  {
    if s == [] then [] else Insert(s[0], SortBy(s[1..], rank), rank)
  }

  ghost predicate Ranked<T>(s: seq<T>, rank: T -> int) {
    forall i, j :: 0 <= i < j < |s| ==> rank(s[i]) <= rank(s[j])
  }

  lemma {:induction false} InsertKeeps<T>(x: T, s: seq<T>, rank: T -> int)
    ensures multiset(Insert(x, s, rank)) == multiset(s) + multiset{x}
  {
    if s == [] || rank(x) <= rank(s[0]) {
    } else {
      InsertKeeps(x, s[1..], rank);
      assert s == [s[0]] + s[1..];
    }
  }

  lemma {:induction false} InsertRanked<T>(x: T, s: seq<T>, rank: T -> int)
    requires Ranked(s, rank)
    ensures Ranked(Insert(x, s, rank), rank)
  {
    if s == [] || rank(x) <= rank(s[0]) {
      assert forall i :: 0 < i < |s| + 1 ==> ([x] + s)[i] == s[i - 1];
    } else {
      InsertRanked(x, s[1..], rank);
      InsertKeeps(x, s[1..], rank);
      var r := Insert(x, s[1..], rank);
      forall i | 0 <= i < |r|
        ensures rank(s[0]) <= rank(r[i])
      {
        assert r[i] in multiset(r);
        if r[i] != x {
          assert r[i] in s[1..];
        }
      }
      assert forall i :: 0 < i < |r| + 1 ==> ([s[0]] + r)[i] == r[i - 1];
    }
  }

  /** The sort orders by rank and neither loses nor repeats an element. */
  lemma {:induction false} SortRanked<T>(s: seq<T>, rank: T -> int)
    ensures Ranked(SortBy(s, rank), rank)
    ensures multiset(SortBy(s, rank)) == multiset(s)
  {
    hide Ranked, Insert;
    if s == [] {
      NothingRanked(s, rank);
    } else {
      SortRanked(s[1..], rank);
      InsertRanked(s[0], SortBy(s[1..], rank), rank);
      InsertKeeps(s[0], SortBy(s[1..], rank), rank);
      assert s == [s[0]] + s[1..];
    }
  }

  lemma NothingRanked<T>(s: seq<T>, rank: T -> int)
    requires s == []
    ensures Ranked(s, rank)
  {
  }

  // ----------------------------------------------------------------- lowering

  function Select(entries: seq<DiffEntry>, wanted: DiffEntry -> bool): (r: seq<DiffEntry>)
  {
    if entries == [] then []
    else
      var last := entries[|entries| - 1];
      Select(entries[..|entries| - 1], wanted) + (if wanted(last) then [last] else [])
  }

  function Depth(e: DiffEntry): int { |e.path| }
  function Shallowness(e: DiffEntry): int { -|e.path| }

  predicate Covered(roots: seq<DiffEntry>, e: DiffEntry) {
    exists i :: 0 <= i < |roots| && roots[i].path <= e.path
  }

  /** Keep each destructive entry that no earlier kept entry contains. */
  function Roots(sorted: seq<DiffEntry>): seq<DiffEntry> {
    if sorted == [] then []
    else
      var roots, last := Roots(sorted[..|sorted| - 1]), sorted[|sorted| - 1];
      if Covered(roots, last) then roots else roots + [last]
  }

  predicate Slotted(e: DiffEntry) {
    NeedsContent(e) && !KeepsContent(e)
  }

  /** Every entry whose old state an operation quotes has one. */
  ghost predicate Quotable(plan: CommitPlan) {
    forall e :: e in plan.diff && e.before.Some? ==> Expects(plan, e)
  }

  function QuarantineOps(plan: CommitPlan, roots: seq<DiffEntry>): (ops: seq<Operation>)
    requires forall e :: e in roots ==> Expects(plan, e)
    ensures |ops| == |roots|
    ensures forall i :: 0 <= i < |roots| ==> ops[i] == QuarantineOp(plan, roots[i], i)
  {
    seq(|roots|, i requires 0 <= i < |roots| && Expects(plan, roots[i]) => QuarantineOp(plan, roots[i], i))
  }

  function CreateOps(entries: seq<DiffEntry>): (ops: seq<Operation>)
    requires forall e :: e in entries ==> NeedsCreate(e)
    ensures |ops| == |entries|
    ensures forall i :: 0 <= i < |ops| ==> ops[i] == CreateOp(entries[i])
  {
    seq(|entries|, i requires 0 <= i < |entries| && NeedsCreate(entries[i]) => CreateOp(entries[i]))
  }

  function ModeOps(plan: CommitPlan, entries: seq<DiffEntry>): (ops: seq<Operation>)
    requires forall e :: e in entries ==> ChangesDirectoryMode(e) && Expects(plan, e)
    ensures |ops| == |entries|
    ensures forall i :: 0 <= i < |ops| ==> ops[i] == DirectoryModeOp(plan, entries[i])
  {
    seq(|entries|, i requires 0 <= i < |entries| && ChangesDirectoryMode(entries[i]) && Expects(plan, entries[i]) =>
      DirectoryModeOp(plan, entries[i]))
  }

  /** Files and links in diff order; each install takes the next stage slot. */
  function ContentOps(plan: CommitPlan, entries: seq<DiffEntry>, first: nat): seq<Operation>
    requires forall e :: e in entries && e.before.Some? ==> Expects(plan, e)
  {
    if entries == [] then []
    else
      var init, last := entries[..|entries| - 1], entries[|entries| - 1];
      var ops := ContentOps(plan, init, first);
      if NeedsContent(last) then ops + [ContentOp(plan, last, first + |Select(init, Slotted)|)] else ops
  }

  predicate Restricts(e: DiffEntry) {
    ChangesDirectoryMode(e) && !Grants(e)
  }

  /** The phases of a lowered plan, in execution order. */
  datatype Lowering = Lowering(
    grants: seq<Operation>, quarantines: seq<Operation>, creates: seq<Operation>,
    contents: seq<Operation>, restrictions: seq<Operation>)
  {
    function Ops(): seq<Operation> {
      grants + quarantines + creates + contents + restrictions
    }
  }

  function RootEntries(diff: seq<DiffEntry>): seq<DiffEntry> {
    Roots(SortBy(Select(diff, Destructive), Depth))
  }

  lemma {:induction false} SelectMembers(entries: seq<DiffEntry>, wanted: DiffEntry -> bool)
    ensures forall e :: e in Select(entries, wanted) <==> e in entries && wanted(e)
  {
    if entries != [] {
      var init, last := entries[..|entries| - 1], entries[|entries| - 1];
      SelectMembers(init, wanted);
      assert entries == init + [last];
    }
  }

  lemma {:induction false} SortMembers<T>(s: seq<T>, rank: T -> int)
    ensures forall y :: y in SortBy(s, rank) <==> y in s
  {
    SortRanked(s, rank);
    forall y
      ensures y in SortBy(s, rank) <==> y in s
    {
      assert y in SortBy(s, rank) <==> y in multiset(SortBy(s, rank));
      assert y in s <==> y in multiset(s);
    }
  }

  lemma {:induction false} RootMembers(sorted: seq<DiffEntry>)
    ensures forall e :: e in Roots(sorted) ==> e in sorted
  {
    if sorted != [] {
      RootMembers(sorted[..|sorted| - 1]);
      assert sorted == sorted[..|sorted| - 1] + [sorted[|sorted| - 1]];
    }
  }

  /** Roots are destructive entries of the diff. */
  lemma RootEntriesMembers(diff: seq<DiffEntry>)
    ensures forall e :: e in RootEntries(diff) ==> e in diff && Destructive(e)
  {
    RootMembers(SortBy(Select(diff, Destructive), Depth));
    SortMembers(Select(diff, Destructive), Depth);
    SelectMembers(diff, Destructive);
  }

  ghost function Lower(plan: CommitPlan): Lowering
    requires Quotable(plan)
  {
    var roots := RootEntries(plan.diff);
    var creates := SortBy(Select(plan.diff, NeedsCreate), Depth);
    var grants := SortBy(Select(plan.diff, Grants), Depth);
    var restrictions := SortBy(Select(plan.diff, Restricts), Shallowness);
    RootEntriesMembers(plan.diff);
    SortMembers(Select(plan.diff, NeedsCreate), Depth);
    SelectMembers(plan.diff, NeedsCreate);
    SortMembers(Select(plan.diff, Grants), Depth);
    SelectMembers(plan.diff, Grants);
    SortMembers(Select(plan.diff, Restricts), Shallowness);
    SelectMembers(plan.diff, Restricts);
    Lowering(
      ModeOps(plan, grants),
      QuarantineOps(plan, roots),
      CreateOps(creates),
      ContentOps(plan, plan.diff, |roots|),
      ModeOps(plan, restrictions))
  }

  // ------------------------------------------------------------ prepared plan

  datatype PreparedPlan = PreparedPlan(
    transaction: Digest, baseSnapshot: Digest,
    operations: seq<Operation>, finalStates: seq<(Path, Option<NodeState>)>)

  /** Directory states are reduced to their mode: a stamp could not survive the commit. */
  function FinalState(e: DiffEntry): (Path, Option<NodeState>) {
    (e.path,
     if e.after.Some? && e.after.value.kind == Directory then Some(DirectoryState(e.after.value.mode)) else e.after)
  }

  function FinalStates(diff: seq<DiffEntry>): (states: seq<(Path, Option<NodeState>)>)
    ensures |states| == |diff|
    ensures forall i :: 0 <= i < |diff| ==> states[i] == FinalState(diff[i])
  {
    seq(|diff|, i requires 0 <= i < |diff| => FinalState(diff[i]))
  }

  const MAX_U32 := 0xffff_ffff

  function SlotCount(diff: seq<DiffEntry>): nat {
    |RootEntries(diff)| + |Select(diff, Slotted)|
  }

  /** The first bound an operation list breaks, if any. */
  ghost predicate BoundsVerdict(ops: seq<Operation>, maxOperations: nat, maxPathBytes: nat, error: Option<PlanError>) {
    if |ops| > maxOperations then error == Some(TooManyOperations)
    else match error
      case None => forall i :: 0 <= i < |ops| ==> |Text(ops[i].path)| <= maxPathBytes
      case Some(e) => exists i :: 0 <= i < |ops| && |Text(ops[i].path)| > maxPathBytes && e == PathTooLong(ops[i].path)
                                  && forall j :: 0 <= j < i ==> |Text(ops[j].path)| <= maxPathBytes
  }

  /** The lowered plan and the bounds under which it is produced. */
  ghost predicate Prepared(plan: CommitPlan, transaction: Digest, baseSnapshot: Digest,
                           maxOperations: nat, maxPathBytes: nat, r: Result<PreparedPlan, PlanError>)
    requires Quotable(plan)
  {
    var ops := Lower(plan).Ops();
    if SlotCount(plan.diff) > MAX_U32 then r == Err(OperationCountOverflow)
    else match r
      case Err(e) => BoundsVerdict(ops, maxOperations, maxPathBytes, Some(e))
      case Ok(p) =>
        && BoundsVerdict(ops, maxOperations, maxPathBytes, None)
        && p == PreparedPlan(transaction, baseSnapshot, ops, FinalStates(plan.diff))
  }

  method CheckBounds(ops: seq<Operation>, maxOperations: nat, maxPathBytes: nat) returns (error: Option<PlanError>)
    ensures BoundsVerdict(ops, maxOperations, maxPathBytes, error)
  {
    if |ops| > maxOperations {
      return Some(TooManyOperations);
    }
    for i := 0 to |ops|
      invariant forall j :: 0 <= j < i ==> |Text(ops[j].path)| <= maxPathBytes
    {
      if |Text(ops[i].path)| > maxPathBytes {
        return Some(PathTooLong(ops[i].path));
      }
    }
    return None;
  }

  /** Collect the destructive entries, parents first, and drop those a kept one contains. */
  method CollectRoots(diff: seq<DiffEntry>) returns (roots: seq<DiffEntry>)
    ensures roots == RootEntries(diff)
  {
    var destructive: seq<DiffEntry> := [];
    for i := 0 to |diff|
      invariant destructive == Select(diff[..i], Destructive)
    {
      assert diff[..i + 1][..i] == diff[..i];
      if Destructive(diff[i]) {
        destructive := destructive + [diff[i]];
      }
    }
    assert diff[..|diff|] == diff;
    destructive := SortBy(destructive, Depth);
    roots := [];
    for i := 0 to |destructive|
      invariant roots == Roots(destructive[..i])
    {
      assert destructive[..i + 1][..i] == destructive[..i];
      if !Covered(roots, destructive[i]) {
        roots := roots + [destructive[i]];
      }
    }
    assert destructive[..|destructive|] == destructive;
  }

  lemma SelectStep(entries: seq<DiffEntry>, i: nat, wanted: DiffEntry -> bool)
    requires i < |entries|
    ensures Select(entries[..i + 1], wanted) ==
            Select(entries[..i], wanted) + (if wanted(entries[i]) then [entries[i]] else [])
  {
    assert entries[..i + 1][..i] == entries[..i];
  }

  lemma ContentStep(plan: CommitPlan, entries: seq<DiffEntry>, i: nat, first: nat)
    requires i < |entries| && forall e :: e in entries && e.before.Some? ==> Expects(plan, e)
    ensures ContentOps(plan, entries[..i + 1], first) ==
            ContentOps(plan, entries[..i], first)
            + (if NeedsContent(entries[i])
               then [ContentOp(plan, entries[i], first + |Select(entries[..i], Slotted)|)] else [])
  {
    assert entries[..i + 1][..i] == entries[..i];
  }

  lemma NothingSelected(plan: CommitPlan, diff: seq<DiffEntry>, first: nat)
    ensures ContentOps(plan, diff[..0], first) == []
    ensures Select(diff[..0], Slotted) == Select(diff[..0], Grants) == Select(diff[..0], Restricts) == []
  {
  }

  /** Install, link and mode operations in diff order, and the two groups of directory modes. */
  method CollectContents(plan: CommitPlan, first: nat)
    returns (overflow: bool, contents: seq<Operation>, access: seq<DiffEntry>, modes: seq<DiffEntry>)
    requires Quotable(plan) && first <= MAX_U32
    ensures overflow <==> first + |Select(plan.diff, Slotted)| > MAX_U32
    ensures !overflow ==> contents == ContentOps(plan, plan.diff, first)
    ensures !overflow ==> access == Select(plan.diff, Grants) && modes == Select(plan.diff, Restricts)
  {
    hide Select, ContentOps, ContentOp;
    var diff, nextSlot := plan.diff, first;
    contents, access, modes := [], [], [];
    NothingSelected(plan, diff, first);
    for i := 0 to |diff|
      invariant contents == ContentOps(plan, diff[..i], first)
      invariant nextSlot == first + |Select(diff[..i], Slotted)| <= MAX_U32
      invariant access == Select(diff[..i], Grants)
      invariant modes == Select(diff[..i], Restricts)
    {
      var entry := diff[i];
      SelectStep(diff, i, Slotted);
      SelectStep(diff, i, Grants);
      SelectStep(diff, i, Restricts);
      ContentStep(plan, diff, i, first);
      if NeedsContent(entry) {
        contents := contents + [ContentOp(plan, entry, nextSlot)];
        if !KeepsContent(entry) {
          if nextSlot == MAX_U32 {
            SelectGrows(diff, i + 1, Slotted);
            return true, contents, access, modes;
          }
          nextSlot := nextSlot + 1;
        }
      } else if Grants(entry) {
        access := access + [entry];
      } else if ChangesDirectoryMode(entry) {
        modes := modes + [entry];
      }
    }
    assert diff[..|diff|] == diff;
    overflow := false;
  }

  /** Lower an admitted plan: destruction, creation, contents, framed by directory modes. */
  method Prepare(plan: CommitPlan, transaction: Digest, baseSnapshot: Digest, maxOperations: nat, maxPathBytes: nat)
    returns (r: Result<PreparedPlan, PlanError>)
    requires Quotable(plan)
    ensures Prepared(plan, transaction, baseSnapshot, maxOperations, maxPathBytes, r)
  {
    ghost var lowering := Lower(plan);
    var roots := CollectRoots(plan.diff);
    RootEntriesMembers(plan.diff);
    if |roots| > MAX_U32 {
      return Err(OperationCountOverflow);
    }
    var directories := Select(plan.diff, NeedsCreate);
    SelectMembers(plan.diff, NeedsCreate);
    SortMembers(directories, Depth);
    var operations := QuarantineOps(plan, roots) + CreateOps(SortBy(directories, Depth));
    var overflow, contents, access, modes := CollectContents(plan, |roots|);
    if overflow {
      return Err(OperationCountOverflow);
    }
    SelectMembers(plan.diff, Grants);
    SelectMembers(plan.diff, Restricts);
    SortMembers(access, Depth);
    SortMembers(modes, Shallowness);
    var grants, restrictions := ModeOps(plan, SortBy(access, Depth)), ModeOps(plan, SortBy(modes, Shallowness));
    Regroup(grants, lowering.quarantines, lowering.creates, contents, restrictions);
    operations := grants + (operations + contents) + restrictions;
    assert operations == lowering.Ops();
    var error := CheckBounds(operations, maxOperations, maxPathBytes);
    if error.Some? {
      return Err(error.value);
    }
    return Ok(PreparedPlan(transaction, baseSnapshot, operations, FinalStates(plan.diff)));
  }

  lemma Regroup<T>(a: seq<T>, b: seq<T>, c: seq<T>, d: seq<T>, e: seq<T>)
    ensures a + (b + c + d) + e == a + b + c + d + e
  {
    assert a + (b + c + d) == a + b + c + d;
  }

  lemma {:induction false} SelectGrows(entries: seq<DiffEntry>, k: nat, wanted: DiffEntry -> bool)
    requires k <= |entries|
    ensures |Select(entries[..k], wanted)| <= |Select(entries, wanted)|
    decreases |entries|
  {
    if k < |entries| {
      assert entries[..|entries| - 1][..k] == entries[..k];
      SelectGrows(entries[..|entries| - 1], k, wanted);
    } else {
      assert entries[..k] == entries;
    }
  }
}
