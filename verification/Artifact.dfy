/**
 The fields of a pending artifact: what each is written as, in which pieces and under which
 bounds, and how each is read back.
 */
module ArtifactCodec {
  import opened Types
  import opened ByteCodec
  import opened Paths
  import opened OperationLog
  import P = PlanCodec

  type u16 = x: int | 0 <= x < 0x1_0000

  // ---------------------------------------------------------------- sections

  datatype ArtifactError =
    | Limit(observed: nat)
    | FieldLimit(observed: nat)
    | EvidenceMismatch
    | Unsupported
    | Corrupt
    | BindingMismatch

  /** A group of fields: the writes that encode it, and the error that then refuses it, if one does. */
  datatype Section = Section(writes: seq<seq<byte>>, refusal: Option<ArtifactError>)

  function Join(writes: seq<seq<byte>>): seq<byte> {
    if writes == [] then [] else writes[0] + Join(writes[1..])
  }

  function Bytes(s: Section): seq<byte> {
    Join(s.writes)
  }

  function Put(bytes: seq<byte>): Section {
    Section([bytes], None)
  }

  function Refuse(e: ArtifactError): Section {
    Section([], Some(e))
  }

  function Then(a: Section, b: Section): Section {
    if a.refusal.Some? then a else Section(a.writes + b.writes, b.refusal)
  }

  /** A field with a bound of its own, checked before it is written. */
  function Bounded(observed: nat, maximum: nat, s: Section): Section {
    if observed > maximum then Refuse(FieldLimit(observed)) else s
  }

  /** Lengths and counts take 64 bits. */
  function Length(n: nat): seq<byte> {
    U64Bytes(n % 0x1_0000_0000_0000_0000)
  }

  /** The first n elements, one after the other. */
  function First<T>(xs: seq<T>, n: nat, write: T -> Section): Section
    requires n <= |xs|
  {
    if n == 0 then Section([], None) else Then(First(xs, n - 1, write), write(xs[n - 1]))
  }

  /** A bounded collection: its count and its elements. */
  function Collection<T>(xs: seq<T>, maximum: nat, write: T -> Section): Section {
    Bounded(|xs|, maximum, Then(Put(Length(|xs|)), First(xs, |xs|, write)))
  }

  lemma {:induction false} JoinConcat(a: seq<seq<byte>>, b: seq<seq<byte>>)
    ensures Join(a + b) == Join(a) + Join(b)
  {
    if a == [] {
      assert a + b == b;
    } else {
      assert (a + b)[1..] == a[1..] + b;
      JoinConcat(a[1..], b);
    }
  }

  lemma PutBytes(b: seq<byte>)
    ensures Bytes(Put(b)) == b
  {
    assert [b][1..] == [];
    assert Join([b]) == b + [];
  }

  /** The next group of a sequence. */
  lemma Next(a: Section, b: Section, rest: seq<byte>)
    requires Then(a, b).refusal.None?
    ensures a.refusal.None? && b.refusal.None?
    ensures Bytes(Then(a, b)) + rest == Bytes(a) + (Bytes(b) + rest)
    ensures |Bytes(Then(a, b))| == |Bytes(a)| + |Bytes(b)|
  {
    JoinConcat(a.writes, b.writes);
    Nest(Bytes(a), Bytes(b), rest);
  }

  /** The next single write. */
  lemma Head(w: seq<byte>, b: Section, rest: seq<byte>)
    requires b.refusal.None?
    ensures Then(Put(w), b).refusal.None?
    ensures Bytes(Then(Put(w), b)) + rest == w + (Bytes(b) + rest)
    ensures |Bytes(Then(Put(w), b))| == |w| + |Bytes(b)|
  {
    Next(Put(w), b, rest);
    PutBytes(w);
  }

  // ------------------------------------------------------------------ values

  datatype Limits = Limits(
    maxBytes: u64, maxValueBytes: u64, maxStdoutBytes: u64, maxEntries: u64, maxDependencies: u64, maxPathBytes: u64,
    maxIntentBytes: u64, maxEffects: u64)

  datatype EffectOrigin = VirtualFs | MontyOsCall | MontyToolCall | BashCall

  datatype Effect =
    | MetadataRead(path: Path, state: Option<NodeState>)
    | ContentRead(path: Path, digest: Digest)
    | DirectoryRead(path: Path, digest: Digest)
    | Create(path: Path, after: NodeState)
    | ModifyContent(path: Path, before: NodeState, after: NodeState)
    | Delete(path: Path, before: NodeState)
    | Rename(path: Path, to: Path, before: NodeState, after: NodeState)
    | ModifyMetadata(path: Path, before: NodeState, after: NodeState)

  datatype EffectEvent = EffectEvent(sequence: u64, origin: EffectOrigin, effect: Effect)

  datatype RiskMetrics = RiskMetrics(
    touched: u64, created: u64, modified: u64, deleted: u64, renamed: u64, changedBytes: u64, deleteRatio: u16,
    executableChanges: u64, symlinkChanges: u64)

  datatype RiskFlag =
    | Mutation | Deletion | Renaming | ExecutableChange | SymlinkChange | LargeTouchedSet | LargeByteChange | PermissionChange

  datatype RiskManifest = RiskManifest(metrics: RiskMetrics, flags: seq<RiskFlag>, policy: Digest)

  datatype AccessKind =
    | MetadataAccess | ContentAccess | DirectoryAccess | Creation | Modification | Removal | RenameSource | RenameDestination

  datatype DenyReason =
    | ProtectedAccessAttempt(path: Path, access: AccessKind, rule: seq<byte>)
    | ProtectedMutation(path: Path, access: AccessKind, rule: seq<byte>)
    | TouchedPathLimit(limit: u64, observed: u64)
    | ChangedByteLimit(limit: u64, observed: u64)
    | DeletePathLimit(limit: u64, observed: u64)
    | DeleteRatioLimit(limitRatio: u16, observedRatio: u16)

  datatype Decision =
    | AutoApproved
    | PendingApproval(manifest: RiskManifest)
    | Denied(reason: DenyReason, metrics: RiskMetrics, policy: Digest)

  /** A result value is known by the pieces its serializer writes. */
  datatype Value = Value(pieces: seq<seq<byte>>)

  type i32 = x: int | -0x8000_0000 <= x < 0x8000_0000

  datatype Output =
    | Monty(value: Value, stdout: seq<byte>)
    | Bash(profile: seq<byte>, exitCode: i32, stdout: seq<byte>, stderr: seq<byte>)

  datatype Stats = Stats(
    osCalls: u64, readBytes: u64, writeBytes: u64, directoryEntries: u64, outputBytes: u64, deniedAccesses: u64, resultBytes: u64)

  datatype Timings = Timings(
    snapshot: u64, execute: u64, diff: u64, policy: u64, bindAndStore: u64, commit: u64, total: u64)

  datatype Review = Review(
    intent: Option<seq<byte>>, metrics: RiskMetrics, effects: seq<EffectEvent>, complete: bool, truncated: bool)

  datatype DiffKind = Creating | Deleting | Modifying | MetadataChange

  datatype Change = Change(path: Path, before: Option<NodeState>, after: Option<NodeState>, kind: DiffKind)

  datatype Observation = Observation(
    path: Path, metadata: Option<Option<NodeState>>, content: Option<Digest>, directory: Option<Digest>)

  datatype Precondition = Precondition(path: Path, expected: Option<NodeState>)

  // ----------------------------------------------------------------- writing

  function PathSection(l: Limits, p: Path): Section {
    Bounded(|Text(p)|, l.maxPathBytes, TextSection(Text(p)))
  }

  /** Bytes behind their length. */
  function TextSection(text: seq<byte>): Section {
    Then(Put(Length(|text|)), Put(text))
  }

  function CtimeSection(c: Option<i128>): Section {
    if c.None? then Put([0]) else Then(Put([1]), Put(I128Bytes(c.value)))
  }

  function StampSection(s: FileStamp): Section {
    Then(Put([KindTag(s.kind)]), Then(Put(U64Bytes(s.size)), Then(Put(U32Bytes(s.mode)), Then(Put(I128Bytes(s.mtime)),
      Then(CtimeSection(s.ctime), Then(Put(U64Bytes(s.id.high)), Put(U64Bytes(s.id.low))))))))
  }

  function ContentSection(c: Content): Section {
    match c
    case NoContent => Put([0])
    case Blob(b) => Then(Put([1]), Put(b))
    case Stamp(s) => Then(Put([2]), StampSection(s))
  }

  function StateSection(s: NodeState): Section {
    Then(Put([KindTag(s.kind)]), Then(Put(U64Bytes(s.size)), Then(Put(U32Bytes(s.mode)), ContentSection(s.content))))
  }

  function OptionalState(s: Option<NodeState>): Section {
    if s.None? then Put([0]) else Then(Put([1]), StateSection(s.value))
  }

  function OptionalDigest(d: Option<Digest>): Section {
    if d.None? then Put([0]) else Then(Put([1]), Put(d.value))
  }

  function EffectTag(e: Effect): byte {
    match e
    case MetadataRead(_, _) => 1
    case ContentRead(_, _) => 2
    case DirectoryRead(_, _) => 3
    case Create(_, _) => 4
    case ModifyContent(_, _, _) => 5
    case Delete(_, _) => 6
    case Rename(_, _, _, _) => 7
    case ModifyMetadata(_, _, _) => 8
  }

  /** What an effect says of its path. */
  function EffectDetail(l: Limits, e: Effect): Section {
    match e
    case MetadataRead(_, s) => OptionalState(s)
    case ContentRead(_, d) => Put(d)
    case DirectoryRead(_, d) => Put(d)
    case Create(_, after) => StateSection(after)
    case Delete(_, before) => StateSection(before)
    case ModifyContent(_, before, after) => Then(StateSection(before), StateSection(after))
    case ModifyMetadata(_, before, after) => Then(StateSection(before), StateSection(after))
    case Rename(_, to, before, after) => Then(PathSection(l, to), Then(StateSection(before), StateSection(after)))
  }

  function EffectSection(l: Limits, e: Effect): Section {
    Then(Put([EffectTag(e)]), Then(PathSection(l, e.path), EffectDetail(l, e)))
  }

  function OriginTag(o: EffectOrigin): byte {
    match o
    case VirtualFs => 1
    case MontyOsCall => 2
    case MontyToolCall => 3
    case BashCall => 4
  }

  function EventSection(l: Limits, e: EffectEvent): Section {
    Then(Put(U64Bytes(e.sequence)), Then(Put([OriginTag(e.origin)]), EffectSection(l, e.effect)))
  }

  function EventWriter(l: Limits): EffectEvent -> Section {
    e => EventSection(l, e)
  }

  function U16Bytes(n: u16): seq<byte> {
    LE(n, 2)
  }

  function MetricsSection(m: RiskMetrics): Section {
    Then(Put(U64Bytes(m.touched)), Then(Put(U64Bytes(m.created)), Then(Put(U64Bytes(m.modified)), Then(Put(U64Bytes(m.deleted)),
      Then(Put(U64Bytes(m.renamed)), Then(Put(U64Bytes(m.changedBytes)), Then(Put(U16Bytes(m.deleteRatio)),
        Then(Put(U64Bytes(m.executableChanges)), Put(U64Bytes(m.symlinkChanges))))))))))
  }

  function FlagTag(f: RiskFlag): byte {
    match f
    case Mutation => 1
    case Deletion => 2
    case Renaming => 3
    case ExecutableChange => 4
    case SymlinkChange => 5
    case LargeTouchedSet => 6
    case LargeByteChange => 7
    case PermissionChange => 8
  }

  function FlagSection(f: RiskFlag): Section {
    Put([FlagTag(f)])
  }

  /** The flags have no bound of their own. */
  function FlagsSection(flags: seq<RiskFlag>): Section {
    Then(Put(Length(|flags|)), First(flags, |flags|, FlagSection))
  }

  function ManifestSection(m: RiskManifest): Section {
    Then(MetricsSection(m.metrics), Then(FlagsSection(m.flags), Put(m.policy)))
  }

  /** Only what may be pending can be written. */
  function DecisionSection(d: Decision): Section {
    match d
    case AutoApproved => Put([1])
    case PendingApproval(m) => Then(Put([2]), ManifestSection(m))
    case Denied(_, _, _) => Refuse(Unsupported)
  }

  function AccessTag(a: AccessKind): byte {
    match a
    case MetadataAccess => 1
    case ContentAccess => 2
    case DirectoryAccess => 3
    case Creation => 4
    case Modification => 5
    case Removal => 6
    case RenameSource => 7
    case RenameDestination => 8
  }

  function ReasonSection(l: Limits, r: DenyReason): Section {
    match r
    case ProtectedAccessAttempt(p, a, rule) => Then(Put([1]), Then(PathSection(l, p), Then(Put([AccessTag(a)]), TextSection(rule))))
    case ProtectedMutation(p, a, rule) => Then(Put([2]), Then(PathSection(l, p), Then(Put([AccessTag(a)]), TextSection(rule))))
    case TouchedPathLimit(limit, observed) => Then(Put([3]), Then(Put(U64Bytes(limit)), Put(U64Bytes(observed))))
    case ChangedByteLimit(limit, observed) => Then(Put([4]), Then(Put(U64Bytes(limit)), Put(U64Bytes(observed))))
    case DeletePathLimit(limit, observed) => Then(Put([5]), Then(Put(U64Bytes(limit)), Put(U64Bytes(observed))))
    case DeleteRatioLimit(limit, observed) => Then(Put([6]), Then(Put(U16Bytes(limit)), Put(U16Bytes(observed))))
  }

  /** The decision as evidence: a denial, too, has its place. */
  function DecisionEvidence(l: Limits, d: Decision): Section {
    match d
    case Denied(reason, metrics, policy) =>
      Then(Put([3]), Then(MetricsSection(metrics), Then(Put(policy), ReasonSection(l, reason))))
    case _ => DecisionSection(d)
  }

  function I32Bytes(n: i32): seq<byte> {
    LE(if n < 0 then n + 0x1_0000_0000 else n, 4)
  }

  function ValueSection(l: Limits, v: Value): Section {
    Bounded(|Join(v.pieces)|, l.maxValueBytes, Then(Put(Length(|Join(v.pieces)|)), Section(v.pieces, None)))
  }

  /** The bounds on Bash output, in the order in which they are checked. */
  function BashRefusal(l: Limits, profile: seq<byte>, stdout: seq<byte>, stderr: seq<byte>): Option<ArtifactError> {
    if |profile| > 128 then Some(FieldLimit(|profile|))
    else if 4 > l.maxValueBytes then Some(FieldLimit(4))
    else if |stdout| + |stderr| > l.maxStdoutBytes then Some(FieldLimit(|stdout| + |stderr|))
    else None
  }

  function OutputSection(l: Limits, o: Output, modern: bool): Section {
    match o
    case Bash(profile, exitCode, stdout, stderr) =>
      if !modern || exitCode != 0 then Refuse(Unsupported)
      else if BashRefusal(l, profile, stdout, stderr).Some? then Refuse(BashRefusal(l, profile, stdout, stderr).value)
      else Then(Put([2, 1]), Then(TextSection(profile), Then(Put(I32Bytes(exitCode)), Then(TextSection(stdout), TextSection(stderr)))))
    case Monty(value, stdout) =>
      var body := Then(ValueSection(l, value), Bounded(|stdout|, l.maxStdoutBytes, TextSection(stdout)));
      if modern then Then(Put([1]), Then(Put([1]), body)) else body
  }

  function SevenSection(a: u64, b: u64, c: u64, d: u64, e: u64, f: u64, g: u64): Section {
    Then(Put(U64Bytes(a)), Then(Put(U64Bytes(b)), Then(Put(U64Bytes(c)), Then(Put(U64Bytes(d)),
      Then(Put(U64Bytes(e)), Then(Put(U64Bytes(f)), Put(U64Bytes(g))))))))
  }

  function StatsSection(s: Stats): Section {
    SevenSection(s.osCalls, s.readBytes, s.writeBytes, s.directoryEntries, s.outputBytes, s.deniedAccesses, s.resultBytes)
  }

  function TimingsSection(t: Timings): Section {
    SevenSection(t.snapshot, t.execute, t.diff, t.policy, t.bindAndStore, t.commit, t.total)
  }

  function BoolByte(b: bool): seq<byte> {
    if b then [1] else [0]
  }

  function IntentSection(l: Limits, intent: Option<seq<byte>>): Section {
    if intent.None? then Put([0])
    else Bounded(|intent.value|, l.maxIntentBytes, Then(Put([1]), TextSection(intent.value)))
  }

  function ReviewSection(l: Limits, r: Review): Section {
    Then(IntentSection(l, r.intent), Then(MetricsSection(r.metrics), Then(Collection(r.effects, l.maxEffects, EventWriter(l)),
      Then(Put(BoolByte(r.complete)), Put(BoolByte(r.truncated))))))
  }

  function DiffTag(k: DiffKind): byte {
    match k
    case Creating => 1
    case Deleting => 2
    case Modifying => 3
    case MetadataChange => 4
  }

  function ChangeSection(l: Limits, c: Change): Section {
    Then(PathSection(l, c.path), Then(OptionalState(c.before), Then(OptionalState(c.after), Put([DiffTag(c.kind)]))))
  }

  function SeenSection(m: Option<Option<NodeState>>): Section {
    match m
    case None => Put([0])
    case Some(None) => Put([1])
    case Some(Some(s)) => Then(Put([2]), StateSection(s))
  }

  function ObservationSection(l: Limits, o: Observation): Section {
    Then(PathSection(l, o.path), Then(SeenSection(o.metadata), Then(OptionalDigest(o.content), OptionalDigest(o.directory))))
  }

  function PreconditionSection(l: Limits, w: Precondition): Section {
    Then(PathSection(l, w.path), OptionalState(w.expected))
  }

  function ChangeWriter(l: Limits): Change -> Section { c => ChangeSection(l, c) }
  function ObservationWriter(l: Limits): Observation -> Section { o => ObservationSection(l, o) }
  function PreconditionWriter(l: Limits): Precondition -> Section { w => PreconditionSection(l, w) }

  // ----------------------------------------------------------------- reading

  function ReadU16(s: seq<byte>): P.Parsed<u16> {
    var (b, s) :- P.ReadBytes(s, 2);
    Widths16();
    P.Got(FromLE(b), s)
  }

  lemma Widths16()
    ensures Pow256(2) == 0x1_0000
  {
    assert Pow256(1) == 256 * Pow256(0);
  }

  function ReadLength(s: seq<byte>, maximum: nat): P.Parsed<nat> {
    var (n, s) :- P.ReadU64(s);
    if n > maximum then P.Bad(P.Limit) else P.Got(n, s)
  }

  /** A count is also held against the bytes that are left: each element takes some. */
  function ReadCount(s: seq<byte>, maximum: nat, each: nat): (r: P.Parsed<nat>)
    requires each > 0
    ensures r.Got? ==> r.value <= maximum && r.value * each <= |r.rest|
  {
    var (n, s) :- ReadLength(s, maximum);
    if n > |s| / each then P.Bad(P.Truncated) else P.Got(n, s)
  }

  function ReadText(s: seq<byte>, maximum: nat): P.Parsed<seq<byte>> {
    var (n, s) :- ReadLength(s, maximum);
    P.ReadBytes(s, n)
  }

  function ReadPath(l: Limits, s: seq<byte>): P.Parsed<Path> {
    var (text, s) :- ReadText(s, l.maxPathBytes);
    match Parse(text)
    case None => P.Bad(P.BadPath)
    case Some(p) => P.Got(p, s)
  }

  function ReadBool(s: seq<byte>): P.Parsed<bool> {
    var (tag, s) :- P.ReadByte(s);
    if tag == 0 then P.Got(false, s) else if tag == 1 then P.Got(true, s) else P.Bad(P.Tag)
  }

  /** Virtual files and directories of sealed artifacts may carry a mode that differs from the stamp's. */
  function VirtualKinds(shifted: bool): set<Kind> {
    if shifted then {File, Directory} else {}
  }

  function ReadState(s: seq<byte>, shifted: bool): P.Parsed<NodeState> {
    P.ReadNodeState(s, VirtualKinds(shifted))
  }

  function ReadOptionalState(s: seq<byte>, shifted: bool): P.Parsed<Option<NodeState>> {
    var (tag, s) :- P.ReadByte(s);
    if tag == 0 then P.Got(None, s)
    else if tag == 1 then
      var (state, s) :- ReadState(s, shifted);
      P.Got(Some(state), s)
    else P.Bad(P.Tag)
  }

  function ReadOptionalDigest(s: seq<byte>): P.Parsed<Option<Digest>> {
    var (tag, s) :- P.ReadByte(s);
    if tag == 0 then P.Got(None, s)
    else if tag == 1 then
      var (d, s) :- P.ReadDigest(s);
      P.Got(Some(d), s)
    else P.Bad(P.Tag)
  }

  function ReadTwoStates(s: seq<byte>, shifted: bool): P.Parsed<(NodeState, NodeState)> {
    var (before, s) :- ReadState(s, shifted);
    var (after, s) :- ReadState(s, shifted);
    P.Got((before, after), s)
  }

  function ReadPair(s: seq<byte>, tag: byte, path: Path, modern: bool): P.Parsed<Effect> {
    var (states, s) :- ReadTwoStates(s, modern);
    P.Got(if tag == 5 then ModifyContent(path, states.0, states.1) else ModifyMetadata(path, states.0, states.1), s)
  }

  function ReadDetail(l: Limits, s: seq<byte>, tag: byte, path: Path, modern: bool): P.Parsed<Effect> {
    match tag
    case 1 =>
      var (state, s) :- ReadOptionalState(s, modern);
      P.Got(MetadataRead(path, state), s)
    case 2 =>
      var (d, s) :- P.ReadDigest(s);
      P.Got(ContentRead(path, d), s)
    case 3 =>
      var (d, s) :- P.ReadDigest(s);
      P.Got(DirectoryRead(path, d), s)
    case 4 =>
      var (after, s) :- ReadState(s, modern);
      P.Got(Create(path, after), s)
    case 5 => ReadPair(s, tag, path, modern)
    case 6 =>
      var (before, s) :- ReadState(s, modern);
      P.Got(Delete(path, before), s)
    case 7 =>
      var (to, s) :- ReadPath(l, s);
      var (states, s) :- ReadTwoStates(s, modern);
      P.Got(Rename(path, to, states.0, states.1), s)
    case _ => ReadPair(s, tag, path, modern)
  }

  /** Metadata effects came with sealed artifacts. */
  function ReadEffect(l: Limits, s: seq<byte>, modern: bool): P.Parsed<Effect> {
    var (tag, s) :- P.ReadByte(s);
    if tag < 1 || tag > 8 || (tag == 8 && !modern) then P.Bad(P.Tag)
    else
      var (path, s) :- ReadPath(l, s);
      ReadDetail(l, s, tag, path, modern)
  }

  /** So did Bash. */
  function ReadOrigin(s: seq<byte>, modern: bool): P.Parsed<EffectOrigin> {
    var (tag, s) :- P.ReadByte(s);
    match tag
    case 1 => P.Got(VirtualFs, s)
    case 2 => P.Got(MontyOsCall, s)
    case 3 => P.Got(MontyToolCall, s)
    case 4 => if modern then P.Got(BashCall, s) else P.Bad(P.Tag)
    case _ => P.Bad(P.Tag)
  }

  function ReadEvent(l: Limits, s: seq<byte>, modern: bool): P.Parsed<EffectEvent> {
    var (sequence, s) :- P.ReadU64(s);
    var (origin, s) :- ReadOrigin(s, modern);
    var (effect, s) :- ReadEffect(l, s, modern);
    P.Got(EffectEvent(sequence, origin, effect), s)
  }

  function EventReader(l: Limits, modern: bool): seq<byte> -> P.Parsed<EffectEvent> {
    s => ReadEvent(l, s, modern)
  }

  function ReadCollection<T>(s: seq<byte>, maximum: nat, each: nat, read: seq<byte> -> P.Parsed<T>): P.Parsed<seq<T>>
    requires each > 0
  {
    var (n, s) :- ReadCount(s, maximum, each);
    P.Many(n, s, read)
  }

  predicate InSequence(effects: seq<EffectEvent>) {
    forall i :: 0 < i < |effects| ==> effects[i - 1].sequence < effects[i].sequence
  }

  function ReadEffects(l: Limits, s: seq<byte>, modern: bool): P.Parsed<seq<EffectEvent>> {
    var (effects, s) :- ReadCollection(s, l.maxEffects, 19, EventReader(l, modern));
    if InSequence(effects) then P.Got(effects, s) else P.Bad(P.Tag)
  }

  function ReadMetrics(s: seq<byte>): P.Parsed<RiskMetrics> {
    var (touched, s) :- P.ReadU64(s);
    var (created, s) :- P.ReadU64(s);
    var (modified, s) :- P.ReadU64(s);
    var (deleted, s) :- P.ReadU64(s);
    var (renamed, s) :- P.ReadU64(s);
    var (changedBytes, s) :- P.ReadU64(s);
    var (deleteRatio, s) :- ReadU16(s);
    var (executableChanges, s) :- P.ReadU64(s);
    var (symlinkChanges, s) :- P.ReadU64(s);
    P.Got(RiskMetrics(touched, created, modified, deleted, renamed, changedBytes, deleteRatio, executableChanges, symlinkChanges), s)
  }

  function ReadFlag(s: seq<byte>, modern: bool): P.Parsed<RiskFlag> {
    var (tag, s) :- P.ReadByte(s);
    match tag
    case 1 => P.Got(Mutation, s)
    case 2 => P.Got(Deletion, s)
    case 3 => P.Got(Renaming, s)
    case 4 => P.Got(ExecutableChange, s)
    case 5 => P.Got(SymlinkChange, s)
    case 6 => P.Got(LargeTouchedSet, s)
    case 7 => P.Got(LargeByteChange, s)
    case 8 => if modern then P.Got(PermissionChange, s) else P.Bad(P.Tag)
    case _ => P.Bad(P.Tag)
  }

  function FlagReader(modern: bool): seq<byte> -> P.Parsed<RiskFlag> {
    s => ReadFlag(s, modern)
  }

  predicate FlagsSorted(flags: seq<RiskFlag>) {
    forall i :: 0 < i < |flags| ==> FlagTag(flags[i - 1]) < FlagTag(flags[i])
  }

  function ReadFlags(s: seq<byte>, modern: bool): P.Parsed<seq<RiskFlag>> {
    var (flags, s) :- ReadCollection(s, 32, 1, FlagReader(modern));
    if FlagsSorted(flags) then P.Got(flags, s) else P.Bad(P.Tag)
  }

  function ReadManifest(s: seq<byte>, modern: bool): P.Parsed<RiskManifest> {
    var (metrics, s) :- ReadMetrics(s);
    var (flags, s) :- ReadFlags(s, modern);
    var (policy, s) :- P.ReadDigest(s);
    P.Got(RiskManifest(metrics, flags, policy), s)
  }

  function ReadDecision(s: seq<byte>, modern: bool): P.Parsed<Decision> {
    var (tag, s) :- P.ReadByte(s);
    if tag == 1 then P.Got(AutoApproved, s)
    else if tag == 2 then
      var (manifest, s) :- ReadManifest(s, modern);
      P.Got(PendingApproval(manifest), s)
    else P.Bad(P.Tag)
  }

  /** How the serializer of result values reads: one value, and what is left over. */
  type Taker = seq<byte> -> Option<(Value, seq<byte>)>

  function ReadValue(l: Limits, take: Taker, s: seq<byte>): P.Parsed<Value> {
    var (bytes, s) :- ReadText(s, l.maxValueBytes);
    match take(bytes)
    case None => P.Bad(P.DecodeError.State)
    case Some((value, remainder)) => if remainder == [] then P.Got(value, s) else P.Bad(P.TrailingBytes)
  }

  function ReadMonty(l: Limits, take: Taker, s: seq<byte>): P.Parsed<Output> {
    var (value, s) :- ReadValue(l, take, s);
    var (stdout, s) :- ReadText(s, l.maxStdoutBytes);
    P.Got(Monty(value, stdout), s)
  }

  /** Standard error may take what standard output left. Only a clean exit can be pending. */
  function ReadBash(l: Limits, s: seq<byte>): P.Parsed<Output> {
    if l.maxValueBytes < 4 then P.Bad(P.Limit)
    else
      var (profile, s) :- ReadText(s, 128);
      var (code, s) :- P.ReadBytes(s, 4);
      if code != [0, 0, 0, 0] then P.Bad(P.DecodeError.State)
      else
        var (stdout, s) :- ReadText(s, l.maxStdoutBytes);
        var (stderr, s) :- ReadText(s, if |stdout| <= l.maxStdoutBytes then l.maxStdoutBytes - |stdout| else 0);
        P.Got(Bash(profile, 0, stdout, stderr), s)
  }

  function ReadOutput(l: Limits, take: Taker, s: seq<byte>, modern: bool): P.Parsed<Output> {
    if !modern then ReadMonty(l, take, s)
    else
      var (tag, s) :- P.ReadByte(s);
      if tag != 1 && tag != 2 then P.Bad(P.Tag)
      else
        var (whole, s) :- P.ReadByte(s);
        if whole != 1 then P.Bad(P.Tag)
        else if tag == 2 then ReadBash(l, s) else ReadMonty(l, take, s)
  }

  function ReadSeven(s: seq<byte>): P.Parsed<(u64, u64, u64, u64, u64, u64, u64)> {
    var (a, s) :- P.ReadU64(s);
    var (b, s) :- P.ReadU64(s);
    var (c, s) :- P.ReadU64(s);
    var (d, s) :- P.ReadU64(s);
    var (e, s) :- P.ReadU64(s);
    var (f, s) :- P.ReadU64(s);
    var (g, s) :- P.ReadU64(s);
    P.Got((a, b, c, d, e, f, g), s)
  }

  function ReadStats(s: seq<byte>): P.Parsed<Stats> {
    var (n, s) :- ReadSeven(s);
    P.Got(Stats(n.0, n.1, n.2, n.3, n.4, n.5, n.6), s)
  }

  function ReadTimings(s: seq<byte>): P.Parsed<Timings> {
    var (n, s) :- ReadSeven(s);
    P.Got(Timings(n.0, n.1, n.2, n.3, n.4, n.5, n.6), s)
  }

  function ReadIntent(l: Limits, s: seq<byte>): P.Parsed<Option<seq<byte>>> {
    var (tag, s) :- P.ReadByte(s);
    if tag == 0 then P.Got(None, s)
    else if tag == 1 then
      var (text, s) :- ReadText(s, l.maxIntentBytes);
      P.Got(Some(text), s)
    else P.Bad(P.Tag)
  }

  function ReadReview(l: Limits, s: seq<byte>, modern: bool): P.Parsed<Review> {
    var (intent, s) :- ReadIntent(l, s);
    var (metrics, s) :- ReadMetrics(s);
    var (effects, s) :- ReadEffects(l, s, modern);
    var (complete, s) :- ReadBool(s);
    var (truncated, s) :- ReadBool(s);
    P.Got(Review(intent, metrics, effects, complete, truncated), s)
  }

  function ReadDiffKind(s: seq<byte>): P.Parsed<DiffKind> {
    var (tag, s) :- P.ReadByte(s);
    match tag
    case 1 => P.Got(Creating, s)
    case 2 => P.Got(Deleting, s)
    case 3 => P.Got(Modifying, s)
    case 4 => P.Got(MetadataChange, s)
    case _ => P.Bad(P.Tag)
  }

  /** The state after is virtual, the state before is not. */
  function ReadChange(l: Limits, s: seq<byte>, modern: bool): P.Parsed<Change> {
    var (path, s) :- ReadPath(l, s);
    var (before, s) :- ReadOptionalState(s, false);
    var (after, s) :- ReadOptionalState(s, modern);
    var (kind, s) :- ReadDiffKind(s);
    P.Got(Change(path, before, after, kind), s)
  }

  function ReadSeen(s: seq<byte>): P.Parsed<Option<Option<NodeState>>> {
    var (tag, s) :- P.ReadByte(s);
    if tag == 0 then P.Got(None, s)
    else if tag == 1 then P.Got(Some(None), s)
    else if tag == 2 then
      var (state, s) :- ReadState(s, false);
      P.Got(Some(Some(state)), s)
    else P.Bad(P.Tag)
  }

  function ReadObservation(l: Limits, s: seq<byte>): P.Parsed<Observation> {
    var (path, s) :- ReadPath(l, s);
    var (metadata, s) :- ReadSeen(s);
    var (content, s) :- ReadOptionalDigest(s);
    var (directory, s) :- ReadOptionalDigest(s);
    P.Got(Observation(path, metadata, content, directory), s)
  }

  function ReadPrecondition(l: Limits, s: seq<byte>): P.Parsed<Precondition> {
    var (path, s) :- ReadPath(l, s);
    var (expected, s) :- ReadOptionalState(s, false);
    P.Got(Precondition(path, expected), s)
  }

  function ChangeReader(l: Limits, modern: bool): seq<byte> -> P.Parsed<Change> { s => ReadChange(l, s, modern) }
  function ObservationReader(l: Limits): seq<byte> -> P.Parsed<Observation> { s => ReadObservation(l, s) }
  function PreconditionReader(l: Limits): seq<byte> -> P.Parsed<Precondition> { s => ReadPrecondition(l, s) }

  /** Content kept, whatever the mode. */
  function Classify(before: Option<NodeState>, after: Option<NodeState>): DiffKind {
    if before.None? then Creating
    else if after.None? then Deleting
    else if ContentEquivalent(before.value, after.value) then MetadataChange
    else Modifying
  }

  /** Byte by byte; a proper prefix comes first. */
  predicate Less(a: seq<byte>, b: seq<byte>) {
    if b == [] then false
    else if a == [] then true
    else a[0] < b[0] || (a[0] == b[0] && Less(a[1..], b[1..]))
  }

  predicate CanonicalChange(c: Change) {
    c.path != [] && c.before != c.after && c.kind == Classify(c.before, c.after)
  }

  /** In strict path order, each entry a change of the kind it says. */
  predicate CanonicalDiff(diff: seq<Change>) {
    && (forall i :: 0 <= i < |diff| ==> CanonicalChange(diff[i]))
    && (forall i :: 0 < i < |diff| ==> Less(Text(diff[i - 1].path), Text(diff[i].path)))
  }

  function ReadDiff(l: Limits, s: seq<byte>, modern: bool): P.Parsed<seq<Change>> {
    var (diff, s) :- ReadCollection(s, l.maxEntries, 11, ChangeReader(l, modern));
    if CanonicalDiff(diff) then P.Got(diff, s) else P.Bad(P.Tag)
  }

  predicate DistinctReads(observed: seq<Observation>) {
    forall i, j :: 0 <= i < j < |observed| ==> observed[i].path != observed[j].path
  }

  predicate DistinctWrites(written: seq<Precondition>) {
    forall i, j :: 0 <= i < j < |written| ==> written[i].path != written[j].path
  }

  /** Dependencies: the order is not checked, a repeated path is refused. */
  function ReadReadSet(l: Limits, s: seq<byte>): P.Parsed<seq<Observation>> {
    var (observed, s) :- ReadCollection(s, l.maxDependencies, 11, ObservationReader(l));
    if DistinctReads(observed) then P.Got(observed, s) else P.Bad(P.Tag)
  }

  function ReadWriteSet(l: Limits, s: seq<byte>): P.Parsed<seq<Precondition>> {
    var (written, s) :- ReadCollection(s, l.maxDependencies, 9, PreconditionReader(l));
    if DistinctWrites(written) then P.Got(written, s) else P.Bad(P.Tag)
  }
}
