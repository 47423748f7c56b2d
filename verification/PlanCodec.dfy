/**
 The durable encoding of a prepared plan: what recovery reads back after a crash.
 */
module PlanCodec {
  import opened Types
  import opened ByteCodec
  import opened Paths
  import opened Planning
  import opened OperationLog

  datatype DecodeError = Truncated | Checksum | Magic | Tag | BadPath | State | Limit | TrailingBytes

  /** "VSHCMT01" and "VSHCMT02"; the second is written when a plan sets the mode of a file. */
  const PLAN_MAGIC: seq<byte> := [86, 83, 72, 67, 77, 84, 48, 49]
  const PLAN_MAGIC_V2: seq<byte> := [86, 83, 72, 67, 77, 84, 48, 50]

  function MagicOf(shifted: bool): (m: seq<byte>)
    ensures |m| == 8
  {
    if shifted then PLAN_MAGIC_V2 else PLAN_MAGIC
  }

  type State = Option<NodeState>

  // ----------------------------------------------------------------- writing

  /** Counts and lengths are stored in 32 bits. */
  function Count(n: nat): seq<byte> {
    U32Bytes(n % 0x1_0000_0000)
  }

  function WritePath(p: Path): seq<byte> {
    Count(|Text(p)|) + Text(p)
  }

  function WriteStamp(s: FileStamp): seq<byte> {
    [KindTag(s.kind)] + U64Bytes(s.size) + U32Bytes(s.mode) + I128Bytes(s.mtime)
    + (if s.ctime.Some? then [1] + I128Bytes(s.ctime.value) else [0])
    + U64Bytes(s.id.high) + U64Bytes(s.id.low)
  }

  function WriteContent(c: Content): seq<byte> {
    match c
    case NoContent => [0]
    case Blob(b) => [1] + b
    case Stamp(s) => [2] + WriteStamp(s)
  }

  function WriteState(s: NodeState): seq<byte> {
    [KindTag(s.kind)] + U64Bytes(s.size) + U32Bytes(s.mode) + WriteContent(s.content)
  }

  function WriteOptional(s: State): seq<byte> {
    if s.None? then [0] else [1] + WriteState(s.value)
  }

  function OperationTag(op: Operation): byte {
    match op
    case Quarantine(_, _, _) => 1
    case CreateDirectory(_, _) => 2
    case InstallFile(_, _, _) => 3
    case InstallSymlink(_, _, _) => 4
    case SetDirectoryMode(_, _, _) => 5
    case SetFileMode(_, _, _) => 6
  }

  /** The state an operation carries: what it expects, or what it makes. */
  function StateOf(op: Operation): NodeState {
    if op.Quarantine? || op.IsMode() then op.expected else op.after
  }

  /** The trailing number of an operation: its slot, or the mode it sets. */
  function Trailer(op: Operation): seq<byte> {
    match op
    case CreateDirectory(_, _) => []
    case SetDirectoryMode(_, _, mode) => U32Bytes(mode)
    case SetFileMode(_, _, mode) => U32Bytes(mode)
    case _ => Count(op.slot)
  }

  function WriteOperation(op: Operation): seq<byte> {
    [OperationTag(op)] + WritePath(op.path) + WriteState(StateOf(op)) + Trailer(op)
  }

  function WriteFinal(f: (Path, State)): seq<byte> {
    WritePath(f.0) + WriteOptional(f.1)
  }

  function WriteFirst<T>(xs: seq<T>, n: nat, write: T -> seq<byte>): seq<byte>
    requires n <= |xs|
  {
    if n == 0 then [] else WriteFirst(xs, n - 1, write) + write(xs[n - 1])
  }

  function WriteAll<T>(xs: seq<T>, write: T -> seq<byte>): seq<byte> {
    WriteFirst(xs, |xs|, write)
  }

  predicate SetsFileMode(ops: seq<Operation>) {
    exists i :: 0 <= i < |ops| && ops[i].SetFileMode?
  }

  function WriteLists(p: PreparedPlan): seq<byte> {
    Count(|p.operations|) + WriteAll(p.operations, WriteOperation)
    + Count(|p.finalStates|) + WriteAll(p.finalStates, WriteFinal)
  }

  function Body(p: PreparedPlan): seq<byte> {
    MagicOf(SetsFileMode(p.operations)) + p.transaction + p.baseSnapshot + WriteLists(p)
  }

  function Sealed(hash: Hash, body: seq<byte>): seq<byte> {
    body + hash(body)
  }

  // ----------------------------------------------------------------- parsing

  datatype Parsed<T> = Got(value: T, rest: seq<byte>) | Bad(error: DecodeError) {
    predicate IsFailure() {
      Bad?
    }

    function PropagateFailure<U>(): Parsed<U>
      requires Bad?
    {
      Bad(error)
    }

    function Extract(): (T, seq<byte>)
      requires Got?
    {
      (value, rest)
    }
  }

  function ReadBytes(s: seq<byte>, n: nat): (p: Parsed<seq<byte>>)
    ensures p.Got? ==> |p.value| == n && p.value + p.rest == s
  {
    if |s| < n then Bad(Truncated) else Got(s[..n], s[n..])
  }

  function ReadByte(s: seq<byte>): (p: Parsed<byte>)
    ensures p.Got? ==> |s| == |p.rest| + 1
  {
    var (b, s) :- ReadBytes(s, 1);
    Got(b[0], s)
  }

  function ReadU32(s: seq<byte>): Parsed<u32> {
    var (b, s) :- ReadBytes(s, 4);
    Got(U32From(b), s)
  }

  function ReadU64(s: seq<byte>): Parsed<u64> {
    var (b, s) :- ReadBytes(s, 8);
    Got(U64From(b), s)
  }

  function ReadI128(s: seq<byte>): Parsed<i128> {
    var (b, s) :- ReadBytes(s, 16);
    Got(I128From(b), s)
  }

  function ReadDigest(s: seq<byte>): Parsed<Digest> {
    var (b, s) :- ReadBytes(s, 32);
    var d: Digest := b;
    Got(d, s)
  }

  function ReadPath(s: seq<byte>, maxPath: nat): Parsed<Path> {
    var (length, s) :- ReadU32(s);
    if length > maxPath then Bad(Limit)
    else
      var (text, s) :- ReadBytes(s, length);
      match Parse(text)
      case None => Bad(BadPath)
      case Some(p) => Got(p, s)
  }

  function ReadKind(s: seq<byte>): Parsed<Kind> {
    var (tag, s) :- ReadByte(s);
    match tag
    case 1 => Got(File, s)
    case 2 => Got(Directory, s)
    case 3 => Got(Symlink, s)
    case _ => Bad(Tag)
  }

  function ReadCtime(s: seq<byte>): Parsed<Option<i128>> {
    var (tag, s) :- ReadByte(s);
    if tag == 0 then Got(None, s)
    else if tag == 1 then
      var (c, s) :- ReadI128(s);
      Got(Some(c), s)
    else Bad(Tag)
  }

  function ReadStamp(s: seq<byte>): Parsed<FileStamp> {
    var (kind, s) :- ReadKind(s);
    var (size, s) :- ReadU64(s);
    var (mode, s) :- ReadU32(s);
    var (mtime, s) :- ReadI128(s);
    var (ctime, s) :- ReadCtime(s);
    var (high, s) :- ReadU64(s);
    var (low, s) :- ReadU64(s);
    Got(FileStamp(kind, size, mode, mtime, ctime, FileId(high, low)), s)
  }

  /** A stamp may disagree with the mode beside it only for the given kinds of node. */
  predicate StampFits(kind: Kind, size: u64, mode: u32, stamp: FileStamp, movable: set<Kind>) {
    && stamp.kind == kind && stamp.size == size
    && (stamp.mode == mode || (kind in movable && mode < 0x200))
  }

  /** In a plan these are files, and only where file modes are planned. */
  function Movable(shifted: bool): set<Kind> {
    if shifted then {File} else {}
  }

  function ReadContent(s: seq<byte>, kind: Kind, size: u64, mode: u32, movable: set<Kind>): Parsed<Content> {
    var (tag, s) :- ReadByte(s);
    if tag == 0 && kind == Directory && size == 0 then Got(NoContent, s)
    else if tag == 1 then
      var (blob, s) :- ReadDigest(s);
      if kind == Directory then Bad(State) else Got(Blob(blob), s)
    else if tag == 2 then
      var (stamp, s) :- ReadStamp(s);
      if StampFits(kind, size, mode, stamp, movable) then Got(Stamp(stamp), s) else Bad(State)
    else Bad(State)
  }

  function ReadNodeState(s: seq<byte>, movable: set<Kind>): Parsed<NodeState> {
    var (kind, s) :- ReadKind(s);
    var (size, s) :- ReadU64(s);
    var (mode, s) :- ReadU32(s);
    var (content, s) :- ReadContent(s, kind, size, mode, movable);
    Got(NodeState(kind, size, mode, content), s)
  }

  function ReadState(s: seq<byte>, shifted: bool): Parsed<NodeState> {
    ReadNodeState(s, Movable(shifted))
  }

  function ReadOptional(s: seq<byte>, shifted: bool): Parsed<State> {
    var (tag, s) :- ReadByte(s);
    if tag == 0 then Got(None, s)
    else if tag == 1 then
      var (state, s) :- ReadState(s, shifted);
      Got(Some(state), s)
    else Bad(Tag)
  }

  function ReadSlotted(s: seq<byte>, tag: byte, path: Path): Parsed<Operation>
    requires tag in {1, 3, 4}
  {
    var (state, s) :- ReadState(s, false);
    var (slot, s) :- ReadU32(s);
    Got(if tag == 1 then Quarantine(path, state, slot)
        else if tag == 3 then InstallFile(path, state, slot)
        else InstallSymlink(path, state, slot), s)
  }

  function ReadMode(s: seq<byte>, tag: byte, path: Path): Parsed<Operation>
    requires tag in {5, 6}
  {
    var (state, s) :- ReadState(s, false);
    var (mode, s) :- ReadU32(s);
    if tag == 5 then Got(SetDirectoryMode(path, state, mode), s)
    else if state.kind != File || mode >= 0x200 then Bad(Tag)
    else Got(SetFileMode(path, state, mode), s)
  }

  /** The first format knows no file-mode operation. */
  function ReadFlagged(s: seq<byte>, tag: byte, path: Path, shifted: bool): Parsed<Operation>
    requires tag in {5, 6}
  {
    var (op, s) :- ReadMode(s, tag, path);
    if op.SetFileMode? && !shifted then Bad(Tag) else Got(op, s)
  }

  function ReadCreate(s: seq<byte>, path: Path): Parsed<Operation> {
    var (state, s) :- ReadState(s, false);
    Got(CreateDirectory(path, state), s)
  }

  function ReadTagged(s: seq<byte>, tag: byte, path: Path, shifted: bool): Parsed<Operation> {
    if tag in {1, 3, 4} then ReadSlotted(s, tag, path)
    else if tag == 2 then ReadCreate(s, path)
    else if tag in {5, 6} then ReadFlagged(s, tag, path, shifted)
    else Bad(Tag)
  }

  function ReadOperation(s: seq<byte>, shifted: bool, maxPath: nat): Parsed<Operation> {
    var (tag, s) :- ReadByte(s);
    var (path, s) :- ReadPath(s, maxPath);
    ReadTagged(s, tag, path, shifted)
  }

  function ReadFinal(s: seq<byte>, shifted: bool, maxPath: nat): Parsed<(Path, State)> {
    var (path, s) :- ReadPath(s, maxPath);
    var (state, s) :- ReadOptional(s, shifted);
    Got((path, state), s)
  }

  function Many<T>(n: nat, s: seq<byte>, read: seq<byte> -> Parsed<T>): Parsed<seq<T>> {
    if n == 0 then Got([], s)
    else
      var (xs, s) :- Many(n - 1, s, read);
      var (x, s) :- read(s);
      Got(xs + [x], s)
  }

  function OperationReader(shifted: bool, maxPath: nat): seq<byte> -> Parsed<Operation> {
    s => ReadOperation(s, shifted, maxPath)
  }

  function FinalReader(shifted: bool, maxPath: nat): seq<byte> -> Parsed<(Path, State)> {
    s => ReadFinal(s, shifted, maxPath)
  }

  function Bounded<T>(s: seq<byte>, maximum: nat, read: seq<byte> -> Parsed<T>): Parsed<seq<T>> {
    var (n, s) :- ReadU32(s);
    if n > maximum then Bad(Limit) else Many(n, s, read)
  }

  /** After the header come two bounded lists. */
  function ReadLists(s: seq<byte>, maxOperations: nat, maxPath: nat, shifted: bool): Parsed<(seq<Operation>, seq<(Path, State)>)> {
    var (ops, s) :- Bounded(s, maxOperations, OperationReader(shifted, maxPath));
    var (finals, s) :- Bounded(s, maxOperations, FinalReader(shifted, maxPath));
    Got((ops, finals), s)
  }

  function ReadBody(s: seq<byte>, maxOperations: nat, maxPath: nat): Parsed<PreparedPlan> {
    var (magic, s) :- ReadBytes(s, 8);
    if magic != PLAN_MAGIC && magic != PLAN_MAGIC_V2 then Bad(Magic)
    else
      var shifted := magic == PLAN_MAGIC_V2;
      var (transaction, s) :- ReadDigest(s);
      var (snapshot, s) :- ReadDigest(s);
      var (lists, s) :- ReadLists(s, maxOperations, maxPath, shifted);
      Got(PreparedPlan(transaction, snapshot, lists.0, lists.1), s)
  }

  function Decode(hash: Hash, bytes: seq<byte>, maxOperations: nat, maxPath: nat): Result<PreparedPlan, DecodeError> {
    if |bytes| < 40 then Err(Truncated)
    else
      var payload := bytes[..|bytes| - 32];
      if hash(payload) != bytes[|bytes| - 32..] then Err(Checksum)
      else match ReadBody(payload, maxOperations, maxPath)
        case Bad(e) => Err(e)
        case Got(p, rest) => if rest != [] then Err(TrailingBytes) else Ok(p)
  }

  // ------------------------------------------------- reading what was written

  lemma TakeBack(a: seq<byte>, rest: seq<byte>)
    ensures ReadBytes(a + rest, |a|) == Got(a, rest)
  {
  }

  lemma ByteBack(b: byte, rest: seq<byte>)
    ensures ReadByte([b] + rest) == Got(b, rest)
  {
    TakeBack([b], rest);
  }

  lemma U32Back(n: u32, rest: seq<byte>)
    ensures ReadU32(U32Bytes(n) + rest) == Got(n, rest)
  {
    TakeBack(U32Bytes(n), rest);
    IntegersReadBack(n, 0, 0);
  }

  lemma U64Back(n: u64, rest: seq<byte>)
    ensures ReadU64(U64Bytes(n) + rest) == Got(n, rest)
  {
    TakeBack(U64Bytes(n), rest);
    IntegersReadBack(0, n, 0);
  }

  lemma I128Back(n: i128, rest: seq<byte>)
    ensures ReadI128(I128Bytes(n) + rest) == Got(n, rest)
  {
    TakeBack(I128Bytes(n), rest);
    IntegersReadBack(0, 0, n);
  }

  lemma DigestBack(d: Digest, rest: seq<byte>)
    ensures ReadDigest(d + rest) == Got(d, rest)
  {
    TakeBack(d, rest);
  }

  lemma KindBack(k: Kind, rest: seq<byte>)
    ensures ReadKind([KindTag(k)] + rest) == Got(k, rest)
  {
    ByteBack(KindTag(k), rest);
  }

  lemma Nest4(a: seq<byte>, b: seq<byte>, c: seq<byte>, d: seq<byte>, rest: seq<byte>)
    ensures a + b + c + d + rest == a + (b + (c + (d + rest)))
  {
  }

  lemma Nest7(a: seq<byte>, b: seq<byte>, c: seq<byte>, d: seq<byte>, e: seq<byte>, f: seq<byte>, g: seq<byte>, rest: seq<byte>)
    ensures a + b + c + d + e + f + g + rest == a + (b + (c + (d + (e + (f + (g + rest))))))
  {
    Nest4(a, b, c, d, e + f + g + rest);
    Nest4(a + b + c + d, e, f, g, rest);
    Nest4(e, f, g, rest, []);
    Nest4(a, b, c, d, e + (f + (g + rest)));
  }

  lemma CountBack(n: nat, rest: seq<byte>)
    requires n < 0x1_0000_0000
    ensures ReadU32(Count(n) + rest) == Got(n, rest)
  {
    U32Back(n, rest);
  }

  lemma PathBack(p: Path, maxPath: nat, rest: seq<byte>)
    requires ValidPath(p) && |Text(p)| < 0x1_0000_0000
    ensures ReadPath(WritePath(p) + rest, maxPath) == if |Text(p)| > maxPath then Bad(Limit) else Got(p, rest)
  {
    ParseText(p);
    TextBack(p, Text(p), maxPath, rest);
  }

  lemma TextBack(p: Path, text: seq<byte>, maxPath: nat, rest: seq<byte>)
    requires |text| < 0x1_0000_0000 && Parse(text) == Some(p)
    ensures ReadPath(Count(|text|) + text + rest, maxPath) == if |text| > maxPath then Bad(Limit) else Got(p, rest)
  {
    Nest(Count(|text|), text, rest);
    CountBack(|text|, text + rest);
    TakeBack(text, rest);
  }

  lemma CtimeBack(c: Option<i128>, rest: seq<byte>)
    ensures ReadCtime((if c.Some? then [1] + I128Bytes(c.value) else [0]) + rest) == Got(c, rest)
  {
    if c.Some? {
      Nest([1], I128Bytes(c.value), rest);
      ByteBack(1, I128Bytes(c.value) + rest);
      I128Back(c.value, rest);
    } else {
      ByteBack(0, rest);
    }
  }

  lemma StampBack(s: FileStamp, rest: seq<byte>)
    ensures ReadStamp(WriteStamp(s) + rest) == Got(s, rest)
  {
    var c := if s.ctime.Some? then [1] + I128Bytes(s.ctime.value) else [0];
    Nest7([KindTag(s.kind)], U64Bytes(s.size), U32Bytes(s.mode), I128Bytes(s.mtime), c,
          U64Bytes(s.id.high), U64Bytes(s.id.low), rest);
    var r6 := U64Bytes(s.id.low) + rest;
    var r5 := U64Bytes(s.id.high) + r6;
    var r4 := c + r5;
    var r3 := I128Bytes(s.mtime) + r4;
    var r2 := U32Bytes(s.mode) + r3;
    var r1 := U64Bytes(s.size) + r2;
    KindBack(s.kind, r1);
    U64Back(s.size, r2);
    U32Back(s.mode, r3);
    I128Back(s.mtime, r4);
    CtimeBack(s.ctime, r5);
    U64Back(s.id.high, r6);
    U64Back(s.id.low, rest);
  }

  /** What the decoder demands of a state. */
  predicate Decodable(s: NodeState, shifted: bool) {
    ReadableState(s, Movable(shifted))
  }

  predicate ReadableState(s: NodeState, movable: set<Kind>) {
    match s.content
    case NoContent => s.kind == Directory && s.size == 0
    case Blob(_) => s.kind != Directory
    case Stamp(stamp) => StampFits(s.kind, s.size, s.mode, stamp, movable)
  }

  lemma ContentBack(s: NodeState, movable: set<Kind>, rest: seq<byte>)
    requires ReadableState(s, movable)
    ensures ReadContent(WriteContent(s.content) + rest, s.kind, s.size, s.mode, movable) == Got(s.content, rest)
  {
    match s.content
    case NoContent => ByteBack(0, rest);
    case Blob(b) =>
      Nest([1], b, rest);
      ByteBack(1, b + rest);
      DigestBack(b, rest);
    case Stamp(stamp) =>
      Nest([2], WriteStamp(stamp), rest);
      ByteBack(2, WriteStamp(stamp) + rest);
      StampBack(stamp, rest);
  }

  lemma NodeStateBack(s: NodeState, movable: set<Kind>, rest: seq<byte>)
    requires ReadableState(s, movable)
    ensures ReadNodeState(WriteState(s) + rest, movable) == Got(s, rest)
  {
    Nest4([KindTag(s.kind)], U64Bytes(s.size), U32Bytes(s.mode), WriteContent(s.content), rest);
    var r3 := WriteContent(s.content) + rest;
    var r2 := U32Bytes(s.mode) + r3;
    KindBack(s.kind, U64Bytes(s.size) + r2);
    U64Back(s.size, r2);
    U32Back(s.mode, r3);
    ContentBack(s, movable, rest);
  }

  lemma StateBack(s: NodeState, shifted: bool, rest: seq<byte>)
    requires Decodable(s, shifted)
    ensures ReadState(WriteState(s) + rest, shifted) == Got(s, rest)
  {
    NodeStateBack(s, Movable(shifted), rest);
  }

  lemma OptionalBack(s: State, shifted: bool, rest: seq<byte>)
    requires s.Some? ==> Decodable(s.value, shifted)
    ensures ReadOptional(WriteOptional(s) + rest, shifted) == Got(s, rest)
  {
    if s.Some? {
      Nest([1], WriteState(s.value), rest);
      ByteBack(1, WriteState(s.value) + rest);
      StateBack(s.value, shifted, rest);
    } else {
      ByteBack(0, rest);
    }
  }

  /** What the decoder demands of an operation, its path length aside. */
  predicate DecodableOperation(op: Operation, shifted: bool) {
    && ValidPath(op.path) && |Text(op.path)| < 0x1_0000_0000
    && Decodable(StateOf(op), false)
    && match op
       case CreateDirectory(_, _) => true
       case SetDirectoryMode(_, _, _) => true
       case SetFileMode(_, expected, mode) => shifted && expected.kind == File && mode < 0x200
       case _ => op.slot < 0x1_0000_0000
  }

  lemma SlottedBack(op: Operation, rest: seq<byte>)
    requires op.Quarantine? || op.InstallFile? || op.InstallSymlink?
    requires Decodable(StateOf(op), false) && op.slot < 0x1_0000_0000
    ensures ReadSlotted(WriteState(StateOf(op)) + (Trailer(op) + rest), OperationTag(op), op.path) == Got(op, rest)
  {
    hide WriteState, Decodable, ReadState;
    StateBack(StateOf(op), false, Trailer(op) + rest);
    CountBack(op.slot, rest);
  }

  lemma ModeBack(op: Operation, rest: seq<byte>)
    requires op.IsMode() && Decodable(op.expected, false)
    requires op.SetFileMode? ==> op.expected.kind == File && op.afterMode < 0x200
    ensures ReadMode(WriteState(StateOf(op)) + (Trailer(op) + rest), OperationTag(op), op.path) == Got(op, rest)
  {
    hide WriteState, U32Bytes, ReadState;
    StateBack(StateOf(op), false, Trailer(op) + rest);
    U32Back(op.afterMode, rest);
  }

  lemma TaggedBack(op: Operation, shifted: bool, rest: seq<byte>)
    requires DecodableOperation(op, shifted)
    ensures ReadTagged(WriteState(StateOf(op)) + (Trailer(op) + rest), OperationTag(op), op.path, shifted) == Got(op, rest)
  {
    hide WriteState, Decodable, ReadState;
    if op.CreateDirectory? {
      assert [] + rest == rest;
      StateBack(op.after, false, rest);
    } else if op.IsMode() {
      ModeBack(op, rest);
    } else {
      SlottedBack(op, rest);
    }
  }

  lemma OperationBack(op: Operation, shifted: bool, maxPath: nat, rest: seq<byte>)
    requires DecodableOperation(op, shifted) && |Text(op.path)| <= maxPath
    ensures ReadOperation(WriteOperation(op) + rest, shifted, maxPath) == Got(op, rest)
  {
    var tail := WriteState(StateOf(op)) + (Trailer(op) + rest);
    Nest4([OperationTag(op)], WritePath(op.path), WriteState(StateOf(op)), Trailer(op), rest);
    ByteBack(OperationTag(op), WritePath(op.path) + tail);
    PathBack(op.path, maxPath, tail);
    TaggedBack(op, shifted, rest);
  }

  /** What the decoder demands of a final state, its path length aside. */
  predicate DecodableFinal(f: (Path, State), shifted: bool) {
    && ValidPath(f.0) && |Text(f.0)| < 0x1_0000_0000
    && (f.1.Some? ==> Decodable(f.1.value, shifted))
  }

  lemma FinalBack(f: (Path, State), shifted: bool, maxPath: nat, rest: seq<byte>)
    requires DecodableFinal(f, shifted)
    ensures ReadFinal(WriteFinal(f) + rest, shifted, maxPath) == if |Text(f.0)| > maxPath then Bad(Limit) else Got(f, rest)
  {
    Nest(WritePath(f.0), WriteOptional(f.1), rest);
    PathBack(f.0, maxPath, WriteOptional(f.1) + rest);
    OptionalBack(f.1, shifted, rest);
  }

  /** Reading undoes writing, element by element, whatever follows. */
  ghost predicate ReadsBack<T(!new)>(x: T, read: seq<byte> -> Parsed<T>, write: T -> seq<byte>) {
    forall rest: seq<byte> :: read(write(x) + rest) == Got(x, rest)
  }

  lemma {:induction false} AllBack<T(!new)>(xs: seq<T>, n: nat, rest: seq<byte>, read: seq<byte> -> Parsed<T>, write: T -> seq<byte>)
    requires n <= |xs| && forall i :: 0 <= i < n ==> ReadsBack(xs[i], read, write)
    ensures Many(n, WriteFirst(xs, n, write) + rest, read) == Got(xs[..n], rest)
  {
    if n == 0 {
      assert WriteFirst(xs, n, write) + rest == rest;
    } else {
      var last := xs[n - 1];
      AllBack(xs, n - 1, write(last) + rest, read, write);
      Nest(WriteFirst(xs, n - 1, write), write(last), rest);
      assert ReadsBack(last, read, write);
      assert xs[..n] == xs[..n - 1] + [last];
    }
  }

  /** The first element that cannot be read decides. */
  lemma {:induction false} FirstBadDecides<T(!new)>(xs: seq<T>, n: nat, k: nat, e: DecodeError, rest: seq<byte>,
                                                    read: seq<byte> -> Parsed<T>, write: T -> seq<byte>)
    requires k < n <= |xs| && (forall i :: 0 <= i < k ==> ReadsBack(xs[i], read, write))
    requires forall after: seq<byte> :: read(write(xs[k]) + after) == Bad(e)
    ensures Many(n, WriteFirst(xs, n, write) + rest, read) == Bad(e)
  {
    var last := xs[n - 1];
    Nest(WriteFirst(xs, n - 1, write), write(last), rest);
    if k < n - 1 {
      FirstBadDecides(xs, n - 1, k, e, write(last) + rest, read, write);
    } else {
      AllBack(xs, n - 1, write(last) + rest, read, write);
    }
  }

  lemma OperationsBack(ops: seq<Operation>, shifted: bool, maxPath: nat, rest: seq<byte>)
    requires forall i :: 0 <= i < |ops| ==> DecodableOperation(ops[i], shifted) && |Text(ops[i].path)| <= maxPath
    ensures Many(|ops|, WriteAll(ops, WriteOperation) + rest, OperationReader(shifted, maxPath)) == Got(ops, rest)
  {
    forall i | 0 <= i < |ops|
      ensures ReadsBack(ops[i], OperationReader(shifted, maxPath), WriteOperation)
    {
      forall after: seq<byte>
        ensures OperationReader(shifted, maxPath)(WriteOperation(ops[i]) + after) == Got(ops[i], after)
      {
        OperationBack(ops[i], shifted, maxPath, after);
      }
    }
    AllBack(ops, |ops|, rest, OperationReader(shifted, maxPath), WriteOperation);
    assert ops[..|ops|] == ops;
  }

  /** No final path is longer than recovery accepts. */
  predicate FinalPathsFit(finals: seq<(Path, State)>, maxPath: nat) {
    forall i :: 0 <= i < |finals| ==> |Text(finals[i].0)| <= maxPath
  }

  lemma FinalReadsBack(f: (Path, State), shifted: bool, maxPath: nat)
    requires DecodableFinal(f, shifted) && |Text(f.0)| <= maxPath
    ensures ReadsBack(f, FinalReader(shifted, maxPath), WriteFinal)
  {
    hide DecodableFinal, WriteFinal, ReadFinal;
    forall after: seq<byte>
      ensures FinalReader(shifted, maxPath)(WriteFinal(f) + after) == Got(f, after)
    {
      FinalBack(f, shifted, maxPath, after);
    }
  }

  lemma LongFinalRefused(f: (Path, State), shifted: bool, maxPath: nat, after: seq<byte>)
    requires DecodableFinal(f, shifted) && |Text(f.0)| > maxPath
    ensures FinalReader(shifted, maxPath)(WriteFinal(f) + after) == Bad(Limit)
  {
    hide DecodableFinal, WriteFinal, ReadFinal;
    FinalBack(f, shifted, maxPath, after);
  }

  lemma FinalsBack(finals: seq<(Path, State)>, shifted: bool, maxPath: nat, rest: seq<byte>)
    requires forall i :: 0 <= i < |finals| ==> DecodableFinal(finals[i], shifted)
    ensures Many(|finals|, WriteAll(finals, WriteFinal) + rest, FinalReader(shifted, maxPath))
            == if FinalPathsFit(finals, maxPath) then Got(finals, rest) else Bad(Limit)
  {
    hide DecodableFinal, WriteFinal, ReadFinal, Many, WriteFirst, ReadsBack, FinalReader;
    var read := FinalReader(shifted, maxPath);
    var k := |finals|;
    if !FinalPathsFit(finals, maxPath) {
      k := FirstLong(finals, maxPath);
    }
    forall i | 0 <= i < k
      ensures ReadsBack(finals[i], read, WriteFinal)
    {
      assert k < |finals| ==> finals[..k][i] == finals[i];
      FinalReadsBack(finals[i], shifted, maxPath);
    }
    if k == |finals| {
      AllBack(finals, |finals|, rest, read, WriteFinal);
      assert finals[..|finals|] == finals;
    } else {
      forall after: seq<byte>
        ensures read(WriteFinal(finals[k]) + after) == Bad(Limit)
      {
        LongFinalRefused(finals[k], shifted, maxPath, after);
      }
      FirstBadDecides(finals, |finals|, k, Limit, rest, read, WriteFinal);
    }
  }

  lemma {:induction false} FirstLong(finals: seq<(Path, State)>, maxPath: nat) returns (k: nat)
    requires !FinalPathsFit(finals, maxPath)
    ensures k < |finals| && |Text(finals[k].0)| > maxPath && FinalPathsFit(finals[..k], maxPath)
  {
    var init := finals[..|finals| - 1];
    if FinalPathsFit(init, maxPath) {
      k := |init|;
    } else {
      k := FirstLong(init, maxPath);
      assert init[..k] == finals[..k];
    }
  }

  /** Everything about a plan that its encoding can express and its decoder would accept. */
  ghost predicate Expressible(p: PreparedPlan) {
    && |p.operations| < 0x1_0000_0000 && |p.finalStates| < 0x1_0000_0000
    && (forall i :: 0 <= i < |p.operations| ==> DecodableOperation(p.operations[i], SetsFileMode(p.operations)))
    && (forall i :: 0 <= i < |p.finalStates| ==> DecodableFinal(p.finalStates[i], SetsFileMode(p.operations)))
  }

  /** The bounds that preparation enforces. */
  predicate OperationsFit(p: PreparedPlan, maxOperations: nat, maxPath: nat) {
    && |p.operations| <= maxOperations
    && forall i :: 0 <= i < |p.operations| ==> |Text(p.operations[i].path)| <= maxPath
  }

  /** The bounds that only decoding enforces. */
  predicate FinalStatesFit(p: PreparedPlan, maxOperations: nat, maxPath: nat) {
    |p.finalStates| <= maxOperations && FinalPathsFit(p.finalStates, maxPath)
  }

  lemma ListsBack(p: PreparedPlan, maxOperations: nat, maxPath: nat)
    requires Expressible(p) && OperationsFit(p, maxOperations, maxPath)
    ensures ReadLists(WriteLists(p), maxOperations, maxPath, SetsFileMode(p.operations))
            == if FinalStatesFit(p, maxOperations, maxPath) then Got((p.operations, p.finalStates), []) else Bad(Limit)
  {
    hide WriteAll, Many, Count, ReadU32;
    var shifted := SetsFileMode(p.operations);
    var ops, finals := WriteAll(p.operations, WriteOperation), WriteAll(p.finalStates, WriteFinal);
    var r2 := Count(|p.finalStates|) + (finals + []);
    var r1 := ops + r2;
    Nest4(Count(|p.operations|), ops, Count(|p.finalStates|), finals, []);
    assert WriteLists(p) == WriteLists(p) + [];
    CountBack(|p.operations|, r1);
    OperationsBack(p.operations, shifted, maxPath, r2);
    CountBack(|p.finalStates|, finals + []);
    FinalsBack(p.finalStates, shifted, maxPath, []);
  }

  lemma HeaderBack(p: PreparedPlan, maxOperations: nat, maxPath: nat, lists: seq<byte>)
    ensures var shifted := SetsFileMode(p.operations);
            ReadBody(MagicOf(shifted) + p.transaction + p.baseSnapshot + lists, maxOperations, maxPath)
            == match ReadLists(lists, maxOperations, maxPath, shifted)
               case Bad(e) => Bad(e)
               case Got(v, rest) => Got(PreparedPlan(p.transaction, p.baseSnapshot, v.0, v.1), rest)
  {
    var magic := MagicOf(SetsFileMode(p.operations));
    Nest(magic + p.transaction, p.baseSnapshot, lists);
    Nest(magic, p.transaction, p.baseSnapshot + lists);
    TakeBack(magic, p.transaction + (p.baseSnapshot + lists));
    assert PLAN_MAGIC[7] != PLAN_MAGIC_V2[7];
    DigestBack(p.transaction, p.baseSnapshot + lists);
    DigestBack(p.baseSnapshot, lists);
  }

  lemma BodyBack(p: PreparedPlan, maxOperations: nat, maxPath: nat)
    requires Expressible(p) && OperationsFit(p, maxOperations, maxPath)
    ensures ReadBody(Body(p), maxOperations, maxPath)
            == if FinalStatesFit(p, maxOperations, maxPath) then Got(p, []) else Bad(Limit)
  {
    ListsBack(p, maxOperations, maxPath);
    HeaderBack(p, maxOperations, maxPath, WriteLists(p));
  }

  /**
   A plan within the bounds that preparation checks is read back exactly when its final
   states are within those bounds too; otherwise recovery refuses it.
   */
  lemma RoundTrip(hash: Hash, p: PreparedPlan, maxOperations: nat, maxPath: nat)
    requires Expressible(p) && OperationsFit(p, maxOperations, maxPath)
    ensures Decode(hash, Sealed(hash, Body(p)), maxOperations, maxPath)
            == if FinalStatesFit(p, maxOperations, maxPath) then Ok(p) else Err(Limit)
  {
    var body := Body(p);
    var bytes := Sealed(hash, body);
    BodyBack(p, maxOperations, maxPath);
    assert bytes[..|bytes| - 32] == body && bytes[|bytes| - 32..] == hash(body);
    assert |body| >= 8;
  }

  // -------------------------------------------------------- encoder and reader

  predicate Short(p: Path) {
    |Text(p)| <= MAX_U32
  }

  predicate ShortPaths(p: PreparedPlan) {
    && (forall i :: 0 <= i < |p.operations| ==> Short(p.operations[i].path))
    && (forall i :: 0 <= i < |p.finalStates| ==> Short(p.finalStates[i].0))
  }

  /** Counts and path lengths fit their 32-bit fields. */
  predicate Encodable(p: PreparedPlan) {
    |p.operations| <= MAX_U32 && |p.finalStates| <= MAX_U32 && ShortPaths(p)
  }

  /** The first path too long for its length field, operations before final states. */
  method LongPath(p: PreparedPlan) returns (long: Option<Path>)
    ensures long.None? <==> ShortPaths(p)
  {
    for i := 0 to |p.operations|
      invariant forall j :: 0 <= j < i ==> Short(p.operations[j].path)
    {
      if |Text(p.operations[i].path)| > MAX_U32 {
        return Some(p.operations[i].path);
      }
    }
    for i := 0 to |p.finalStates|
      invariant forall j :: 0 <= j < i ==> Short(p.finalStates[j].0)
    {
      if |Text(p.finalStates[i].0)| > MAX_U32 {
        return Some(p.finalStates[i].0);
      }
    }
    return None;
  }

  method EncodeOperations(ops: seq<Operation>) returns (output: seq<byte>)
    ensures output == WriteAll(ops, WriteOperation)
  {
    output := [];
    for i := 0 to |ops|
      invariant output == WriteFirst(ops, i, WriteOperation)
    {
      output := output + WriteOperation(ops[i]);
    }
  }

  method EncodeFinals(finals: seq<(Path, State)>) returns (output: seq<byte>)
    ensures output == WriteAll(finals, WriteFinal)
  {
    output := [];
    for i := 0 to |finals|
      invariant output == WriteFirst(finals, i, WriteFinal)
    {
      output := output + WriteFinal(finals[i]);
    }
  }

  method Encode(hash: Hash, p: PreparedPlan) returns (r: Result<seq<byte>, PlanError>)
    ensures r.Ok? <==> Encodable(p)
    ensures r.Ok? ==> r.value == Sealed(hash, Body(p))
  {
    if |p.operations| > MAX_U32 || |p.finalStates| > MAX_U32 {
      return Err(OperationCountOverflow);
    }
    var long := LongPath(p);
    if long.Some? {
      return Err(PathTooLong(long.value));
    }
    var operations := EncodeOperations(p.operations);
    var finals := EncodeFinals(p.finalStates);
    var output := MagicOf(SetsFileMode(p.operations)) + p.transaction + p.baseSnapshot;
    output := output + (Count(|p.operations|) + operations + Count(|p.finalStates|) + finals);
    return Ok(output + hash(output));
  }

  /** A cursor over the payload. */
  class Reader {
    const bytes: seq<byte>
    var offset: nat

    ghost predicate Valid()
      reads this
    {
      offset <= |bytes|
    }

    ghost function Rest(): seq<byte>
      reads this
      requires Valid()
    {
      bytes[offset..]
    }

    /** The outcome of a read, and where it left the cursor. */
    ghost predicate Follows<T>(r: Result<T, DecodeError>, expected: Parsed<T>)
      reads this
    {
      && Valid()
      && match expected
         case Bad(e) => r == Err(e)
         case Got(v, rest) => r == Ok(v) && Rest() == rest
    }

    constructor (bytes: seq<byte>)
      ensures Valid() && Rest() == bytes
    {
      this.bytes := bytes;
      offset := 0;
    }

    method Take(n: nat) returns (r: Result<seq<byte>, DecodeError>)
      requires Valid()
      modifies this
      ensures Follows(r, ReadBytes(old(Rest()), n))
    {
      if |bytes| < offset + n {
        return Err(Truncated);
      }
      assert Rest()[..n] == bytes[offset..offset + n] && Rest()[n..] == bytes[offset + n..];
      r := Ok(bytes[offset..offset + n]);
      offset := offset + n;
    }

    method U8() returns (r: Result<byte, DecodeError>)
      requires Valid()
      modifies this
      ensures Follows(r, ReadByte(old(Rest())))
    {
      var b :- Take(1);
      return Ok(b[0]);
    }

    method U32() returns (r: Result<u32, DecodeError>)
      requires Valid()
      modifies this
      ensures Follows(r, ReadU32(old(Rest())))
    {
      var b :- Take(4);
      return Ok(U32From(b));
    }

    method U64() returns (r: Result<u64, DecodeError>)
      requires Valid()
      modifies this
      ensures Follows(r, ReadU64(old(Rest())))
    {
      var b :- Take(8);
      return Ok(U64From(b));
    }

    method I128() returns (r: Result<i128, DecodeError>)
      requires Valid()
      modifies this
      ensures Follows(r, ReadI128(old(Rest())))
    {
      var b :- Take(16);
      return Ok(I128From(b));
    }

    method Array32() returns (r: Result<Digest, DecodeError>)
      requires Valid()
      modifies this
      ensures Follows(r, ReadDigest(old(Rest())))
    {
      var b :- Take(32);
      var d: Digest := b;
      return Ok(d);
    }

    method DecodePath(maxPath: nat) returns (r: Result<Path, DecodeError>)
      requires Valid()
      modifies this
      ensures Follows(r, ReadPath(old(Rest()), maxPath))
    {
      var length :- U32();
      if length > maxPath {
        return Err(Limit);
      }
      var text :- Take(length);
      match Parse(text)
      case None => return Err(BadPath);
      case Some(p) => return Ok(p);
    }

    method DecodeKind() returns (r: Result<Kind, DecodeError>)
      requires Valid()
      modifies this
      ensures Follows(r, ReadKind(old(Rest())))
    {
      var tag :- U8();
      match tag
      case 1 => return Ok(File);
      case 2 => return Ok(Directory);
      case 3 => return Ok(Symlink);
      case _ => return Err(Tag);
    }

    method DecodeCtime() returns (r: Result<Option<i128>, DecodeError>)
      requires Valid()
      modifies this
      ensures Follows(r, ReadCtime(old(Rest())))
    {
      var tag :- U8();
      if tag == 0 {
        return Ok(None);
      } else if tag == 1 {
        var c :- I128();
        return Ok(Some(c));
      }
      return Err(Tag);
    }

    method DecodeStamp() returns (r: Result<FileStamp, DecodeError>)
      requires Valid()
      modifies this
      ensures Follows(r, ReadStamp(old(Rest())))
    {
      var kind :- DecodeKind();
      var size :- U64();
      var mode :- U32();
      var mtime :- I128();
      var ctime :- DecodeCtime();
      var high :- U64();
      var low :- U64();
      return Ok(FileStamp(kind, size, mode, mtime, ctime, FileId(high, low)));
    }

    method DecodeContent(kind: Kind, size: u64, mode: u32, shifted: bool) returns (r: Result<Content, DecodeError>)
      requires Valid()
      modifies this
      ensures Follows(r, ReadContent(old(Rest()), kind, size, mode, Movable(shifted)))
    {
      var tag :- U8();
      if tag == 0 && kind == Directory && size == 0 {
        return Ok(NoContent);
      } else if tag == 1 {
        var blob :- Array32();
        return if kind == Directory then Err(State) else Ok(Blob(blob));
      } else if tag == 2 {
        var stamp :- DecodeStamp();
        return if StampFits(kind, size, mode, stamp, Movable(shifted)) then Ok(Stamp(stamp)) else Err(State);
      }
      return Err(State);
    }

    method DecodeState(shifted: bool) returns (r: Result<NodeState, DecodeError>)
      requires Valid()
      modifies this
      ensures Follows(r, ReadState(old(Rest()), shifted))
    {
      var kind :- DecodeKind();
      var size :- U64();
      var mode :- U32();
      var content :- DecodeContent(kind, size, mode, shifted);
      return Ok(NodeState(kind, size, mode, content));
    }

    method DecodeOptional(shifted: bool) returns (r: Result<State, DecodeError>)
      requires Valid()
      modifies this
      ensures Follows(r, ReadOptional(old(Rest()), shifted))
    {
      var tag :- U8();
      if tag == 0 {
        return Ok(None);
      } else if tag == 1 {
        var state :- DecodeState(shifted);
        return Ok(Some(state));
      }
      return Err(Tag);
    }

    method DecodeSlotted(tag: byte, path: Path) returns (r: Result<Operation, DecodeError>)
      requires Valid() && tag in {1, 3, 4}
      modifies this
      ensures Follows(r, ReadSlotted(old(Rest()), tag, path))
    {
      var state :- DecodeState(false);
      var slot :- U32();
      return Ok(if tag == 1 then Quarantine(path, state, slot)
                else if tag == 3 then InstallFile(path, state, slot)
                else InstallSymlink(path, state, slot));
    }

    method DecodeMode(tag: byte, path: Path) returns (r: Result<Operation, DecodeError>)
      requires Valid() && tag in {5, 6}
      modifies this
      ensures Follows(r, ReadMode(old(Rest()), tag, path))
    {
      var state :- DecodeState(false);
      var mode :- U32();
      if tag == 5 {
        return Ok(SetDirectoryMode(path, state, mode));
      }
      if state.kind != File || mode >= 0x200 {
        return Err(Tag);
      }
      return Ok(SetFileMode(path, state, mode));
    }

    method DecodeFlagged(tag: byte, path: Path, shifted: bool) returns (r: Result<Operation, DecodeError>)
      requires Valid() && tag in {5, 6}
      modifies this
      ensures Follows(r, ReadFlagged(old(Rest()), tag, path, shifted))
    {
      var op :- DecodeMode(tag, path);
      return if op.SetFileMode? && !shifted then Err(Tag) else Ok(op);
    }

    method DecodeCreate(path: Path) returns (r: Result<Operation, DecodeError>)
      requires Valid()
      modifies this
      ensures Follows(r, ReadCreate(old(Rest()), path))
    {
      var state :- DecodeState(false);
      return Ok(CreateDirectory(path, state));
    }

    method DecodeTagged(tag: byte, path: Path, shifted: bool) returns (r: Result<Operation, DecodeError>)
      requires Valid()
      modifies this
      ensures Follows(r, ReadTagged(old(Rest()), tag, path, shifted))
    {
      if tag in {1, 3, 4} {
        r := DecodeSlotted(tag, path);
      } else if tag == 2 {
        r := DecodeCreate(path);
      } else if tag in {5, 6} {
        r := DecodeFlagged(tag, path, shifted);
      } else {
        r := Err(Tag);
      }
    }

    method DecodeOperation(shifted: bool, maxPath: nat) returns (r: Result<Operation, DecodeError>)
      requires Valid()
      modifies this
      ensures Follows(r, ReadOperation(old(Rest()), shifted, maxPath))
    {
      var tag :- U8();
      var path :- DecodePath(maxPath);
      r := DecodeTagged(tag, path, shifted);
    }

    method DecodeOperations(maximum: nat, shifted: bool, maxPath: nat) returns (r: Result<seq<Operation>, DecodeError>)
      requires Valid()
      modifies this
      ensures Follows(r, Bounded(old(Rest()), maximum, OperationReader(shifted, maxPath)))
    {
      var count :- U32();
      if count > maximum {
        return Err(Limit);
      }
      ghost var start, read := Rest(), OperationReader(shifted, maxPath);
      var ops: seq<Operation> := [];
      for i := 0 to count
        invariant Valid() && Many(i, start, read) == Got(ops, Rest())
      {
        ManyFails(i + 1, count, start, read);
        var op :- DecodeOperation(shifted, maxPath);
        ops := ops + [op];
      }
      return Ok(ops);
    }

    method DecodeFinals(maximum: nat, shifted: bool, maxPath: nat)
      returns (r: Result<seq<(Path, State)>, DecodeError>)
      requires Valid()
      modifies this
      ensures Follows(r, Bounded(old(Rest()), maximum, FinalReader(shifted, maxPath)))
    {
      var count :- U32();
      if count > maximum {
        return Err(Limit);
      }
      ghost var start, read := Rest(), FinalReader(shifted, maxPath);
      var finals: seq<(Path, State)> := [];
      for i := 0 to count
        invariant Valid() && Many(i, start, read) == Got(finals, Rest())
      {
        ManyFails(i + 1, count, start, read);
        var path :- DecodePath(maxPath);
        var state :- DecodeOptional(shifted);
        finals := finals + [(path, state)];
      }
      return Ok(finals);
    }
  }

  /** Once an element cannot be read, the list cannot. */
  lemma {:induction false} ManyFails<T>(i: nat, n: nat, s: seq<byte>, read: seq<byte> -> Parsed<T>)
    requires i <= n
    ensures Many(i, s, read).Bad? ==> Many(n, s, read) == Many(i, s, read)
  {
    if i < n {
      ManyFails(i, n - 1, s, read);
    }
  }

  method DecodePlan(hash: Hash, bytes: seq<byte>, maxOperations: nat, maxPath: nat)
    returns (r: Result<PreparedPlan, DecodeError>)
    ensures r == Decode(hash, bytes, maxOperations, maxPath)
  {
    if |bytes| < 40 {
      return Err(Truncated);
    }
    var payload, checksum := bytes[..|bytes| - 32], bytes[|bytes| - 32..];
    if hash(payload) != checksum {
      return Err(Checksum);
    }
    var reader := new Reader(payload);
    var head := reader.Take(8);
    var magic := head.value;
    if magic != PLAN_MAGIC && magic != PLAN_MAGIC_V2 {
      return Err(Magic);
    }
    var shifted := magic == PLAN_MAGIC_V2;
    var transaction :- reader.Array32();
    var snapshot :- reader.Array32();
    var operations :- reader.DecodeOperations(maxOperations, shifted, maxPath);
    var finals :- reader.DecodeFinals(maxOperations, shifted, maxPath);
    if reader.offset != |reader.bytes| {
      return Err(TrailingBytes);
    }
    return Ok(PreparedPlan(transaction, snapshot, operations, finals));
  }
}
