/**
 What the plan decoder accepts, whatever the bytes: the encoding of the plan it answers with, in
 one of the two formats, within the bounds, behind it the digest of all that came before.
 */
module AcceptedPlan {
  import opened Types
  import opened ByteCodec
  import opened Paths
  import opened Planning
  import opened OperationLog
  import opened PlanCodec

  // ------------------------------------------------------------------- fields

  lemma ByteWritten(s: seq<byte>)
    requires ReadByte(s).Got?
    ensures s == [ReadByte(s).value] + ReadByte(s).rest
  {
  }

  lemma ReadU32Written(s: seq<byte>)
    requires ReadU32(s).Got?
    ensures s == U32Bytes(ReadU32(s).value) + ReadU32(s).rest
  {
    U32Written(s[..4]);
  }

  lemma ReadU64Written(s: seq<byte>)
    requires ReadU64(s).Got?
    ensures s == U64Bytes(ReadU64(s).value) + ReadU64(s).rest
  {
    U64Written(s[..8]);
  }

  lemma ReadI128Written(s: seq<byte>)
    requires ReadI128(s).Got?
    ensures s == I128Bytes(ReadI128(s).value) + ReadI128(s).rest
  {
    I128Written(s[..16]);
  }

  lemma KindWritten(s: seq<byte>)
    requires ReadKind(s).Got?
    ensures s == [KindTag(ReadKind(s).value)] + ReadKind(s).rest
  {
    ByteWritten(s);
  }

  lemma PathWritten(s: seq<byte>, maxPath: nat)
    requires ReadPath(s, maxPath).Got?
    ensures var p := ReadPath(s, maxPath).value;
            && s == WritePath(p) + ReadPath(s, maxPath).rest
            && ValidPath(p) && |Text(p)| <= maxPath && |Text(p)| < 0x1_0000_0000
  {
    hide U32Bytes, Parse, Text;
    ReadU32Written(s);
    var (length, r) := (ReadU32(s).value, ReadU32(s).rest);
    var text := ReadBytes(r, length).value;
    ParsedText(text);
    Nest(U32Bytes(length), text, ReadBytes(r, length).rest);
  }

  lemma CtimeWritten(s: seq<byte>)
    requires ReadCtime(s).Got?
    ensures var c := ReadCtime(s).value;
            s == (if c.Some? then [1] + I128Bytes(c.value) else [0]) + ReadCtime(s).rest
  {
    hide I128Bytes, ReadI128;
    ByteWritten(s);
    if ReadByte(s).value == 1 {
      ReadI128Written(ReadByte(s).rest);
      Nest([1], I128Bytes(ReadCtime(s).value.value), ReadCtime(s).rest);
    }
  }

  lemma StampWritten(s: seq<byte>)
    requires ReadStamp(s).Got?
    ensures s == WriteStamp(ReadStamp(s).value) + ReadStamp(s).rest
  {
    hide ReadKind, ReadU64, ReadU32, ReadI128, ReadCtime, U64Bytes, U32Bytes, I128Bytes;
    var s1 := ReadKind(s).rest;
    var s2 := ReadU64(s1).rest;
    var s3 := ReadU32(s2).rest;
    var s4 := ReadI128(s3).rest;
    var s5 := ReadCtime(s4).rest;
    var s6 := ReadU64(s5).rest;
    KindWritten(s);
    ReadU64Written(s1);
    ReadU32Written(s2);
    ReadI128Written(s3);
    CtimeWritten(s4);
    ReadU64Written(s5);
    ReadU64Written(s6);
    var st := ReadStamp(s).value;
    var c := if st.ctime.Some? then [1] + I128Bytes(st.ctime.value) else [0];
    Nest7([KindTag(st.kind)], U64Bytes(st.size), U32Bytes(st.mode), I128Bytes(st.mtime), c,
          U64Bytes(st.id.high), U64Bytes(st.id.low), ReadStamp(s).rest);
  }

  /**
   A state as it may stand in a file: a plain directory, a file or link with a blob, or anything
   with a stamp that says the same; a stamp of one of the given kinds may have another mode, and
   then the state has permission bits alone.
   */
  predicate Stated(s: NodeState, movable: set<Kind>) {
    match s.content
    case NoContent => s.kind == Directory && s.size == 0
    case Blob(_) => s.kind == File || s.kind == Symlink
    case Stamp(t) => t.kind == s.kind && t.size == s.size && (t.mode == s.mode || (s.kind in movable && s.mode < 512))
  }

  /** In a plan these are the files, where file modes are planned. */
  predicate PlanStated(s: NodeState, shifted: bool) {
    Stated(s, if shifted then {File} else {})
  }

  lemma ContentWritten(s: seq<byte>, kind: Kind, size: u64, mode: u32, movable: set<Kind>)
    requires ReadContent(s, kind, size, mode, movable).Got?
    ensures var p := ReadContent(s, kind, size, mode, movable);
            s == WriteContent(p.value) + p.rest && Stated(NodeState(kind, size, mode, p.value), movable)
  {
    hide ReadStamp, WriteStamp;
    ByteWritten(s);
    var p, tag, r := ReadContent(s, kind, size, mode, movable), ReadByte(s).value, ReadByte(s).rest;
    if tag == 1 {
      Nest([1], p.value.blob, p.rest);
    } else if tag == 2 {
      StampWritten(r);
      Nest([2], WriteStamp(p.value.stamp), p.rest);
    }
  }

  lemma NodeStateWritten(s: seq<byte>, movable: set<Kind>)
    requires ReadNodeState(s, movable).Got?
    ensures var p := ReadNodeState(s, movable); s == WriteState(p.value) + p.rest && Stated(p.value, movable)
  {
    hide ReadKind, ReadU64, ReadU32, ReadContent, U64Bytes, U32Bytes, WriteContent, Stated;
    var p := ReadNodeState(s, movable);
    var s1 := ReadKind(s).rest;
    var s2 := ReadU64(s1).rest;
    var s3 := ReadU32(s2).rest;
    KindWritten(s);
    ReadU64Written(s1);
    ReadU32Written(s2);
    ContentWritten(s3, ReadKind(s).value, ReadU64(s1).value, ReadU32(s2).value, movable);
    Nest4([KindTag(p.value.kind)], U64Bytes(p.value.size), U32Bytes(p.value.mode), WriteContent(p.value.content), p.rest);
  }

  lemma StateWritten(s: seq<byte>, shifted: bool)
    requires ReadState(s, shifted).Got?
    ensures var p := ReadState(s, shifted); s == WriteState(p.value) + p.rest && PlanStated(p.value, shifted)
  {
    hide ReadNodeState, WriteState, Stated;
    NodeStateWritten(s, Movable(shifted));
  }

  lemma OptionalWritten(s: seq<byte>, shifted: bool)
    requires ReadOptional(s, shifted).Got?
    ensures var p := ReadOptional(s, shifted);
            s == WriteOptional(p.value) + p.rest && (p.value.Some? ==> PlanStated(p.value.value, shifted))
  {
    hide ReadState, WriteState, PlanStated;
    ByteWritten(s);
    if ReadByte(s).value == 1 {
      StateWritten(ReadByte(s).rest, shifted);
      Nest([1], WriteState(ReadOptional(s, shifted).value.value), ReadOptional(s, shifted).rest);
    }
  }

  // --------------------------------------------------------------- operations

  /** An operation as it may stand in a plan of either format. */
  predicate Ordered(op: Operation, shifted: bool, maxPath: nat) {
    && ValidPath(op.path) && |Text(op.path)| <= maxPath && |Text(op.path)| < 0x1_0000_0000 && PlanStated(StateOf(op), false)
    && (op.Quarantine? || op.InstallFile? || op.InstallSymlink? ==> op.slot < 0x1_0000_0000)
    && (op.SetFileMode? ==> shifted && op.expected.kind == File && op.afterMode < 512)
  }

  lemma TaggedWritten(s: seq<byte>, tag: byte, path: Path, shifted: bool)
    requires ReadTagged(s, tag, path, shifted).Got?
    ensures var p := ReadTagged(s, tag, path, shifted);
            && OperationTag(p.value) == tag && p.value.path == path
            && s == WriteState(StateOf(p.value)) + (Trailer(p.value) + p.rest)
            && PlanStated(StateOf(p.value), false)
            && (p.value.Quarantine? || p.value.InstallFile? || p.value.InstallSymlink? ==> p.value.slot < 0x1_0000_0000)
            && (p.value.SetFileMode? ==> shifted && p.value.expected.kind == File && p.value.afterMode < 512)
  {
    hide ReadState, ReadU32, WriteState, U32Bytes, PlanStated;
    StateWritten(s, false);
    var p := ReadTagged(s, tag, path, shifted);
    if tag == 2 {
      assert [] + p.rest == p.rest;
    } else {
      ReadU32Written(ReadState(s, false).rest);
    }
  }

  lemma OperationWritten(s: seq<byte>, shifted: bool, maxPath: nat)
    requires ReadOperation(s, shifted, maxPath).Got?
    ensures var p := ReadOperation(s, shifted, maxPath);
            s == WriteOperation(p.value) + p.rest && Ordered(p.value, shifted, maxPath)
  {
    hide ReadPath, ReadTagged, WritePath, WriteState, Trailer, PlanStated, ValidPath, Text;
    ByteWritten(s);
    var op, rest := ReadOperation(s, shifted, maxPath).value, ReadOperation(s, shifted, maxPath).rest;
    PathWritten(ReadByte(s).rest, maxPath);
    TaggedWritten(ReadPath(ReadByte(s).rest, maxPath).rest, ReadByte(s).value, ReadPath(ReadByte(s).rest, maxPath).value, shifted);
    Nest4([OperationTag(op)], WritePath(op.path), WriteState(StateOf(op)), Trailer(op), rest);
  }

  /** A final state as it may stand in a plan. */
  predicate Ended(f: (Path, State), shifted: bool, maxPath: nat) {
    && ValidPath(f.0) && |Text(f.0)| <= maxPath && |Text(f.0)| < 0x1_0000_0000
    && (f.1.Some? ==> PlanStated(f.1.value, shifted))
  }

  lemma FinalWritten(s: seq<byte>, shifted: bool, maxPath: nat)
    requires ReadFinal(s, shifted, maxPath).Got?
    ensures var p := ReadFinal(s, shifted, maxPath);
            s == WriteFinal(p.value) + p.rest && Ended(p.value, shifted, maxPath)
  {
    hide ReadPath, ReadOptional, WritePath, WriteOptional, PlanStated, ValidPath, Text;
    var f, rest := ReadFinal(s, shifted, maxPath).value, ReadFinal(s, shifted, maxPath).rest;
    PathWritten(s, maxPath);
    OptionalWritten(ReadPath(s, maxPath).rest, shifted);
    Nest(WritePath(f.0), WriteOptional(f.1), rest);
  }

  // -------------------------------------------------------------------- lists

  /** Whatever is read is the writing of what was read, and has the property. */
  ghost predicate Inverts<T(!new)>(read: seq<byte> -> Parsed<T>, write: T -> seq<byte>, good: T -> bool) {
    forall s: seq<byte> :: read(s).Got? ==> s == write(read(s).value) + read(s).rest && good(read(s).value)
  }

  lemma {:induction false} ManyWritten<T(!new)>(n: nat, s: seq<byte>, read: seq<byte> -> Parsed<T>, write: T -> seq<byte>, good: T -> bool)
    requires Inverts(read, write, good) && Many(n, s, read).Got?
    ensures var p := Many(n, s, read);
            && |p.value| == n && s == WriteFirst(p.value, n, write) + p.rest
            && forall x :: x in p.value ==> good(x)
  {
    if n == 0 {
      assert [] + s == s;
    } else {
      var p, init := Many(n, s, read), Many(n - 1, s, read);
      ManyWritten(n - 1, s, read, write, good);
      assert read(init.rest).Got?;
      SameFirst(init.value, p.value, n - 1, write);
      Nest(WriteFirst(p.value, n - 1, write), write(p.value[n - 1]), p.rest);
    }
  }

  lemma {:induction false} SameFirst<T>(xs: seq<T>, ys: seq<T>, n: nat, write: T -> seq<byte>)
    requires n <= |xs| && xs <= ys
    ensures WriteFirst(xs, n, write) == WriteFirst(ys, n, write)
  {
    if n > 0 {
      SameFirst(xs, ys, n - 1, write);
    }
  }

  lemma BoundedWritten<T(!new)>(s: seq<byte>, maximum: nat, read: seq<byte> -> Parsed<T>, write: T -> seq<byte>, good: T -> bool)
    requires Inverts(read, write, good) && Bounded(s, maximum, read).Got?
    ensures var p := Bounded(s, maximum, read);
            && |p.value| <= maximum && |p.value| < 0x1_0000_0000
            && s == Count(|p.value|) + WriteAll(p.value, write) + p.rest
            && forall x :: x in p.value ==> good(x)
  {
    hide Many, ReadU32, U32Bytes, WriteFirst;
    ReadU32Written(s);
    ManyWritten(ReadU32(s).value, ReadU32(s).rest, read, write, good);
    var p := Bounded(s, maximum, read);
    Nest(Count(|p.value|), WriteAll(p.value, write), p.rest);
  }

  /** The bytes encode this plan, in the given format, within these bounds. */
  ghost predicate IsPlan(hash: Hash, shifted: bool, p: PreparedPlan, maxOperations: nat, maxPath: nat, bytes: seq<byte>) {
    && bytes == Sealed(hash, MagicOf(shifted) + p.transaction + p.baseSnapshot + WriteLists(p))
    && |p.operations| <= maxOperations && |p.operations| < 0x1_0000_0000
    && |p.finalStates| <= maxOperations && |p.finalStates| < 0x1_0000_0000
    && (forall op :: op in p.operations ==> Ordered(op, shifted, maxPath))
    && (forall f :: f in p.finalStates ==> Ended(f, shifted, maxPath))
  }

  lemma ListsWritten(s: seq<byte>, maxOperations: nat, maxPath: nat, shifted: bool, p: PreparedPlan)
    requires ReadLists(s, maxOperations, maxPath, shifted) == Got((p.operations, p.finalStates), [])
    ensures s == WriteLists(p)
    ensures |p.operations| <= maxOperations && |p.operations| < 0x1_0000_0000
    ensures |p.finalStates| <= maxOperations && |p.finalStates| < 0x1_0000_0000
    ensures forall op :: op in p.operations ==> Ordered(op, shifted, maxPath)
    ensures forall f :: f in p.finalStates ==> Ended(f, shifted, maxPath)
  {
    hide Bounded, Ordered, Ended, Count, WriteAll;
    var goodOp: Operation -> bool := op => Ordered(op, shifted, maxPath);
    var goodFinal: ((Path, State)) -> bool := f => Ended(f, shifted, maxPath);
    OperationsInvert(shifted, maxPath, goodOp);
    FinalsInvert(shifted, maxPath, goodFinal);
    BoundedWritten(s, maxOperations, OperationReader(shifted, maxPath), WriteOperation, goodOp);
    var r := Bounded(s, maxOperations, OperationReader(shifted, maxPath)).rest;
    BoundedWritten(r, maxOperations, FinalReader(shifted, maxPath), WriteFinal, goodFinal);
    assert r == r + [];
    assert WriteLists(p) + [] == WriteLists(p);
    Nest(Count(|p.operations|) + WriteAll(p.operations, WriteOperation),
         Count(|p.finalStates|), WriteAll(p.finalStates, WriteFinal));
  }

  lemma OperationsInvert(shifted: bool, maxPath: nat, good: Operation -> bool)
    requires forall op :: good(op) == Ordered(op, shifted, maxPath)
    ensures Inverts(OperationReader(shifted, maxPath), WriteOperation, good)
  {
    hide ReadOperation, WriteOperation, Ordered;
    forall s: seq<byte> | OperationReader(shifted, maxPath)(s).Got?
      ensures var p := OperationReader(shifted, maxPath)(s); s == WriteOperation(p.value) + p.rest && good(p.value)
    {
      OperationWritten(s, shifted, maxPath);
    }
  }

  lemma FinalsInvert(shifted: bool, maxPath: nat, good: ((Path, State)) -> bool)
    requires forall f :: good(f) == Ended(f, shifted, maxPath)
    ensures Inverts(FinalReader(shifted, maxPath), WriteFinal, good)
  {
    hide ReadFinal, WriteFinal, Ended;
    forall s: seq<byte> | FinalReader(shifted, maxPath)(s).Got?
      ensures var p := FinalReader(shifted, maxPath)(s); s == WriteFinal(p.value) + p.rest && good(p.value)
    {
      FinalWritten(s, shifted, maxPath);
    }
  }

  /** Whatever bytes the decoder accepts encode the plan it answers with, digest and bounds included. */
  lemma AcceptedIsPlan(hash: Hash, bytes: seq<byte>, maxOperations: nat, maxPath: nat) returns (shifted: bool)
    requires Decode(hash, bytes, maxOperations, maxPath).Ok?
    ensures IsPlan(hash, shifted, Decode(hash, bytes, maxOperations, maxPath).value, maxOperations, maxPath, bytes)
  {
    hide ReadLists, WriteLists, Ordered, Ended, ReadU32;
    var p, body := Decode(hash, bytes, maxOperations, maxPath).value, bytes[..|bytes| - 32];
    assert bytes == body + bytes[|bytes| - 32..];
    shifted := body[..8] == PLAN_MAGIC_V2;
    var lists := body[8..][32..][32..];
    ListsWritten(lists, maxOperations, maxPath, shifted, p);
    assert body == MagicOf(shifted) + p.transaction + p.baseSnapshot + lists;
  }

  lemma StatedIsDecodable(s: NodeState, shifted: bool)
    requires PlanStated(s, shifted)
    ensures Decodable(s, shifted)
  {
  }

  /** And it accepts every such encoding, in either format. */
  lemma PlanIsAccepted(hash: Hash, shifted: bool, p: PreparedPlan, maxOperations: nat, maxPath: nat, bytes: seq<byte>)
    requires IsPlan(hash, shifted, p, maxOperations, maxPath, bytes)
    ensures Decode(hash, bytes, maxOperations, maxPath) == Ok(p)
  {
    hide WriteLists, ReadLists;
    var body := MagicOf(shifted) + p.transaction + p.baseSnapshot + WriteLists(p);
    assert bytes[..|bytes| - 32] == body && bytes[|bytes| - 32..] == hash(body);
    Nest4(MagicOf(shifted), p.transaction, p.baseSnapshot, WriteLists(p), []);
    assert WriteLists(p) + [] == WriteLists(p) && body + [] == body;
    TakeBack(MagicOf(shifted), p.transaction + (p.baseSnapshot + WriteLists(p)));
    DigestBack(p.transaction, p.baseSnapshot + WriteLists(p));
    DigestBack(p.baseSnapshot, WriteLists(p));
    ListsAccepted(p, shifted, maxOperations, maxPath);
    assert MagicOf(shifted) == PLAN_MAGIC_V2 <==> shifted by {
      assert PLAN_MAGIC[7] != PLAN_MAGIC_V2[7];
    }
  }

  lemma ListsAccepted(p: PreparedPlan, shifted: bool, maxOperations: nat, maxPath: nat)
    requires |p.operations| <= maxOperations && |p.operations| < 0x1_0000_0000
    requires |p.finalStates| <= maxOperations && |p.finalStates| < 0x1_0000_0000
    requires forall op :: op in p.operations ==> Ordered(op, shifted, maxPath)
    requires forall f :: f in p.finalStates ==> Ended(f, shifted, maxPath)
    ensures ReadLists(WriteLists(p), maxOperations, maxPath, shifted) == Got((p.operations, p.finalStates), [])
  {
    hide WriteAll, Many, Count, ReadU32, PlanStated;
    var ops, finals := WriteAll(p.operations, WriteOperation), WriteAll(p.finalStates, WriteFinal);
    var r2 := Count(|p.finalStates|) + (finals + []);
    Nest4(Count(|p.operations|), ops, Count(|p.finalStates|), finals, []);
    assert WriteLists(p) == WriteLists(p) + [];
    CountBack(|p.operations|, ops + r2);
    forall i | 0 <= i < |p.operations|
      ensures DecodableOperation(p.operations[i], shifted) && |Text(p.operations[i].path)| <= maxPath
    {
      assert p.operations[i] in p.operations;
      StatedIsDecodable(StateOf(p.operations[i]), false);
    }
    OperationsBack(p.operations, shifted, maxPath, r2);
    CountBack(|p.finalStates|, finals + []);
    forall i | 0 <= i < |p.finalStates|
      ensures DecodableFinal(p.finalStates[i], shifted) && |Text(p.finalStates[i].0)| <= maxPath
    {
      assert p.finalStates[i] in p.finalStates;
      if p.finalStates[i].1.Some? {
        StatedIsDecodable(p.finalStates[i].1.value, shifted);
      }
    }
    FinalsBack(p.finalStates, shifted, maxPath, []);
  }
}
