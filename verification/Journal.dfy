/**
 The operation journal: a checksummed append-only log of intents and completions, and the
 reader that recovery trusts after a crash tore its tail.
 */
module OperationLog {
  import opened Types
  import opened ByteCodec

  /** The record checksum. Nothing is assumed of it but its length. */
  type Hash = seq<byte> -> Digest

  const MAX_RECORD_PAYLOAD := 128

  /** "VSHLOG01" and "VSHLOG02"; only the second admits metadata completions. */
  const MAGIC: seq<byte> := [86, 83, 72, 76, 79, 71, 48, 49]
  const MAGIC_V2: seq<byte> := [86, 83, 72, 76, 79, 71, 48, 50]

  function Magic(metadata: bool): (m: seq<byte>)
    ensures |m| == 8
  {
    if metadata then MAGIC_V2 else MAGIC
  }

  datatype JournalError = BadMagic | RecordLength | BadChecksum | BadSequence | BadTag

  // ----------------------------------------------------------------- writing

  function KindTag(k: Kind): byte {
    match k
    case File => 1
    case Directory => 2
    case Symlink => 3
  }

  function WitnessBytes(w: Witness): (b: seq<byte>)
    ensures |b| == 17
  {
    [KindTag(w.kind)] + U64Bytes(w.id.high) + U64Bytes(w.id.low)
  }

  function Payload(r: Record): (b: seq<byte>)
    ensures r.Intent? ==> |b| == if r.source.Some? then 40 else 23
    ensures r.Completed? ==> |b| == 22
    ensures r.MetadataCompleted? ==> |b| == if r.stamp.ctime.Some? then 67 else 51
  {
    match r
    case Intent(index, source, parent) =>
      (if source.Some?
       then [1] + U32Bytes(index) + [3] + WitnessBytes(source.value)
       else [1] + U32Bytes(index) + [2]) + WitnessBytes(parent)
    case Completed(index, owner) =>
      [2] + U32Bytes(index) + WitnessBytes(owner)
    case MetadataCompleted(index, s) =>
      [3] + U32Bytes(index) + WitnessBytes(WitnessOf(s)) + U64Bytes(s.size) + U32Bytes(s.mode) + I128Bytes(s.mtime)
      + (if s.ctime.Some? then [1] + I128Bytes(s.ctime.value) else [0])
  }

  function Frame(hash: Hash, payload: seq<byte>): (b: seq<byte>)
    requires |payload| < 0x1_0000_0000
    ensures |b| == 36 + |payload|
  {
    U32Bytes(|payload|) + payload + hash(payload)
  }

  function Frames(hash: Hash, rs: seq<Record>): seq<byte> {
    if rs == [] then [] else Frames(hash, rs[..|rs| - 1]) + Frame(hash, Payload(rs[|rs| - 1]))
  }

  /** The whole log of a transaction that wrote `rs`. */
  function Log(hash: Hash, metadata: bool, rs: seq<Record>): seq<byte> {
    Magic(metadata) + Frames(hash, rs)
  }

  // ----------------------------------------------------------------- reading

  /** The reader's progress: what it learned and the index it expects next. */
  datatype Reading = Reading(state: JournalState, next: u32)

  const UNREAD := Reading(JournalState(map[], map[], map[], None, false), 0)

  function WitnessAt(payload: seq<byte>, offset: nat): Result<Witness, JournalError> {
    if |payload| < offset + 17 then Err(RecordLength)
    else
      var bytes := payload[offset..offset + 17];
      var id := FileId(U64From(bytes[1..9]), U64From(bytes[9..17]));
      match bytes[0]
      case 1 => Ok(Witness(File, id))
      case 2 => Ok(Witness(Directory, id))
      case 3 => Ok(Witness(Symlink, id))
      case _ => Err(BadTag)
  }

  /** Current intents name the parent; the flag byte says whether a source precedes it. */
  function CurrentIntent(payload: seq<byte>): Result<IntentWitnesses, JournalError>
    requires |payload| >= 6
  {
    if payload[5] == 2 then
      match WitnessAt(payload, 6)
      case Err(e) => Err(e)
      case Ok(parent) => if |payload| != 23 then Err(RecordLength) else Ok(IntentWitnesses(None, Some(parent)))
    else if payload[5] == 3 then
      match WitnessAt(payload, 6)
      case Err(e) => Err(e)
      case Ok(source) =>
        match WitnessAt(payload, 23)
        case Err(e) => Err(e)
        case Ok(parent) => if |payload| != 40 then Err(RecordLength) else Ok(IntentWitnesses(Some(source), Some(parent)))
    else Err(BadTag)
  }

  /** Two older lengths are still read: no witness at all, or a source alone. */
  function IntentAt(payload: seq<byte>): Result<IntentWitnesses, JournalError>
    requires |payload| >= 5
  {
    if |payload| == 5 then Ok(IntentWitnesses(None, None))
    else if |payload| == 22 then
      match WitnessAt(payload, 5)
      case Err(e) => Err(e)
      case Ok(source) => Ok(IntentWitnesses(Some(source), None))
    else CurrentIntent(payload)
  }

  function StampAt(payload: seq<byte>): Result<FileStamp, JournalError>
    requires |payload| == 51 || |payload| == 67
  {
    match WitnessAt(payload, 5)
    case Err(e) => Err(e)
    case Ok(w) =>
      if w.kind != File || payload[50] != (if |payload| == 51 then 0 else 1) then Err(BadTag)
      else Ok(FileStamp(
        w.kind, U64From(payload[22..30]), U32From(payload[30..34]), I128From(payload[34..50]),
        if |payload| == 51 then None else Some(I128From(payload[51..67])), w.id))
  }

  function Began(r: Reading, index: u32, w: IntentWitnesses): Reading {
    r.(state := r.state.(intents := r.state.intents[index := w], pending := Some(index)))
  }

  function Finished(r: Reading, index: u32, w: Witness, stamp: Option<FileStamp>): Result<Reading, JournalError> {
    if r.next == 0xffff_ffff then Err(BadSequence)
    else Ok(Reading(
      r.state.(
        completed := r.state.completed[index := w],
        metadata := if stamp.Some? then r.state.metadata[index := stamp.value] else r.state.metadata,
        pending := None),
      r.next + 1))
  }

  /** Take one intact payload, or refuse the journal. */
  function Consume(payload: seq<byte>, metadata: bool, r: Reading): Result<Reading, JournalError> {
    if |payload| < 5 then Err(BadTag)
    else
      var index := U32From(payload[1..5]);
      if payload[0] == 1 && |payload| in {5, 22, 23, 40} then
        if r.state.pending.Some? || index != r.next then Err(BadSequence)
        else match IntentAt(payload)
          case Err(e) => Err(e)
          case Ok(w) => Ok(Began(r, index, w))
      else if payload[0] == 2 && |payload| == 22 then
        if r.state.pending != Some(index) || index != r.next then Err(BadSequence)
        else match WitnessAt(payload, 5)
          case Err(e) => Err(e)
          case Ok(w) => Finished(r, index, w, None)
      else if payload[0] == 3 && metadata && |payload| in {51, 67} then
        if r.state.pending != Some(index) || index != r.next then Err(BadSequence)
        else match StampAt(payload)
          case Err(e) => Err(e)
          case Ok(stamp) => Finished(r, index, WitnessOf(stamp), Some(stamp))
      else Err(BadTag)
  }

  /** The meaning of the bytes after the magic. */
  function ReadFrom(hash: Hash, metadata: bool, bytes: seq<byte>, r: Reading): Result<JournalState, JournalError>
    decreases |bytes|
  {
    if bytes == [] then Ok(r.state)
    else if |bytes| < 4 then Ok(r.state.(tornTail := true))
    else
      var length := U32From(bytes[..4]);
      if length > MAX_RECORD_PAYLOAD then Err(RecordLength)
      else if |bytes| < 36 + length then Ok(r.state.(tornTail := true))
      else if hash(bytes[4..4 + length]) != bytes[4 + length..36 + length] then Err(BadChecksum)
      else match Consume(bytes[4..4 + length], metadata, r)
        case Err(e) => Err(e)
        case Ok(r') => ReadFrom(hash, metadata, bytes[36 + length..], r')
  }

  function ReadLog(hash: Hash, maximum: nat, bytes: seq<byte>): Result<JournalState, JournalError> {
    if |bytes| > maximum then Err(RecordLength)
    else if |bytes| < 8 || (bytes[..8] != MAGIC && bytes[..8] != MAGIC_V2) then Err(BadMagic)
    else ReadFrom(hash, bytes[..8] == MAGIC_V2, bytes[8..], UNREAD)
  }

  /** One pass over the journal file. */
  method ReadJournal(hash: Hash, maximum: nat, bytes: seq<byte>) returns (result: Result<JournalState, JournalError>)
    ensures result == ReadLog(hash, maximum, bytes)
  {
    hide Consume, U32From;
    if |bytes| > maximum {
      return Err(RecordLength);
    }
    if |bytes| < 8 || (bytes[..8] != MAGIC && bytes[..8] != MAGIC_V2) {
      return Err(BadMagic);
    }
    var metadata := bytes[..8] == MAGIC_V2;
    var offset, reading := 8, UNREAD;
    while offset < |bytes|
      invariant 8 <= offset <= |bytes|
      invariant ReadFrom(hash, metadata, bytes[offset..], reading) == ReadLog(hash, maximum, bytes)
    {
      ghost var rest := bytes[offset..];
      if |bytes| < offset + 4 {
        return Ok(reading.state.(tornTail := true));
      }
      var length := U32From(bytes[offset..offset + 4]);
      assert rest[..4] == bytes[offset..offset + 4];
      if length > MAX_RECORD_PAYLOAD {
        return Err(RecordLength);
      }
      var payloadEnd, checksumEnd := offset + 4 + length, offset + 36 + length;
      if |bytes| < payloadEnd || |bytes| < checksumEnd {
        return Ok(reading.state.(tornTail := true));
      }
      var payload := bytes[offset + 4..payloadEnd];
      assert rest[4..4 + length] == payload;
      assert rest[4 + length..36 + length] == bytes[payloadEnd..checksumEnd];
      assert rest[36 + length..] == bytes[checksumEnd..];
      if hash(payload) != bytes[payloadEnd..checksumEnd] {
        return Err(BadChecksum);
      }
      match Consume(payload, metadata, reading) {
        case Err(e) => return Err(e);
        case Ok(next) => reading := next;
      }
      offset := checksumEnd;
    }
    return Ok(reading.state);
  }

  // ------------------------------------------------- what an accepted journal is

  /** Completions are 0..n, intents 0..n or one more, metadata belongs to completed files. */
  ghost predicate Sequential(s: JournalState, n: u32, metadata: bool) {
    && (forall i: u32 :: i in s.completed <==> i < n)
    && (s.pending == None || s.pending == Some(n))
    && (forall i: u32 :: i in s.intents <==> i < n || (s.pending.Some? && i == n))
    && (forall i: u32 :: i in s.metadata ==>
          metadata && i in s.completed && s.metadata[i].kind == File && s.completed[i] == WitnessOf(s.metadata[i]))
  }

  lemma ConsumeKeepsSequence(payload: seq<byte>, metadata: bool, r: Reading)
    requires Sequential(r.state, r.next, metadata) && Consume(payload, metadata, r).Ok?
    ensures var r' := Consume(payload, metadata, r).value;
            && Sequential(r'.state, r'.next, metadata) && r'.state.tornTail == r.state.tornTail
            && r.next <= r'.next <= r.next + 1
  {
  }

  lemma {:induction false} ReadKeepsSequence(hash: Hash, metadata: bool, bytes: seq<byte>, r: Reading)
    requires Sequential(r.state, r.next, metadata) && ReadFrom(hash, metadata, bytes, r).Ok?
    ensures exists n: u32 :: Sequential(ReadFrom(hash, metadata, bytes, r).value, n, metadata)
    decreases |bytes|
  {
    if bytes == [] {
      assert Sequential(r.state, r.next, metadata);
    } else if |bytes| < 4 || |bytes| < 36 + U32From(bytes[..4]) {
      assert Sequential(r.state.(tornTail := true), r.next, metadata);
    } else {
      var length := U32From(bytes[..4]);
      var payload := bytes[4..4 + length];
      ConsumeKeepsSequence(payload, metadata, r);
      ReadKeepsSequence(hash, metadata, bytes[36 + length..], Consume(payload, metadata, r).value);
    }
  }

  /** Whatever the bytes are, an accepted journal is a sequential one. */
  lemma AcceptedIsSequential(hash: Hash, maximum: nat, bytes: seq<byte>)
    requires ReadLog(hash, maximum, bytes).Ok?
    ensures var metadata := bytes[..8] == MAGIC_V2;
            exists n: u32 :: Sequential(ReadLog(hash, maximum, bytes).value, n, metadata)
  {
    ReadKeepsSequence(hash, bytes[..8] == MAGIC_V2, bytes[8..], UNREAD);
  }

  // -------------------------------------------------- reading what was written

  /** May the record be written next? */
  predicate Fits(r: Reading, x: Record, metadata: bool) {
    && x.index == r.next
    && match x
       case Intent(_, _, _) => r.state.pending.None?
       case Completed(index, _) => r.state.pending == Some(index) && index < 0xffff_ffff
       case MetadataCompleted(index, stamp) =>
         metadata && stamp.kind == File && r.state.pending == Some(index) && index < 0xffff_ffff
  }

  /** What a record means to the reader. */
  function Take(r: Reading, x: Record): Reading
  {
    match x
    case Intent(index, source, parent) => Began(r, index, IntentWitnesses(source, Some(parent)))
    case Completed(index, owner) =>
      if r.next == 0xffff_ffff then r else Finished(r, index, owner, None).value
    case MetadataCompleted(index, stamp) =>
      if r.next == 0xffff_ffff then r else Finished(r, index, WitnessOf(stamp), Some(stamp)).value
  }

  function Replay(rs: seq<Record>): Reading {
    if rs == [] then UNREAD else Take(Replay(rs[..|rs| - 1]), rs[|rs| - 1])
  }

  /** The records alternate as one transaction writes them. */
  predicate WellSequenced(rs: seq<Record>, metadata: bool) {
    rs == []
    || (WellSequenced(rs[..|rs| - 1], metadata) && Fits(Replay(rs[..|rs| - 1]), rs[|rs| - 1], metadata))
  }

  lemma WitnessReadsBack(payload: seq<byte>, offset: nat, w: Witness)
    requires offset + 17 <= |payload| && payload[offset..offset + 17] == WitnessBytes(w)
    ensures WitnessAt(payload, offset) == Ok(w)
  {
    WitnessLayout(KindTag(w.kind), U64Bytes(w.id.high), U64Bytes(w.id.low));
    IntegersReadBack(0, w.id.high, 0);
    IntegersReadBack(0, w.id.low, 0);
  }

  lemma WitnessLayout(tag: byte, high: seq<byte>, low: seq<byte>)
    requires |high| == |low| == 8
    ensures var w := [tag] + high + low;
            w[0] == tag && w[1..9] == high && w[9..17] == low
  {
  }

  lemma IntentLayout(index: seq<byte>, flags: byte, source: seq<byte>, parent: seq<byte>)
    requires |index| == 4 && |parent| == 17
    ensures var p := [1] + index + [flags] + source + parent;
            && p[0] == 1 && p[1..5] == index && p[5] == flags
            && p[6..6 + |source|] == source && p[6 + |source|..23 + |source|] == parent
  {
  }

  lemma IntentReadsBack(index: u32, source: Option<Witness>, parent: Witness)
    ensures var payload := Payload(Intent(index, source, parent));
            && payload[0] == 1 && U32From(payload[1..5]) == index
            && IntentAt(payload) == Ok(IntentWitnesses(source, Some(parent)))
  {
    hide WitnessBytes, U32Bytes, WitnessAt;
    var payload := Payload(Intent(index, source, parent));
    IntegersReadBack(index, 0, 0);
    if source.Some? {
      IntentLayout(U32Bytes(index), 3, WitnessBytes(source.value), WitnessBytes(parent));
      WitnessReadsBack(payload, 6, source.value);
      WitnessReadsBack(payload, 23, parent);
    } else {
      IntentLayout(U32Bytes(index), 2, [], WitnessBytes(parent));
      assert [1] + U32Bytes(index) + [2] + [] == [1] + U32Bytes(index) + [2];
      WitnessReadsBack(payload, 6, parent);
    }
  }

  lemma CompletionLayout(tag: byte, index: seq<byte>, owner: seq<byte>)
    requires |index| == 4 && |owner| == 17
    ensures var p := [tag] + index + owner;
            p[0] == tag && p[1..5] == index && p[5..22] == owner
  {
  }

  lemma CompletionReadsBack(index: u32, owner: Witness)
    ensures var payload := Payload(Completed(index, owner));
            && payload[0] == 2 && U32From(payload[1..5]) == index && WitnessAt(payload, 5) == Ok(owner)
  {
    IntegersReadBack(index, 0, 0);
    CompletionLayout(2, U32Bytes(index), WitnessBytes(owner));
    WitnessReadsBack(Payload(Completed(index, owner)), 5, owner);
  }

  lemma StampLayout(index: seq<byte>, owner: seq<byte>, size: seq<byte>, mode: seq<byte>, mtime: seq<byte>, tail: seq<byte>)
    requires |index| == 4 && |owner| == 17 && |size| == 8 && |mode| == 4 && |mtime| == 16
    ensures var p := [3] + index + owner + size + mode + mtime + tail;
            && p[0] == 3 && p[1..5] == index && p[5..22] == owner && p[22..30] == size
            && p[30..34] == mode && p[34..50] == mtime && p[50..] == tail
  {
  }

  lemma StampReadsBack(index: u32, s: FileStamp)
    requires s.kind == File
    ensures var payload := Payload(MetadataCompleted(index, s));
            && payload[0] == 3 && U32From(payload[1..5]) == index && StampAt(payload) == Ok(s)
  {
    var payload := Payload(MetadataCompleted(index, s));
    var tail := if s.ctime.Some? then [1] + I128Bytes(s.ctime.value) else [0];
    StampLayout(U32Bytes(index), WitnessBytes(WitnessOf(s)), U64Bytes(s.size), U32Bytes(s.mode), I128Bytes(s.mtime), tail);
    WitnessReadsBack(payload, 5, WitnessOf(s));
    IntegersReadBack(index, s.size, s.mtime);
    IntegersReadBack(s.mode, 0, if s.ctime.Some? then s.ctime.value else 0);
    assert payload[50] == tail[0];
    if s.ctime.Some? {
      assert payload[51..67] == tail[1..];
    }
  }

  /** The reader takes every record the writer may write, and takes it for what it is. */
  lemma RecordReadsBack(r: Reading, x: Record, metadata: bool)
    requires Fits(r, x, metadata)
    ensures |Payload(x)| <= MAX_RECORD_PAYLOAD
    ensures Consume(Payload(x), metadata, r) == Ok(Take(r, x))
  {
    match x
    case Intent(index, source, parent) => IntentReadsBack(index, source, parent);
    case Completed(index, owner) => CompletionReadsBack(index, owner);
    case MetadataCompleted(index, stamp) => StampReadsBack(index, stamp);
  }

  lemma FrameLayout(length: seq<byte>, payload: seq<byte>, sum: seq<byte>, rest: seq<byte>)
    requires |length| == 4 && |sum| == 32
    ensures var b, n := length + payload + sum + rest, |payload|;
            b[..4] == length && b[4..4 + n] == payload && b[4 + n..36 + n] == sum && b[36 + n..] == rest
  {
  }

  lemma FrameReadsBack(hash: Hash, metadata: bool, r: Reading, x: Record, rest: seq<byte>)
    requires Fits(r, x, metadata)
    ensures ReadFrom(hash, metadata, Frame(hash, Payload(x)) + rest, r) == ReadFrom(hash, metadata, rest, Take(r, x))
  {
    hide Payload, Take, Fits, Consume, U32Bytes, U32From;
    RecordReadsBack(r, x, metadata);
    var payload := Payload(x);
    IntegersReadBack(|payload|, 0, 0);
    FrameLayout(U32Bytes(|payload|), payload, hash(payload), rest);
  }

  lemma CutLayout(length: seq<byte>, rest: seq<byte>, cut: nat)
    requires |length| == 4 <= cut <= |length + rest|
    ensures (length + rest)[..cut][..4] == length
  {
  }

  /** A frame cut anywhere short of its end reads as a torn tail, and as nothing else. */
  lemma TornFrame(hash: Hash, metadata: bool, r: Reading, x: Record, cut: nat)
    requires Fits(r, x, metadata) && cut < |Frame(hash, Payload(x))|
    ensures ReadFrom(hash, metadata, Frame(hash, Payload(x))[..cut], r)
         == Ok(if cut == 0 then r.state else r.state.(tornTail := true))
  {
    RecordReadsBack(r, x, metadata);
    Nest(U32Bytes(|Payload(x)|), Payload(x), hash(Payload(x)));
    TornBytes(hash, metadata, r, |Payload(x)|, Payload(x) + hash(Payload(x)), cut);
  }

  lemma TornBytes(hash: Hash, metadata: bool, r: Reading, length: nat, rest: seq<byte>, cut: nat)
    requires length <= MAX_RECORD_PAYLOAD && |rest| == length + 32 && cut < 4 + |rest|
    ensures ReadFrom(hash, metadata, (U32Bytes(length) + rest)[..cut], r)
         == Ok(if cut == 0 then r.state else r.state.(tornTail := true))
  {
    if cut >= 4 {
      IntegersReadBack(length, 0, 0);
      CutLayout(U32Bytes(length), rest, cut);
    }
  }

  lemma {:induction false} FramesReadBack(hash: Hash, metadata: bool, rs: seq<Record>, rest: seq<byte>)
    requires WellSequenced(rs, metadata)
    ensures ReadFrom(hash, metadata, Frames(hash, rs) + rest, UNREAD) == ReadFrom(hash, metadata, rest, Replay(rs))
  {
    if rs == [] {
      assert Frames(hash, rs) + rest == rest;
    } else {
      var init, last := rs[..|rs| - 1], rs[|rs| - 1];
      var frame := Frame(hash, Payload(last));
      FrameReadsBack(hash, metadata, Replay(init), last, rest);
      FramesReadBack(hash, metadata, init, frame + rest);
      Nest(Frames(hash, init), frame, rest);
    }
  }

  lemma {:induction false} PrefixWellSequenced(rs: seq<Record>, metadata: bool, j: nat)
    requires WellSequenced(rs, metadata) && j <= |rs|
    ensures WellSequenced(rs[..j], metadata)
    ensures j < |rs| ==> Fits(Replay(rs[..j]), rs[j], metadata)
  {
    if j == |rs| {
      assert rs[..j] == rs;
    } else if j < |rs| - 1 {
      PrefixWellSequenced(rs[..|rs| - 1], metadata, j);
      assert rs[..|rs| - 1][..j] == rs[..j];
    }
  }

  /** The longest run of whole frames that fits into the first `room` bytes. */
  function Whole(hash: Hash, rs: seq<Record>, room: nat): (j: nat)
    ensures j <= |rs|
  {
    if rs == [] || |Frames(hash, rs)| <= room then |rs| else Whole(hash, rs[..|rs| - 1], room)
  }

  lemma {:induction false} WholeFrames(hash: Hash, rs: seq<Record>, room: nat)
    ensures var j := Whole(hash, rs, room);
            && |Frames(hash, rs[..j])| <= room
            && (j < |rs| ==> room < |Frames(hash, rs[..j + 1])|)
  {
    hide Frame, Payload;
    if rs == [] || |Frames(hash, rs)| <= room {
      assert rs[..|rs|] == rs;
    } else {
      var init, j := rs[..|rs| - 1], Whole(hash, rs, room);
      WholeFrames(hash, init, room);
      assert rs[..j] == init[..j];
      if j < |init| {
        assert rs[..j + 1] == init[..j + 1];
      } else {
        assert rs[..j + 1] == rs;
      }
    }
  }

  lemma {:induction false} FramesPrefix(hash: Hash, rs: seq<Record>, j: nat)
    requires j <= |rs|
    ensures Frames(hash, rs[..j]) <= Frames(hash, rs)
  {
    if j == |rs| {
      assert rs[..j] == rs;
    } else {
      FramesPrefix(hash, rs[..|rs| - 1], j);
      assert rs[..|rs| - 1][..j] == rs[..j];
    }
  }

  /** A log of which only the first `room` bytes after the magic reached the disk. */
  function CutLog(hash: Hash, metadata: bool, rs: seq<Record>, room: nat): seq<byte>
    requires room <= |Frames(hash, rs)|
  {
    Magic(metadata) + Frames(hash, rs)[..room]
  }

  /** The reader tells the formats apart by the magic. */
  lemma MagicReadsBack(hash: Hash, metadata: bool, bytes: seq<byte>, maximum: nat)
    requires 8 + |bytes| <= maximum
    ensures ReadLog(hash, maximum, Magic(metadata) + bytes) == ReadFrom(hash, metadata, bytes, UNREAD)
  {
    var log := Magic(metadata) + bytes;
    assert log[..8] == Magic(metadata) && log[8..] == bytes;
    assert MAGIC[7] != MAGIC_V2[7];
  }

  /** What the cut frames read as when j of them are whole. */
  ghost predicate ReadsAs(hash: Hash, metadata: bool, rs: seq<Record>, room: nat, j: nat)
    requires j <= |rs| && room <= |Frames(hash, rs)|
  {
    var state := Replay(rs[..j]).state;
    var torn := room > |Frames(hash, rs[..j])|;
    ReadFrom(hash, metadata, Frames(hash, rs)[..room], UNREAD) == Ok(state.(tornTail := torn))
  }

  lemma FramesNext(hash: Hash, rs: seq<Record>, j: nat)
    requires j < |rs|
    ensures Frames(hash, rs[..j + 1]) == Frames(hash, rs[..j]) + Frame(hash, Payload(rs[j]))
  {
    hide Frame, Payload;
    var next := rs[..j + 1];
    assert next[..j] == rs[..j] && next[j] == rs[j];
  }

  /** The bytes of a log cut inside, or right before, the frame of record j. */
  lemma InsideBytes(hash: Hash, rs: seq<Record>, room: nat, j: nat)
    requires j < |rs| && |Frames(hash, rs[..j])| <= room < |Frames(hash, rs[..j + 1])|
    ensures room <= |Frames(hash, rs)|
    ensures room - |Frames(hash, rs[..j])| < |Frame(hash, Payload(rs[j]))|
    ensures Frames(hash, rs)[..room]
            == Frames(hash, rs[..j]) + Frame(hash, Payload(rs[j]))[..room - |Frames(hash, rs[..j])|]
  {
    hide Frames, Frame, Payload;
    FramesNext(hash, rs, j);
    FramesPrefix(hash, rs, j + 1);
    PrefixCut(Frames(hash, rs), Frames(hash, rs[..j + 1]), Frames(hash, rs[..j]), Frame(hash, Payload(rs[j])), room);
  }

  lemma CutInside(hash: Hash, metadata: bool, rs: seq<Record>, room: nat, j: nat)
    requires WellSequenced(rs, metadata) && j < |rs| && room <= |Frames(hash, rs)|
    requires |Frames(hash, rs[..j])| <= room < |Frames(hash, rs[..j + 1])|
    ensures ReadsAs(hash, metadata, rs, room, j)
  {
    hide Frames, Frame, Payload, Replay, WellSequenced, ReadFrom, Fits;
    PrefixWellSequenced(rs, metadata, j);
    NeverTorn(rs[..j]);
    InsideBytes(hash, rs, room, j);
    var frame, cut := Frame(hash, Payload(rs[j])), room - |Frames(hash, rs[..j])|;
    FramesReadBack(hash, metadata, rs[..j], frame[..cut]);
    TornFrame(hash, metadata, Replay(rs[..j]), rs[j], cut);
  }

  lemma PrefixCut(all: seq<byte>, next: seq<byte>, whole: seq<byte>, frame: seq<byte>, room: nat)
    requires next == whole + frame && next <= all && |whole| <= room < |whole| + |frame|
    ensures room <= |all| && room - |whole| < |frame|
    ensures all[..room] == whole + frame[..room - |whole|]
  {
    assert all[..room] == next[..room];
  }

  lemma CutNowhere(hash: Hash, metadata: bool, rs: seq<Record>)
    requires WellSequenced(rs, metadata)
    ensures ReadsAs(hash, metadata, rs, |Frames(hash, rs)|, |rs|)
  {
    var frames := Frames(hash, rs);
    NeverTorn(rs);
    FramesReadBack(hash, metadata, rs, []);
    assert rs[..|rs|] == rs;
    assert frames[..|frames|] == frames + [];
  }

  lemma CutReadsBack(hash: Hash, metadata: bool, rs: seq<Record>, room: nat)
    requires WellSequenced(rs, metadata) && room <= |Frames(hash, rs)|
    ensures ReadsAs(hash, metadata, rs, room, Whole(hash, rs, room))
  {
    hide ReadsAs, Frames, Frame, Payload, Replay, WellSequenced, ReadFrom, Whole;
    var j := Whole(hash, rs, room);
    WholeFrames(hash, rs, room);
    if j < |rs| {
      CutInside(hash, metadata, rs, room, j);
    } else {
      assert rs[..j] == rs;
      CutNowhere(hash, metadata, rs);
    }
  }

  /**
   Cut a transaction's log anywhere after its magic: the reader recovers exactly the records
   whose frames survived whole, and reports a torn tail exactly when bytes are left over.
   */
  lemma TornTail(hash: Hash, metadata: bool, rs: seq<Record>, maximum: nat, room: nat)
    requires WellSequenced(rs, metadata) && room <= |Frames(hash, rs)| && 8 + room <= maximum
    ensures var j := Whole(hash, rs, room);
            && |Frames(hash, rs[..j])| <= room
            && (j < |rs| ==> room < |Frames(hash, rs[..j + 1])|)
            && ReadLog(hash, maximum, CutLog(hash, metadata, rs, room))
               == Ok(Replay(rs[..j]).state.(tornTail := room > |Frames(hash, rs[..j])|))
  {
    WholeFrames(hash, rs, room);
    CutReadsBack(hash, metadata, rs, room);
    MagicReadsBack(hash, metadata, Frames(hash, rs)[..room], maximum);
  }

  lemma {:induction false} NeverTorn(rs: seq<Record>)
    ensures !Replay(rs).state.tornTail
  {
    if rs != [] {
      NeverTorn(rs[..|rs| - 1]);
    }
  }

  // ------------------------------------------------------- one transaction's log

  /** Records come in pairs: the intent of operation i, then its completion. */
  ghost predicate Paired(rs: seq<Record>, metadata: bool) {
    && |rs| < 0x1_ffff_ffff
    && (forall k :: 0 <= k < |rs| ==>
          && rs[k].index == k / 2
          && (k % 2 == 0 <==> rs[k].Intent?)
          && (rs[k].MetadataCompleted? ==> metadata && rs[k].stamp.kind == File))
  }

  lemma PairedInit(rs: seq<Record>, metadata: bool)
    requires Paired(rs, metadata) && rs != []
    ensures var init, last := rs[..|rs| - 1], rs[|rs| - 1];
            && Paired(init, metadata) && rs == init + [last]
            && last.index == |init| / 2 && (|init| % 2 == 0 <==> last.Intent?)
            && (last.MetadataCompleted? ==> metadata && last.stamp.kind == File)
  {
  }

  /** What the reader knows after the pairs: record 2i is intent i, record 2i + 1 completion i. */
  ghost predicate Learned(rs: seq<Record>, s: JournalState) {
    && (forall i: u32 :: i in s.intents <==> 2 * i < |rs|)
    && (forall i: u32 :: i in s.completed <==> 2 * i + 1 < |rs|)
    && (forall i: u32 :: 2 * i < |rs| && rs[2 * i].Intent? ==>
          s.intents[i] == IntentWitnesses(rs[2 * i].source, Some(rs[2 * i].parent)))
    && (forall i: u32 :: 2 * i + 1 < |rs| ==> LearnedCompletion(rs[2 * i + 1], s, i))
    && (forall i: u32 :: i in s.metadata ==> 2 * i + 1 < |rs| && rs[2 * i + 1].MetadataCompleted?)
  }

  ghost predicate LearnedCompletion(x: Record, s: JournalState, i: u32) {
    match x
    case Intent(_, _, _) => false
    case Completed(_, owner) => i in s.completed && s.completed[i] == owner
    case MetadataCompleted(_, stamp) =>
      i in s.completed && s.completed[i] == WitnessOf(stamp) && i in s.metadata && s.metadata[i] == stamp
  }

  lemma LearnsIntent(init: seq<Record>, last: Record)
    requires last.Intent? && last.index == |init| / 2 && |init| % 2 == 0 && Learned(init, Replay(init).state)
    ensures Learned(init + [last], Take(Replay(init), last).state)
  {
    hide Replay;
    var rs, s, s' := init + [last], Replay(init).state, Take(Replay(init), last).state;
    assert s'.completed == s.completed && s'.metadata == s.metadata;
    assert |rs| == |init| + 1;
    forall i: u32 | 2 * i + 1 < |rs|
      ensures LearnedCompletion(rs[2 * i + 1], s', i)
    {
      assert rs[2 * i + 1] == init[2 * i + 1];
      assert LearnedCompletion(init[2 * i + 1], s, i);
    }
  }

  lemma CompletionKept(x: Record, s: JournalState, s': JournalState, i: u32)
    requires LearnedCompletion(x, s, i) && i in s'.completed && s'.completed[i] == s.completed[i]
    requires i in s.metadata ==> i in s'.metadata && s'.metadata[i] == s.metadata[i]
    ensures LearnedCompletion(x, s', i)
  {
  }

  lemma LearnsCompletion(init: seq<Record>, last: Record)
    requires !last.Intent? && last.index == |init| / 2 < 0xffff_ffff && |init| % 2 == 1 && Learned(init, Replay(init).state)
    requires Replay(init).next == |init| / 2
    ensures Learned(init + [last], Take(Replay(init), last).state)
  {
    hide Replay;
    var s, s' := Replay(init).state, Take(Replay(init), last).state;
    forall i: u32 | 2 * i + 1 < |init + [last]|
      ensures LearnedCompletion((init + [last])[2 * i + 1], s', i)
    {
      if 2 * i + 1 < |init| {
        assert (init + [last])[2 * i + 1] == init[2 * i + 1];
        CompletionKept(init[2 * i + 1], s, s', i);
      }
    }
  }

  /** Paired records are what the reader accepts, and it learns exactly their contents. */
  lemma {:induction false} PairedIsSequenced(rs: seq<Record>, metadata: bool)
    requires Paired(rs, metadata)
    ensures WellSequenced(rs, metadata)
    ensures Replay(rs).next == |rs| / 2
    ensures Replay(rs).state.pending == if |rs| % 2 == 0 then None else Some(|rs| / 2)
    ensures Learned(rs, Replay(rs).state)
  {
    if rs != [] {
      var init, last := rs[..|rs| - 1], rs[|rs| - 1];
      PairedInit(rs, metadata);
      PairedIsSequenced(init, metadata);
      assert Fits(Replay(init), last, metadata);
      if last.Intent? {
        LearnsIntent(init, last);
      } else {
        LearnsCompletion(init, last);
      }
    }
  }

  lemma FramesAppend(hash: Hash, rs: seq<Record>, x: Record)
    ensures Frames(hash, rs + [x]) == Frames(hash, rs) + Frame(hash, Payload(x))
  {
    assert (rs + [x])[..|rs|] == rs;
  }

  function Intents(rs: seq<Record>): nat {
    if rs == [] then 0 else Intents(rs[..|rs| - 1]) + (if rs[|rs| - 1].Intent? then 1 else 0)
  }

  lemma {:induction false} FramesSize(hash: Hash, rs: seq<Record>)
    ensures |Frames(hash, rs)| <= 103 * |rs| - 27 * Intents(rs)
  {
    if rs != [] {
      FramesSize(hash, rs[..|rs| - 1]);
    }
  }

  lemma {:induction false} HalfAreIntents(rs: seq<Record>, metadata: bool)
    requires Paired(rs, metadata)
    ensures Intents(rs) == (|rs| + 1) / 2
  {
    if rs != [] {
      PairedInit(rs, metadata);
      HalfAreIntents(rs[..|rs| - 1], metadata);
    }
  }

  /** A transaction of n operations writes at most 8 + 179 n bytes. */
  lemma LogSize(hash: Hash, metadata: bool, rs: seq<Record>, n: nat)
    requires Paired(rs, metadata) && |rs| <= 2 * n
    ensures |Log(hash, metadata, rs)| <= 8 + 179 * n
  {
    FramesSize(hash, rs);
    HalfAreIntents(rs, metadata);
  }

  /** The default bounds on operations and on journal bytes accepted by recovery. */
  const MAX_OPERATIONS := 100_000
  const MAX_JOURNAL_BYTES := 64 * 1024 * 1024

  /** Under the default bounds recovery accepts the log of any transaction, cut anywhere. */
  lemma DefaultLimitsFit(hash: Hash, metadata: bool, rs: seq<Record>, room: nat)
    requires Paired(rs, metadata) && |rs| <= 2 * MAX_OPERATIONS && room <= |Frames(hash, rs)|
    ensures ReadLog(hash, MAX_JOURNAL_BYTES, CutLog(hash, metadata, rs, room)).Ok?
  {
    PairedIsSequenced(rs, metadata);
    LogSize(hash, metadata, rs, MAX_OPERATIONS);
    TornTail(hash, metadata, rs, MAX_JOURNAL_BYTES, room);
  }

  lemma Appended(magic: seq<byte>, frames: seq<byte>, length: seq<byte>, payload: seq<byte>, sum: seq<byte>)
    ensures magic + frames + length + payload + sum == magic + (frames + (length + payload + sum))
  {
  }

  /** The open journal file of a transaction. */
  class Journal {
    const hash: Hash
    const metadata: bool
    var file: seq<byte>
    /** The records written so far. */
    ghost var records: seq<Record>

    ghost predicate Valid()
      reads this
    {
      file == Log(hash, metadata, records)
    }

    constructor Create(hash: Hash, metadata: bool)
      ensures Valid() && this.hash == hash && this.metadata == metadata && records == []
    {
      this.hash, this.metadata := hash, metadata;
      file := Magic(metadata);
      records := [];
    }

    method Intent(index: u32, source: Option<Witness>, parent: Witness)
      requires Valid()
      modifies this
      ensures Valid() && records == old(records) + [Record.Intent(index, source, parent)]
    {
      var payload := [1] + U32Bytes(index);
      payload := payload + [if source.Some? then 3 else 2];
      if source.Some? {
        payload := payload + WitnessBytes(source.value);
      }
      payload := payload + WitnessBytes(parent);
      AppendRecord(payload, Record.Intent(index, source, parent));
    }

    method Done(index: u32, owner: Witness)
      requires Valid()
      modifies this
      ensures Valid() && records == old(records) + [Completed(index, owner)]
    {
      var payload := [2] + U32Bytes(index);
      payload := payload + WitnessBytes(owner);
      AppendRecord(payload, Completed(index, owner));
    }

    method MetadataDone(index: u32, stamp: FileStamp)
      requires Valid()
      modifies this
      ensures Valid() && records == old(records) + [MetadataCompleted(index, stamp)]
    {
      var payload := [3] + U32Bytes(index);
      payload := payload + WitnessBytes(WitnessOf(stamp));
      payload := payload + U64Bytes(stamp.size);
      payload := payload + U32Bytes(stamp.mode);
      payload := payload + I128Bytes(stamp.mtime);
      payload := payload + [if stamp.ctime.Some? then 1 else 0];
      if stamp.ctime.Some? {
        payload := payload + I128Bytes(stamp.ctime.value);
      }
      AppendRecord(payload, MetadataCompleted(index, stamp));
    }

    method AppendRecord(payload: seq<byte>, ghost x: Record)
      requires Valid() && payload == Payload(x)
      modifies this
      ensures Valid() && records == old(records) + [x]
    {
      Appended(Magic(metadata), Frames(hash, records), U32Bytes(|payload|), payload, hash(payload));
      FramesAppend(hash, records, x);
      file := file + U32Bytes(|payload|);
      file := file + payload;
      file := file + hash(payload);
      records := records + [x];
    }
  }
}
