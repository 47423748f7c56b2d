/**
 What the journal reader accepts, whatever the bytes: a magic, whole frames that carry the digest
 of their payloads, records in sequence, and at most a torn tail. The first damaged frame is an
 error.
 */
module AcceptedLog {
  import opened Types
  import opened ByteCodec
  import opened OperationLog

  // ----------------------------------------------------------- one record

  /** A record as it can stand in a journal: of today, or one of the two older intents. */
  datatype Entry =
    | Current(record: Record)
    | OlderIntent(number: u32, source: Option<Witness>)

  function EntryBytes(e: Entry): (b: seq<byte>)
    ensures |b| <= MAX_RECORD_PAYLOAD
  {
    match e
    case Current(record) => Payload(record)
    case OlderIntent(number, source) => [1] + U32Bytes(number) + if source.Some? then WitnessBytes(source.value) else []
  }

  predicate EntryFits(r: Reading, e: Entry, metadata: bool) {
    match e
    case Current(record) => Fits(r, record, metadata)
    case OlderIntent(number, _) => number == r.next && r.state.pending.None?
  }

  /** What an entry means to the reader; an older intent names no parent. */
  function TakeEntry(r: Reading, e: Entry): Reading {
    match e
    case Current(record) => Take(r, record)
    case OlderIntent(number, source) => Began(r, number, IntentWitnesses(source, None))
  }

  lemma WitnessWritten(payload: seq<byte>, offset: nat)
    requires WitnessAt(payload, offset).Ok?
    ensures offset + 17 <= |payload| && payload[offset..offset + 17] == WitnessBytes(WitnessAt(payload, offset).value)
  {
    hide U64Bytes, U64From;
    var bytes := payload[offset..offset + 17];
    U64Written(bytes[1..9]);
    U64Written(bytes[9..17]);
    assert bytes == [bytes[0]] + bytes[1..9] + bytes[9..17];
  }

  lemma Split3(p: seq<byte>)
    requires |p| >= 5
    ensures p == [p[0]] + p[1..5] + p[5..]
  {
  }

  lemma IntentWritten(payload: seq<byte>)
    requires |payload| in {5, 22, 23, 40} && payload[0] == 1 && IntentAt(payload).Ok?
    ensures var index, w := U32From(payload[1..5]), IntentAt(payload).value;
            payload == EntryBytes(if w.parent.Some? then Current(Intent(index, w.source, w.parent.value)) else OlderIntent(index, w.source))
  {
    hide WitnessBytes, WitnessAt, U32Bytes, U32From;
    U32Written(payload[1..5]);
    Split3(payload);
    if |payload| == 5 {
      assert payload[5..] == [];
    } else if |payload| == 22 {
      WitnessWritten(payload, 5);
      assert payload[5..] == payload[5..22];
    } else {
      assert payload[5..] == [payload[5]] + payload[6..];
      WitnessWritten(payload, 6);
      if |payload| == 23 {
        assert payload[6..] == payload[6..23];
      } else {
        WitnessWritten(payload, 23);
        assert payload[6..] == payload[6..23] + payload[23..40];
      }
    }
  }

  lemma StampWritten(payload: seq<byte>)
    requires |payload| in {51, 67} && payload[0] == 3 && StampAt(payload).Ok?
    ensures StampAt(payload).value.kind == File
    ensures payload == Payload(MetadataCompleted(U32From(payload[1..5]), StampAt(payload).value))
  {
    hide WitnessBytes, WitnessAt, U32Bytes, U32From, U64Bytes, U64From, I128Bytes, I128From;
    var s := StampAt(payload).value;
    var change := if s.ctime.Some? then [1] + I128Bytes(s.ctime.value) else [0];
    U32Written(payload[1..5]);
    WitnessWritten(payload, 5);
    U64Written(payload[22..30]);
    U32Written(payload[30..34]);
    I128Written(payload[34..50]);
    ChangeWritten(payload);
    StampPieces(payload);
    assert payload[50..] == change;
  }

  /** The optional change time at the end. */
  lemma ChangeWritten(payload: seq<byte>)
    requires |payload| in {51, 67} && StampAt(payload).Ok?
    ensures var s := StampAt(payload).value;
            payload[50..] == if s.ctime.Some? then [1] + I128Bytes(s.ctime.value) else [0]
  {
    hide WitnessAt, U32From, U64From, I128Bytes, I128From;
    if |payload| == 51 {
      assert payload[50..] == [0];
    } else {
      I128Written(payload[51..67]);
      assert payload[50..] == [1] + payload[51..67];
    }
  }

  lemma StampPieces(p: seq<byte>)
    requires |p| >= 51
    ensures p == [p[0]] + p[1..5] + p[5..22] + p[22..30] + p[30..34] + p[34..50] + p[50..]
  {
  }

  /** Whatever payload the reader takes is the writing of an entry that fits, and it takes it for that. */
  lemma ConsumedIsWritten(payload: seq<byte>, metadata: bool, r: Reading) returns (e: Entry)
    requires Consume(payload, metadata, r).Ok?
    ensures EntryBytes(e) == payload && EntryFits(r, e, metadata)
    ensures Consume(payload, metadata, r) == Ok(TakeEntry(r, e))
  {
    hide WitnessAt, StampAt, IntentAt, U32From, Payload, WitnessBytes, U32Bytes;
    var index := U32From(payload[1..5]);
    if payload[0] == 1 {
      IntentWritten(payload);
      var w := IntentAt(payload).value;
      e := if w.parent.Some? then Current(Intent(index, w.source, w.parent.value)) else OlderIntent(index, w.source);
    } else if payload[0] == 2 {
      CompletionWritten(payload);
      e := Current(Completed(index, WitnessAt(payload, 5).value));
    } else {
      StampWritten(payload);
      e := Current(MetadataCompleted(index, StampAt(payload).value));
    }
  }

  lemma CompletionWritten(payload: seq<byte>)
    requires |payload| == 22 && payload[0] == 2 && WitnessAt(payload, 5).Ok?
    ensures payload == Payload(Completed(U32From(payload[1..5]), WitnessAt(payload, 5).value))
  {
    hide WitnessBytes, WitnessAt, U32Bytes, U32From;
    U32Written(payload[1..5]);
    Split3(payload);
    WitnessWritten(payload, 5);
    assert payload[5..] == payload[5..22];
  }

  /** And it takes every such writing. */
  lemma WrittenIsConsumed(e: Entry, metadata: bool, r: Reading)
    requires EntryFits(r, e, metadata)
    ensures Consume(EntryBytes(e), metadata, r) == Ok(TakeEntry(r, e))
  {
    match e
    case Current(record) => RecordReadsBack(r, record, metadata);
    case OlderIntent(number, source) =>
      var payload := EntryBytes(e);
      IntegersReadBack(number, 0, 0);
      assert payload[1..5] == U32Bytes(number);
      if source.Some? {
        assert payload[5..22] == WitnessBytes(source.value);
        WitnessReadsBack(payload, 5, source.value);
      }
  }

  // -------------------------------------------------------------- the whole log

  function EntryFrames(hash: Hash, es: seq<Entry>): seq<byte> {
    if es == [] then [] else EntryFrames(hash, es[..|es| - 1]) + Frame(hash, EntryBytes(es[|es| - 1]))
  }

  function Told(es: seq<Entry>): Reading {
    if es == [] then UNREAD else TakeEntry(Told(es[..|es| - 1]), es[|es| - 1])
  }

  predicate InSequence(es: seq<Entry>, metadata: bool) {
    es == [] || (InSequence(es[..|es| - 1], metadata) && EntryFits(Told(es[..|es| - 1]), es[|es| - 1], metadata))
  }

  /** Too short for the frame it begins, if it begins one; the length it names is in bounds. */
  predicate Torn(tail: seq<byte>) {
    |tail| < 4 || (U32From(tail[..4]) <= MAX_RECORD_PAYLOAD && |tail| < 36 + U32From(tail[..4]))
  }

  /** The bytes are the log of these entries, with this tail behind it. */
  predicate IsLog(hash: Hash, metadata: bool, es: seq<Entry>, tail: seq<byte>, bytes: seq<byte>) {
    InSequence(es, metadata) && Torn(tail) && bytes == Magic(metadata) + EntryFrames(hash, es) + tail
  }

  /** What these entries and that tail tell the reader. */
  function Learnt(es: seq<Entry>, tail: seq<byte>): JournalState {
    Told(es).state.(tornTail := tail != [])
  }

  lemma {:induction false} ToldUntorn(es: seq<Entry>)
    ensures !Told(es).state.tornTail
  {
    if es != [] {
      ToldUntorn(es[..|es| - 1]);
    }
  }

  lemma EntriesAppend(hash: Hash, metadata: bool, es: seq<Entry>, e: Entry)
    requires InSequence(es, metadata) && EntryFits(Told(es), e, metadata)
    ensures InSequence(es + [e], metadata) && Told(es + [e]) == TakeEntry(Told(es), e)
    ensures EntryFrames(hash, es + [e]) == EntryFrames(hash, es) + Frame(hash, EntryBytes(e))
  {
    assert (es + [e])[..|es|] == es;
  }

  /** A whole frame with its own digest, taken apart and put together. */
  lemma WholeFrame(hash: Hash, bytes: seq<byte>, length: nat)
    requires 36 + length <= |bytes| && length <= MAX_RECORD_PAYLOAD && U32From(bytes[..4]) == length
    requires hash(bytes[4..4 + length]) == bytes[4 + length..36 + length]
    ensures bytes == Frame(hash, bytes[4..4 + length]) + bytes[36 + length..]
  {
    hide U32Bytes, U32From;
    U32Written(bytes[..4]);
    assert bytes == bytes[..4] + bytes[4..4 + length] + bytes[4 + length..36 + length] + bytes[36 + length..];
  }

  /** The rest of an accepted log is entries in sequence and a torn tail. */
  lemma {:induction false} AcceptedRest(hash: Hash, metadata: bool, es: seq<Entry>, bytes: seq<byte>)
    returns (es': seq<Entry>, tail: seq<byte>)
    requires InSequence(es, metadata) && ReadFrom(hash, metadata, bytes, Told(es)).Ok?
    ensures InSequence(es', metadata) && Torn(tail)
    ensures EntryFrames(hash, es) + bytes == EntryFrames(hash, es') + tail
    ensures ReadFrom(hash, metadata, bytes, Told(es)) == Ok(Learnt(es', tail))
    decreases |bytes|
  {
    hide Consume, U32From, EntryFits, TakeEntry, Frame, InSequence, EntryFrames;
    if |bytes| < 4 || |bytes| < 36 + U32From(bytes[..4]) {
      ToldUntorn(es);
      return es, bytes;
    }
    var length := U32From(bytes[..4]);
    var payload, rest := bytes[4..4 + length], bytes[36 + length..];
    var e := ConsumedIsWritten(payload, metadata, Told(es));
    EntriesAppend(hash, metadata, es, e);
    WholeFrame(hash, bytes, length);
    es', tail := AcceptedRest(hash, metadata, es + [e], rest);
    Nest(EntryFrames(hash, es), Frame(hash, payload), rest);
  }

  lemma EntryReadsBack(hash: Hash, metadata: bool, r: Reading, e: Entry, rest: seq<byte>)
    requires EntryFits(r, e, metadata)
    ensures ReadFrom(hash, metadata, Frame(hash, EntryBytes(e)) + rest, r) == ReadFrom(hash, metadata, rest, TakeEntry(r, e))
  {
    hide EntryBytes, TakeEntry, EntryFits, Consume, U32Bytes, U32From;
    WrittenIsConsumed(e, metadata, r);
    var payload := EntryBytes(e);
    IntegersReadBack(|payload|, 0, 0);
    FrameLayout(U32Bytes(|payload|), payload, hash(payload), rest);
  }

  lemma {:induction false} EntriesReadBack(hash: Hash, metadata: bool, es: seq<Entry>, rest: seq<byte>)
    requires InSequence(es, metadata)
    ensures ReadFrom(hash, metadata, EntryFrames(hash, es) + rest, UNREAD) == ReadFrom(hash, metadata, rest, Told(es))
  {
    hide ReadFrom, Frame, EntryBytes, TakeEntry, EntryFits;
    if es == [] {
      assert EntryFrames(hash, es) + rest == rest;
    } else {
      var init, last := es[..|es| - 1], es[|es| - 1];
      var frame := Frame(hash, EntryBytes(last));
      EntryReadsBack(hash, metadata, Told(init), last, rest);
      EntriesReadBack(hash, metadata, init, frame + rest);
      Nest(EntryFrames(hash, init), frame, rest);
    }
  }

  lemma TornReadsBack(hash: Hash, metadata: bool, r: Reading, tail: seq<byte>)
    requires Torn(tail) && !r.state.tornTail
    ensures ReadFrom(hash, metadata, tail, r) == Ok(r.state.(tornTail := tail != []))
  {
  }

  /**
   The reader accepts exactly the logs: whatever bytes it answers for are the magic, frames of
   entries in sequence, each with the digest of its payload, and a torn tail, and its answer is
   what these tell it.
   */
  lemma AcceptedIsLog(hash: Hash, maximum: nat, bytes: seq<byte>) returns (metadata: bool, es: seq<Entry>, tail: seq<byte>)
    requires ReadLog(hash, maximum, bytes).Ok?
    ensures |bytes| <= maximum && IsLog(hash, metadata, es, tail, bytes)
    ensures ReadLog(hash, maximum, bytes) == Ok(Learnt(es, tail))
  {
    hide ReadFrom, Torn;
    metadata := bytes[..8] == MAGIC_V2;
    es, tail := AcceptedRest(hash, metadata, [], bytes[8..]);
    assert EntryFrames(hash, []) + bytes[8..] == bytes[8..];
    assert bytes == Magic(metadata) + bytes[8..];
    Nest(Magic(metadata), EntryFrames(hash, es), tail);
  }

  lemma LogIsAccepted(hash: Hash, maximum: nat, metadata: bool, es: seq<Entry>, tail: seq<byte>, bytes: seq<byte>)
    requires |bytes| <= maximum && IsLog(hash, metadata, es, tail, bytes)
    ensures ReadLog(hash, maximum, bytes) == Ok(Learnt(es, tail))
  {
    hide ReadFrom, Torn, Told, InSequence;
    Nest(Magic(metadata), EntryFrames(hash, es), tail);
    MagicReadsBack(hash, metadata, EntryFrames(hash, es) + tail, maximum);
    EntriesReadBack(hash, metadata, es, tail);
    ToldUntorn(es);
    TornReadsBack(hash, metadata, Told(es), tail);
  }

  /** Behind good frames, the first whole frame whose digest is not that of its payload is an error. */
  lemma DamageIsReported(hash: Hash, maximum: nat, metadata: bool, es: seq<Entry>, payload: seq<byte>, sum: Digest, rest: seq<byte>)
    requires InSequence(es, metadata) && |payload| <= MAX_RECORD_PAYLOAD && hash(payload) != sum
    requires |Magic(metadata) + EntryFrames(hash, es) + (U32Bytes(|payload|) + payload + sum + rest)| <= maximum
    ensures ReadLog(hash, maximum, Magic(metadata) + EntryFrames(hash, es) + (U32Bytes(|payload|) + payload + sum + rest))
            == Err(BadChecksum)
  {
    var damaged := U32Bytes(|payload|) + payload + sum + rest;
    Nest(Magic(metadata), EntryFrames(hash, es), damaged);
    MagicReadsBack(hash, metadata, EntryFrames(hash, es) + damaged, maximum);
    EntriesReadBack(hash, metadata, es, damaged);
    DamagedFrame(hash, metadata, Told(es), payload, sum, rest);
  }

  lemma DamagedFrame(hash: Hash, metadata: bool, r: Reading, payload: seq<byte>, sum: Digest, rest: seq<byte>)
    requires |payload| <= MAX_RECORD_PAYLOAD && hash(payload) != sum
    ensures ReadFrom(hash, metadata, U32Bytes(|payload|) + payload + sum + rest, r) == Err(BadChecksum)
  {
    hide Consume, U32Bytes, U32From;
    IntegersReadBack(|payload|, 0, 0);
    FrameLayout(U32Bytes(|payload|), payload, sum, rest);
  }

  /** Records, as entries of today. */
  function AsEntries(rs: seq<Record>): (es: seq<Entry>)
    ensures |es| == |rs| && forall i :: 0 <= i < |rs| ==> es[i] == Current(rs[i])
  {
    seq(|rs|, i requires 0 <= i < |rs| => Current(rs[i]))
  }

  /** The log of a transaction is the log of its records. */
  lemma {:induction false} RecordsAreEntries(hash: Hash, rs: seq<Record>, metadata: bool)
    ensures EntryFrames(hash, AsEntries(rs)) == Frames(hash, rs) && Told(AsEntries(rs)) == Replay(rs)
    ensures InSequence(AsEntries(rs), metadata) <==> WellSequenced(rs, metadata)
  {
    if rs != [] {
      hide Frame, Payload, Take, Fits;
      assert AsEntries(rs)[..|rs| - 1] == AsEntries(rs[..|rs| - 1]);
      RecordsAreEntries(hash, rs[..|rs| - 1], metadata);
    }
  }
}
