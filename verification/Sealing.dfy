/**
 Sealing in a single pass: a bounded encoder with a buffered hash beside it, and evidence that is
 patched into the binding after the fields it covers were written.
 */
module Sealing {
  import opened Types
  import opened ByteCodec
  import opened OperationLog
  import opened ArtifactCodec
  import opened ArtifactFields
  import P = PlanCodec

  // ---------------------------------------------------------- buffered hashing

  const BUFFER: nat := 4096

  /** Feeds a hasher in large pieces; small writes gather in a buffer first. */
  class HashSink {
    /** Bytes the hasher was given, in order. */
    var fed: seq<byte>
    const buffer: array<byte>
    var buffered: nat

    ghost predicate Valid()
      reads this, buffer
    {
      buffer.Length == BUFFER && buffered < BUFFER
    }

    /** What the sink was given since it was made, however it was cut into writes. */
    ghost function Contents(): seq<byte>
      reads this, buffer
      requires Valid()
    {
      fed + buffer[..buffered]
    }

    constructor ()
      ensures Valid() && fresh(buffer) && Contents() == []
    {
      fed, buffered := [], 0;
      buffer := new byte[BUFFER];
    }

    /** Copy bytes into the buffer behind those that are there. */
    method Gather(bytes: seq<byte>)
      requires buffer.Length == BUFFER && buffered + |bytes| <= BUFFER
      modifies this`buffered, buffer
      ensures buffered == old(buffered) + |bytes|
      ensures buffer[..buffered] == old(buffer[..buffered]) + bytes
    {
      for i := 0 to |bytes|
        modifies buffer
        invariant buffer[..buffered] == old(buffer[..buffered])
        invariant buffer[buffered..buffered + i] == bytes[..i]
      {
        buffer[buffered + i] := bytes[i];
      }
      buffered := buffered + |bytes|;
      assert buffer[..buffered] == buffer[..old(buffered)] + buffer[old(buffered)..buffered];
    }

    method Extend(input: seq<byte>)
      requires Valid()
      modifies this, buffer
      ensures Valid() && Contents() == old(Contents()) + input
    {
      var bytes := input;
      if buffered != 0 {
        var count := if |bytes| < BUFFER - buffered then |bytes| else BUFFER - buffered;
        Gather(bytes[..count]);
        bytes := bytes[count..];
        if buffered == BUFFER {
          fed := fed + buffer[..];
          buffered := 0;
          assert buffer[..BUFFER] == buffer[..];
        }
      }
      assert fed + buffer[..buffered] + bytes == old(Contents()) + input;
      if |bytes| >= BUFFER {
        fed := fed + bytes;
      } else if bytes != [] {
        Gather(bytes);
      }
    }

    method Finish(hash: Hash) returns (digest: Digest)
      requires Valid()
      modifies this
      ensures digest == hash(old(Contents()))
    {
      fed := fed + buffer[..buffered];
      digest := hash(fed);
    }
  }

  // ----------------------------------------------------------- bounded encoding

  /** Append write after write until one would cross the limit. */
  function Fill(maximum: nat, sofar: seq<byte>, writes: seq<seq<byte>>): (r: Result<seq<byte>, ArtifactError>)
    ensures r.Ok? <==> |sofar| + |Join(writes)| <= maximum || writes == []
    ensures r.Ok? ==> r.value == sofar + Join(writes)
    decreases |writes|
  {
    if writes == [] then Ok(sofar)
    else if |sofar| + |writes[0]| > maximum then Err(Limit(|sofar| + |writes[0]|))
    else
      assert sofar + writes[0] + Join(writes[1..]) == sofar + Join(writes);
      Fill(maximum, sofar + writes[0], writes[1..])
  }

  function FillSection(maximum: nat, sofar: seq<byte>, s: Section): Result<seq<byte>, ArtifactError> {
    var b :- Fill(maximum, sofar, s.writes);
    if s.refusal.Some? then Err(s.refusal.value) else Ok(b)
  }

  /** One encoder, three uses: storing the bytes, hashing them, or only counting them. */
  class Encoder {
    var stored: seq<byte>
    var sink: HashSink
    const retain: bool
    var hashing: bool
    var observed: nat
    const maximum: nat
    /** Everything written so far, and the part of it that was hashed. */
    ghost var emitted: seq<byte>
    ghost var hashed: seq<byte>

    ghost predicate Valid()
      reads this, sink, sink.buffer
    {
      && sink.Valid() && sink.Contents() == hashed
      && observed == |emitted| && (retain ==> stored == emitted)
    }

    constructor (retain: bool, hashing: bool, maximum: nat)
      ensures Valid() && fresh(sink) && fresh(sink.buffer) && emitted == [] && hashed == []
      ensures this.retain == retain && this.hashing == hashing && this.maximum == maximum
    {
      this.retain, this.hashing, this.maximum := retain, hashing, maximum;
      stored, observed, emitted, hashed := [], 0, [], [];
      sink := new HashSink();
    }

    /** The outcome depends on what was written, never on what the encoder does with it. */
    method Extend(bytes: seq<byte>) returns (r: Result<(), ArtifactError>)
      requires Valid()
      modifies this, sink, sink.buffer
      ensures Valid() && sink == old(sink) && hashing == old(hashing)
      ensures old(|emitted|) + |bytes| > maximum ==>
                r == Err(Limit(old(|emitted|) + |bytes|)) && emitted == old(emitted) && hashed == old(hashed)
      ensures old(|emitted|) + |bytes| <= maximum ==>
                r == Ok(()) && emitted == old(emitted) + bytes && hashed == old(hashed) + (if hashing then bytes else [])
    {
      var required := observed + |bytes|;
      if required > maximum {
        return Err(Limit(required));
      }
      if hashing {
        sink.Extend(bytes);
        hashed := hashed + bytes;
      }
      if retain {
        stored := stored + bytes;
      }
      emitted := emitted + bytes;
      observed := required;
      return Ok(());
    }

    method ExtendAll(writes: seq<seq<byte>>) returns (r: Result<(), ArtifactError>)
      requires Valid()
      modifies this, sink, sink.buffer
      ensures Valid() && sink == old(sink) && hashing == old(hashing)
      ensures match Fill(maximum, old(emitted), writes)
              case Ok(b) => r == Ok(()) && emitted == b && hashed == old(hashed) + (if hashing then Join(writes) else [])
              case Err(e) => r == Err(e)
    {
      ghost var start, before := emitted, hashed;
      for i := 0 to |writes|
        invariant Valid() && sink == old(sink) && hashing == old(hashing)
        invariant Fill(maximum, emitted, writes[i..]) == Fill(maximum, start, writes)
        invariant hashed + (if hashing then Join(writes[i..]) else []) == before + (if hashing then Join(writes) else [])
      {
        assert writes[i..][1..] == writes[i + 1..];
        var outcome := Extend(writes[i]);
        if outcome.Err? {
          return outcome;
        }
      }
      return Ok(());
    }

    method ExtendSection(s: Section) returns (r: Result<(), ArtifactError>)
      requires Valid()
      modifies this, sink, sink.buffer
      ensures Valid() && sink == old(sink) && hashing == old(hashing)
      ensures match FillSection(maximum, old(emitted), s)
              case Ok(b) => r == Ok(()) && emitted == b && hashed == old(hashed) + (if hashing then Join(s.writes) else [])
              case Err(e) => r == Err(e)
    {
      r := ExtendAll(s.writes);
      if r.Ok? && s.refusal.Some? {
        r := Err(s.refusal.value);
      }
    }

    /** Take the digest of what was hashed; the encoder goes on without it. */
    method TakeDigest(hash: Hash) returns (digest: Digest)
      requires Valid()
      modifies this, sink
      ensures Valid() && fresh(sink) && fresh(sink.buffer) && emitted == old(emitted) && hashing == old(hashing)
      ensures digest == hash(old(hashed))
    {
      digest := sink.Finish(hash);
      sink := new HashSink();
      hashed := [];
    }

    /** Begin a new hash; it starts with the evidence codec version. */
    method BeginEvidence()
      requires Valid()
      modifies this
      ensures Valid() && fresh(sink) && fresh(sink.buffer) && hashing && hashed == [1] && emitted == old(emitted)
    {
      sink := new HashSink();
      sink.Extend([1]);
      hashed := [1];
      hashing := true;
    }
  }

  // ------------------------------------------------------------ the artifact

  datatype Binding = Binding(
    snapshot: Digest, diff: Digest, readSet: Digest, writeSet: Digest, program: Digest, policy: Digest, config: Digest,
    intent: Option<Digest>, invocation: Option<Digest>, hook: Option<Digest>, evidence: Option<Digest>)

  /**
   A pending transaction as the encoder goes through it: the groups of fields as they are written,
   and what it asks of them on the way. `outcome` is decision, output and statistics; `tail` is timings, diff
   and dependencies.
   */
  datatype Rendered = Rendered(
    binding: Binding, transaction: Digest, review: Section, detailed: bool, outcome: Section, tail: Section,
    /** The review is complete and about the intent that the binding names. */
    sound: bool,
    /** Effects or risks that only sealed formats can carry. */
    modernOnly: bool)

  /** Functions of the surrounding system: hashes, and the serializer of result values. */
  datatype Meaning = Meaning(
    evidence: Hash, identity: Binding -> Digest, intent: seq<byte> -> Digest,
    diff: seq<Change> -> Digest, readSet: set<Observation> -> Digest, writeSet: set<Precondition> -> Digest, take: Taker)

  /** "VSHPND02", "VSHPND03" and "VSHPND04". */
  const MAGIC_SEALED: seq<byte> := [86, 83, 72, 80, 78, 68, 48, 51]
  const MAGIC_HOOKED: seq<byte> := [86, 83, 72, 80, 78, 68, 48, 52]
  const MAGIC_UNSEALED: seq<byte> := [86, 83, 72, 80, 78, 68, 48, 50]

  function WithEvidence(b: Binding, d: Option<Digest>): Binding {
    Binding(b.snapshot, b.diff, b.readSet, b.writeSet, b.program, b.policy, b.config, b.intent, b.invocation, b.hook, d)
  }

  function Rebound(art: Rendered, m: Meaning, b: Binding): Rendered {
    Rendered(b, m.identity(b), art.review, art.detailed, art.outcome, art.tail, art.sound, art.modernOnly)
  }

  predicate Hooked(b: Binding) {
    b.invocation.Some? || b.hook.Some?
  }

  function MagicFor(b: Binding, modern: bool): (m: seq<byte>)
    ensures |m| == 8
  {
    if Hooked(b) then MAGIC_HOOKED else if modern then MAGIC_SEALED else MAGIC_UNSEALED
  }

  function Fixed(b: Binding): seq<seq<byte>> {
    [b.snapshot, b.diff, b.readSet, b.writeSet, b.program, b.policy, b.config]
  }

  function BindingWrites(b: Binding): seq<seq<byte>> {
    Fixed(b) + OptionalDigest(b.intent).writes
    + (if Hooked(b) then OptionalDigest(b.invocation).writes + OptionalDigest(b.hook).writes else [])
    + (if b.evidence.Some? then [b.evidence.value] else [])
  }

  /** Thirty-two zero bytes. */
  function EmptySlot(): Digest {
    LE(0, 32)
  }

  /** The binding as written: sealing reserves the slot of a digest it does not know yet. */
  function SlotBinding(b: Binding, seal: bool): Binding {
    if seal then WithEvidence(b, Some(EmptySlot())) else b
  }

  /** The evidence preimage: the receipt-detail byte is not part of it. */
  function Preimage(review: seq<byte>, outcome: seq<byte>): seq<byte> {
    [1] + review + outcome
  }

  function EvidenceOf(m: Meaning, art: Rendered): Digest {
    m.evidence(Preimage(Join(art.review.writes), Join(art.outcome.writes)))
  }

  function DetailByte(detailed: bool): seq<byte> {
    BoolByte(detailed)
  }

  function Modern(art: Rendered, seal: bool): bool {
    seal || art.binding.evidence.Some?
  }

  /** Fields that the unsealed format cannot carry. */
  predicate Inexpressible(art: Rendered) {
    art.modernOnly || Hooked(art.binding)
  }

  function HeaderWrites(art: Rendered, seal: bool): seq<seq<byte>> {
    [MagicFor(art.binding, Modern(art, seal))] + BindingWrites(SlotBinding(art.binding, seal))
  }

  function Header(m: Meaning, art: Rendered, seal: bool, maximum: nat): Result<seq<byte>, ArtifactError> {
    if !Modern(art, seal) && Inexpressible(art) then Err(Unsupported)
    else Fill(maximum, [], HeaderWrites(art, seal))
  }

  function Receipt(art: Rendered, maximum: nat, sofar: seq<byte>): Result<seq<byte>, ArtifactError> {
    var b :- FillSection(maximum, sofar, art.review);
    var b :- Fill(maximum, b, [DetailByte(art.detailed)]);
    FillSection(maximum, b, art.outcome)
  }

  /** The evidence with its checks: it must be sound, and what the binding already claims. */
  function Evidence(m: Meaning, art: Rendered, seal: bool, maximum: nat, sofar: seq<byte>): Result<seq<byte>, ArtifactError> {
    if Modern(art, seal) && !art.sound then Err(EvidenceMismatch)
    else
      var b :- Receipt(art, maximum, sofar);
      if Modern(art, seal) && !seal && art.binding.evidence != Some(EvidenceOf(m, art)) then Err(EvidenceMismatch)
      else Ok(b)
  }

  /** Everything the encoder writes for the artifact. */
  function Written(m: Meaning, art: Rendered, seal: bool, maximum: nat): Result<seq<byte>, ArtifactError> {
    var b :- Header(m, art, seal, maximum);
    var b :- Evidence(m, art, seal, maximum, b);
    FillSection(maximum, b, art.tail)
  }

  function EncodeRendered(m: Meaning, art: Rendered, maximum: nat): Result<seq<byte>, ArtifactError> {
    Written(m, art, false, maximum)
  }

  /** The artifact with its evidence filled in, under the identity that follows from it. */
  function SealedArtifact(m: Meaning, art: Rendered): Rendered {
    Rebound(art, m, WithEvidence(art.binding, Some(EvidenceOf(m, art))))
  }

  /** The evidence digest alone, by a pass that hashes and keeps nothing. */
  function EvidencePass(m: Meaning, art: Rendered, maximum: nat): Result<Digest, ArtifactError> {
    var b :- Fill(maximum, [], [[1]]);
    var b :- FillSection(maximum, b, art.review);
    var b :- FillSection(maximum, b, art.outcome);
    Ok(m.evidence(b))
  }

  /** The straightforward way to seal: compute the evidence, then encode the sealed artifact. */
  function TwoPassRendered(m: Meaning, art: Rendered, maximum: nat): Result<seq<byte>, ArtifactError> {
    var digest :- EvidencePass(m, art, maximum);
    EncodeRendered(m, Rebound(art, m, WithEvidence(art.binding, Some(digest))), maximum)
  }

  function Patched(bytes: seq<byte>, offset: nat, d: Digest): seq<byte>
    requires offset + 32 <= |bytes|
  {
    bytes[..offset] + d + bytes[offset + 32..]
  }

  /** The evidence digest is the last field of the binding, whatever precedes it. */
  lemma BindingEndsInSlot(b: Binding)
    requires b.evidence.Some?
    ensures Join(BindingWrites(b)) == Join(BindingWrites(WithEvidence(b, None))) + b.evidence.value
  {
    var front := BindingWrites(WithEvidence(b, None));
    JoinConcat(front, [b.evidence.value]);
    assert BindingWrites(b) == front + [b.evidence.value];
    assert [b.evidence.value][1..] == [];
    assert Join([b.evidence.value]) == b.evidence.value + [];
  }

  /** Where the digest slot begins: its 32 bytes end the binding. */
  function SlotOffset(b: Binding): nat {
    8 + |Join(BindingWrites(WithEvidence(b, None)))|
  }

  lemma SlotEndsHeader(art: Rendered, seal: bool)
    requires Modern(art, seal)
    ensures var header := Join(HeaderWrites(art, seal));
            && |header| == SlotOffset(art.binding) + 32
            && header[SlotOffset(art.binding)..] == SlotBinding(art.binding, seal).evidence.value
            && header[..SlotOffset(art.binding)]
               == MagicFor(art.binding, true) + Join(BindingWrites(WithEvidence(art.binding, None)))
  {
    var b := SlotBinding(art.binding, seal);
    BindingEndsInSlot(b);
    assert WithEvidence(b, None) == WithEvidence(art.binding, None);
    assert HeaderWrites(art, seal)[1..] == BindingWrites(b);
    assert Join(HeaderWrites(art, seal)) == MagicFor(art.binding, true) + Join(BindingWrites(b));
  }

  /** The outcome of a write, and what the encoder then holds. */
  ghost predicate Emits(output: Encoder, r: Result<(), ArtifactError>, expected: Result<seq<byte>, ArtifactError>)
    reads output, output.sink, output.sink.buffer
  {
    && output.Valid()
    && match expected
       case Ok(b) => r == Ok(()) && output.emitted == b
       case Err(e) => r == Err(e)
  }

  method WriteHeader(m: Meaning, art: Rendered, seal: bool, output: Encoder) returns (r: Result<(), ArtifactError>)
    requires output.Valid() && output.emitted == []
    modifies output, output.sink, output.sink.buffer
    ensures Emits(output, r, Header(m, art, seal, output.maximum))
    ensures output.sink == old(output.sink) && output.hashing == old(output.hashing)
  {
    if !Modern(art, seal) && Inexpressible(art) {
      return Err(Unsupported);
    }
    r := output.ExtendAll(HeaderWrites(art, seal));
  }

  /** Review, detail byte, outcome; hashing pauses for the detail byte. */
  method WriteReceipt(art: Rendered, modern: bool, output: Encoder) returns (r: Result<(), ArtifactError>)
    requires output.Valid() && output.hashing == modern
    modifies output, output.sink, output.sink.buffer
    ensures Emits(output, r, Receipt(art, output.maximum, old(output.emitted))) && output.sink == old(output.sink)
    ensures r.Ok? && modern ==> output.hashed == old(output.hashed) + Join(art.review.writes) + Join(art.outcome.writes)
    ensures r.Ok? ==> !output.hashing
  {
    r := output.ExtendSection(art.review);
    if r.Err? {
      return;
    }
    ghost var reviewed := output.hashed;
    output.hashing := false;
    r := output.ExtendAll([DetailByte(art.detailed)]);
    if r.Err? {
      return;
    }
    assert output.hashed == reviewed;
    output.hashing := modern;
    r := output.ExtendSection(art.outcome);
    if r.Err? {
      return;
    }
    output.hashing := false;
  }

  method WriteEvidence(m: Meaning, art: Rendered, seal: bool, output: Encoder)
    returns (r: Result<(), ArtifactError>, digest: Option<Digest>)
    requires output.Valid() && !output.hashing
    modifies output, output.sink, output.sink.buffer
    ensures Emits(output, r, Evidence(m, art, seal, output.maximum, old(output.emitted)))
    ensures r.Ok? ==> digest == if Modern(art, seal) then Some(EvidenceOf(m, art)) else None
    ensures output.sink == old(output.sink) || (fresh(output.sink) && fresh(output.sink.buffer))
  {
    digest := None;
    if Modern(art, seal) {
      if !art.sound {
        return Err(EvidenceMismatch), None;
      }
      output.BeginEvidence();
    }
    r := WriteReceipt(art, Modern(art, seal), output);
    if r.Err? {
      return;
    }
    if Modern(art, seal) {
      assert output.hashed == Preimage(Join(art.review.writes), Join(art.outcome.writes));
      var d := output.TakeDigest(m.evidence);
      digest := Some(d);
      if !seal && art.binding.evidence != digest {
        r := Err(EvidenceMismatch);
      }
    }
  }

  method WritePending(m: Meaning, art: Rendered, seal: bool, output: Encoder)
    returns (r: Result<(), ArtifactError>, digest: Option<Digest>, slot: nat)
    requires output.Valid() && output.emitted == [] && !output.hashing
    modifies output, output.sink, output.sink.buffer
    ensures Emits(output, r, Written(m, art, seal, output.maximum))
    ensures r.Ok? ==> digest == if Modern(art, seal) then Some(EvidenceOf(m, art)) else None
    ensures seal && r.Ok? ==> slot == SlotOffset(art.binding)
  {
    digest, slot := None, 0;
    r := WriteHeader(m, art, seal, output);
    if r.Err? {
      return;
    }
    if seal {
      SlotEndsHeader(art, seal);
      slot := output.observed - 32;
    }
    r, digest := WriteEvidence(m, art, seal, output);
    if r.Err? {
      return;
    }
    r := output.ExtendSection(art.tail);
  }

  // ---------------------------------------------------- one pass is two passes

  /** Sealing in one pass: write with an empty slot, then patch the digest into it. */
  function SealOnce(m: Meaning, art: Rendered, maximum: nat): Result<seq<byte>, ArtifactError> {
    if art.binding.evidence.Some? then Err(EvidenceMismatch)
    else
      var b :- Written(m, art, true, maximum);
      assert SlotOffset(art.binding) + 32 <= |b| by {
        WrittenBytes(m, art, true, maximum);
        SlotEndsHeader(art, true);
      }
      Ok(Patched(b, SlotOffset(art.binding), EvidenceOf(m, art)))
  }

  /** What follows the header. */
  function AfterHeader(art: Rendered): seq<byte> {
    Join(art.review.writes) + DetailByte(art.detailed) + Join(art.outcome.writes) + Join(art.tail.writes)
  }

  lemma ReceiptBytes(art: Rendered, maximum: nat, sofar: seq<byte>)
    requires Receipt(art, maximum, sofar).Ok?
    ensures Receipt(art, maximum, sofar).value
            == sofar + (Join(art.review.writes) + DetailByte(art.detailed) + Join(art.outcome.writes))
  {
    assert Join([DetailByte(art.detailed)]) == DetailByte(art.detailed);
  }

  lemma HeaderBytes(m: Meaning, art: Rendered, seal: bool, maximum: nat)
    requires Header(m, art, seal, maximum).Ok?
    ensures Header(m, art, seal, maximum).value == Join(HeaderWrites(art, seal))
  {
    assert [] + Join(HeaderWrites(art, seal)) == Join(HeaderWrites(art, seal));
  }

  lemma WrittenBytes(m: Meaning, art: Rendered, seal: bool, maximum: nat)
    requires Written(m, art, seal, maximum).Ok?
    ensures Written(m, art, seal, maximum).value == Join(HeaderWrites(art, seal)) + AfterHeader(art)
  {
    var header := Join(HeaderWrites(art, seal));
    HeaderBytes(m, art, seal, maximum);
    ReceiptBytes(art, maximum, header);
    var x := Join(art.review.writes) + DetailByte(art.detailed) + Join(art.outcome.writes);
    assert header + x + Join(art.tail.writes) == header + (x + Join(art.tail.writes));
  }

  /** Whether writes fit, and how they fail, depends on how much was written, not on what. */
  lemma {:induction false} FillByLength(maximum: nat, a: seq<byte>, b: seq<byte>, writes: seq<seq<byte>>)
    requires |a| == |b|
    ensures Fill(maximum, a, writes).Ok? <==> Fill(maximum, b, writes).Ok?
    ensures Fill(maximum, a, writes).Err? ==> Fill(maximum, a, writes) == Fill(maximum, b, writes)
    decreases |writes|
  {
    if writes != [] && |a| + |writes[0]| <= maximum {
      FillByLength(maximum, a + writes[0], b + writes[0], writes[1..]);
    }
  }

  /** Two lists of writes of the same lengths fit, or fail, alike. */
  ghost predicate SameLengths(v: seq<seq<byte>>, w: seq<seq<byte>>) {
    |v| == |w| && forall i :: 0 <= i < |v| ==> |v[i]| == |w[i]|
  }

  lemma {:induction false} FillAlike(maximum: nat, a: seq<byte>, b: seq<byte>, v: seq<seq<byte>>, w: seq<seq<byte>>)
    requires |a| == |b| && SameLengths(v, w)
    ensures Fill(maximum, a, v).Ok? <==> Fill(maximum, b, w).Ok?
    ensures Fill(maximum, a, v).Err? ==> Fill(maximum, a, v) == Fill(maximum, b, w)
    ensures |Join(v)| == |Join(w)|
    decreases |v|
  {
    if v != [] {
      assert SameLengths(v[1..], w[1..]);
      FillAlike(maximum, a + v[0], b + w[0], v[1..], w[1..]);
    }
  }

  lemma ReceiptByLength(art: Rendered, other: Rendered, maximum: nat, a: seq<byte>, b: seq<byte>)
    requires |a| == |b| && art.review == other.review && art.detailed == other.detailed && art.outcome == other.outcome
    ensures Receipt(art, maximum, a).Ok? <==> Receipt(other, maximum, b).Ok?
    ensures Receipt(art, maximum, a).Err? ==> Receipt(art, maximum, a) == Receipt(other, maximum, b)
  {
    var x, y, z := Join(art.review.writes), Join([DetailByte(art.detailed)]), Join(art.outcome.writes);
    FillByLength(maximum, a, b, art.review.writes);
    FillByLength(maximum, a + x, b + x, [DetailByte(art.detailed)]);
    FillByLength(maximum, a + x + y, b + x + y, art.outcome.writes);
  }

  /** Filling the slot beforehand changes no write's length. */
  lemma HeadersAlike(m: Meaning, art: Rendered, maximum: nat)
    requires art.binding.evidence.None?
    ensures var sealed := SealedArtifact(m, art);
            && SameLengths(HeaderWrites(art, true), HeaderWrites(sealed, false))
            && (Header(m, art, true, maximum).Ok? <==> Header(m, sealed, false, maximum).Ok?)
            && (Header(m, art, true, maximum).Err? ==> Header(m, art, true, maximum) == Header(m, sealed, false, maximum))
  {
    FillAlike(maximum, [], [], HeaderWrites(art, true), HeaderWrites(SealedArtifact(m, art), false));
  }

  /** The sealed artifact passes the evidence checks exactly when the unsealed one could be sealed. */
  lemma EvidenceAlike(m: Meaning, art: Rendered, maximum: nat, a: seq<byte>, b: seq<byte>)
    requires art.binding.evidence.None? && |a| == |b|
    ensures var x, y := Evidence(m, art, true, maximum, a), Evidence(m, SealedArtifact(m, art), false, maximum, b);
            && (x.Ok? <==> y.Ok?) && (x.Err? ==> x == y) && (x.Ok? ==> |x.value| == |y.value|)
  {
    var sealed := SealedArtifact(m, art);
    ReceiptByLength(art, sealed, maximum, a, b);
    if Receipt(art, maximum, a).Ok? {
      ReceiptBytes(art, maximum, a);
      ReceiptBytes(sealed, maximum, b);
    }
  }

  lemma WrittenAlike(m: Meaning, art: Rendered, maximum: nat)
    requires art.binding.evidence.None?
    ensures var x, y := Written(m, art, true, maximum), Written(m, SealedArtifact(m, art), false, maximum);
            (x.Ok? <==> y.Ok?) && (x.Err? ==> x == y)
  {
    var sealed := SealedArtifact(m, art);
    HeadersAlike(m, art, maximum);
    var x, y := Header(m, art, true, maximum), Header(m, sealed, false, maximum);
    if x.Ok? {
      FillAlike(maximum, [], [], HeaderWrites(art, true), HeaderWrites(sealed, false));
      EvidenceAlike(m, art, maximum, x.value, y.value);
      var x', y' := Evidence(m, art, true, maximum, x.value), Evidence(m, sealed, false, maximum, y.value);
      if x'.Ok? {
        FillByLength(maximum, x'.value, y'.value, art.tail.writes);
      }
    }
  }

  /** Patching the digest into the empty slot gives the header of the sealed artifact. */
  lemma PatchedHeader(m: Meaning, art: Rendered, after: seq<byte>)
    requires art.binding.evidence.None?
    ensures var bytes := Join(HeaderWrites(art, true)) + after;
            && SlotOffset(art.binding) + 32 <= |bytes|
            && Patched(bytes, SlotOffset(art.binding), EvidenceOf(m, art))
               == Join(HeaderWrites(SealedArtifact(m, art), false)) + after
  {
    var sealed, d := SealedArtifact(m, art), EvidenceOf(m, art);
    SlotEndsHeader(art, true);
    SlotEndsHeader(sealed, false);
    assert WithEvidence(sealed.binding, None) == WithEvidence(art.binding, None);
    var k, front := SlotOffset(art.binding), Join(HeaderWrites(art, true))[..SlotOffset(art.binding)];
    PatchBytes(front, EmptySlot(), d, after);
    assert Join(HeaderWrites(art, true)) == front + EmptySlot();
    assert Join(HeaderWrites(sealed, false)) == front + d;
  }

  lemma PatchBytes(front: seq<byte>, slot: Digest, d: Digest, after: seq<byte>)
    ensures Patched(front + slot + after, |front|, d) == front + d + after
  {
  }

  /**
   Single-pass sealing is encoding the sealed artifact: the same bytes when it succeeds, and
   the same error, at the same write, when it does not.
   */
  lemma RenderedRefines(m: Meaning, art: Rendered, maximum: nat)
    requires art.binding.evidence.None?
    ensures SealOnce(m, art, maximum) == EncodeRendered(m, SealedArtifact(m, art), maximum)
  {
    WrittenAlike(m, art, maximum);
    if Written(m, art, true, maximum).Ok? {
      WrittenBytes(m, art, true, maximum);
      WrittenBytes(m, SealedArtifact(m, art), false, maximum);
      PatchedHeader(m, art, AfterHeader(art));
    }
  }

  /** The evidence pass writes its version byte and the two sections, if they fit and neither refuses. */
  lemma TwoSectionsFill(x: Section, z: Section, maximum: nat)
    requires x.refusal.None? && z.refusal.None? && |[1] + Join(x.writes) + Join(z.writes)| <= maximum
    ensures Fill(maximum, [], [[1]]) == Ok([1])
    ensures FillSection(maximum, [1], x) == Ok([1] + Join(x.writes))
    ensures FillSection(maximum, [1] + Join(x.writes), z) == Ok(Preimage(Join(x.writes), Join(z.writes)))
  {
    hide Fill;
    assert Join([[1]]) == [1];
    assert [] + [1] == [1];
    assert [1] + Join(x.writes) + Join(z.writes) == Preimage(Join(x.writes), Join(z.writes));
  }

  /** A pass that is given less than the whole artifact stays within the bound. */
  lemma EvidencePassFits(m: Meaning, art: Rendered, seal: bool, maximum: nat)
    requires Modern(art, seal) && Written(m, art, seal, maximum).Ok?
    ensures EvidencePass(m, art, maximum) == Ok(EvidenceOf(m, art))
  {
    hide Written, Join, Fill, FillSection, HeaderWrites, SlotOffset, Preimage;
    WrittenBytes(m, art, seal, maximum);
    WrittenFits(m, art, seal, maximum);
    NothingRefused(m, art, seal, maximum);
    SlotEndsHeader(art, seal);
    var x, z := Join(art.review.writes), Join(art.outcome.writes);
    assert |[1] + x + z| <= maximum;
    TwoSectionsFill(art.review, art.outcome, maximum);
  }

  lemma WrittenFits(m: Meaning, art: Rendered, seal: bool, maximum: nat)
    requires Written(m, art, seal, maximum).Ok?
    ensures |Written(m, art, seal, maximum).value| <= maximum
  {
  }

  lemma NothingRefused(m: Meaning, art: Rendered, seal: bool, maximum: nat)
    requires Written(m, art, seal, maximum).Ok?
    ensures art.review.refusal.None? && art.outcome.refusal.None? && art.tail.refusal.None?
    ensures Modern(art, seal) ==> art.sound
    ensures Modern(art, seal) && !seal ==> art.binding.evidence == Some(EvidenceOf(m, art))
    ensures !Modern(art, seal) ==> !Inexpressible(art)
  {
  }

  /** And it is what two passes produce. */
  lemma OnceIsTwice(m: Meaning, art: Rendered, maximum: nat)
    requires art.binding.evidence.None?
    ensures SealOnce(m, art, maximum).Ok? <==> TwoPassRendered(m, art, maximum).Ok?
    ensures SealOnce(m, art, maximum).Ok? ==> SealOnce(m, art, maximum) == TwoPassRendered(m, art, maximum)
  {
    RenderedRefines(m, art, maximum);
    if SealOnce(m, art, maximum).Ok? {
      EvidencePassFits(m, art, true, maximum);
    } else if EvidencePass(m, art, maximum).Ok? {
      EvidencePassDigest(m, art, maximum);
    }
  }

  lemma EvidencePassDigest(m: Meaning, art: Rendered, maximum: nat)
    requires EvidencePass(m, art, maximum).Ok?
    ensures EvidencePass(m, art, maximum).value == EvidenceOf(m, art)
  {
    assert Join([[1]]) == [1];
    var x, z := Join(art.review.writes), Join(art.outcome.writes);
    assert [] + [1] + x + z == Preimage(x, z);
  }

  /** Patching changes no size. */
  lemma SealOnceSize(m: Meaning, art: Rendered, maximum: nat)
    requires art.binding.evidence.None?
    ensures match Written(m, art, true, maximum)
            case Ok(w) => SealOnce(m, art, maximum).Ok? && |SealOnce(m, art, maximum).value| == |w|
            case Err(e) => SealOnce(m, art, maximum) == Err(e)
  {
    if Written(m, art, true, maximum).Ok? {
      WrittenBytes(m, art, true, maximum);
      SlotEndsHeader(art, true);
    }
  }

  /** Header, binding, and what follows. */
  lemma RenderedShape(m: Meaning, art: Rendered, maximum: nat)
    requires EncodeRendered(m, art, maximum).Ok?
    ensures var bytes := EncodeRendered(m, art, maximum).value;
            && 8 <= |bytes| <= maximum && bytes[..8] == MagicFor(art.binding, art.binding.evidence.Some?)
            && bytes[8..] == Join(BindingWrites(art.binding)) + AfterHeader(art)
  {
    hide Written, Fill, FillSection, OptionalDigest, Fixed;
    WrittenBytes(m, art, false, maximum);
    WrittenFits(m, art, false, maximum);
    assert HeaderWrites(art, false)[1..] == BindingWrites(art.binding);
  }
}
