/**
 The pending artifact as a whole: encoded, sealed in one pass or in two, and decoded again with
 its seal checked.
 */
module PendingArtifact {
  import opened Types
  import opened ByteCodec
  import opened Paths
  import opened OperationLog
  import opened ArtifactCodec
  import opened ArtifactFields
  import opened Sealing
  import P = PlanCodec

  /** A pending transaction and its receipt. */
  datatype Pending = Pending(
    binding: Binding, transaction: Digest, review: Review, decision: Decision, output: Output, execution: Stats,
    timings: Timings, diff: seq<Change>, changes: seq<Change>, observed: seq<Observation>, written: seq<Precondition>)

  // ---------------------------------------------------------------- encoding

  function OutcomeSection(l: Limits, art: Pending, modern: bool): Section {
    Then(DecisionSection(art.decision), Then(OutputSection(l, art.output, modern), StatsSection(art.execution)))
  }

  /** Diff, reads and writes. */
  function ContentsSection(l: Limits, art: Pending): Section {
    Then(Collection(art.diff, l.maxEntries, ChangeWriter(l)),
      Then(Collection(art.observed, l.maxDependencies, ObservationWriter(l)),
           Collection(art.written, l.maxDependencies, PreconditionWriter(l))))
  }

  function TailSection(l: Limits, art: Pending): Section {
    Then(TimingsSection(art.timings), ContentsSection(l, art))
  }

  /** Evidence is about a review that is whole, and about the intent that the binding names. */
  predicate Sound(m: Meaning, b: Binding, r: Review) {
    r.complete && !r.truncated && b.intent == if r.intent.Some? then Some(m.intent(r.intent.value)) else None
  }

  predicate ModernEffect(e: EffectEvent) {
    e.effect.ModifyMetadata? || e.origin == BashCall
  }

  predicate ModernOnly(art: Pending) {
    || (exists i :: 0 <= i < |art.review.effects| && ModernEffect(art.review.effects[i]))
    || (art.decision.PendingApproval? && PermissionChange in art.decision.manifest.flags)
  }

  function Render(m: Meaning, l: Limits, art: Pending, modern: bool): Rendered {
    Rendered(art.binding, art.transaction, ReviewSection(l, art.review), art.changes != [], OutcomeSection(l, art, modern),
             TailSection(l, art), Sound(m, art.binding, art.review), ModernOnly(art))
  }

  function EncodePending(m: Meaning, l: Limits, art: Pending): Result<seq<byte>, ArtifactError> {
    EncodeRendered(m, Render(m, l, art, art.binding.evidence.Some?), l.maxBytes)
  }

  function Sealed(m: Meaning, art: Pending, evidence: Digest): Pending {
    Pending(WithEvidence(art.binding, Some(evidence)), m.identity(WithEvidence(art.binding, Some(evidence))),
            art.review, art.decision, art.output, art.execution, art.timings, art.diff, art.changes, art.observed, art.written)
  }

  /** Sealing in one pass. */
  function SealPending(m: Meaning, l: Limits, art: Pending): Result<seq<byte>, ArtifactError> {
    SealOnce(m, Render(m, l, art, true), l.maxBytes)
  }

  /**
   The evidence digest by a pass of its own. It has its own way with decisions: a denial has
   evidence, although it can never be pending.
   */
  function ExecutionEvidence(m: Meaning, l: Limits, review: Review, decision: Decision, output: Output, execution: Stats)
    : Result<Digest, ArtifactError>
  {
    var begun :- Fill(l.maxBytes, [], [[1]]);
    var reviewed :- FillSection(l.maxBytes, begun, ReviewSection(l, review));
    var decided :- FillSection(l.maxBytes, reviewed, DecisionEvidence(l, decision));
    var reported :- FillSection(l.maxBytes, decided, OutputSection(l, output, true));
    var counted :- FillSection(l.maxBytes, reported, StatsSection(execution));
    Ok(m.evidence(counted))
  }

  function EvidenceFor(m: Meaning, l: Limits, art: Pending): Result<Digest, ArtifactError> {
    ExecutionEvidence(m, l, art.review, art.decision, art.output, art.execution)
  }

  /** The straightforward way: the evidence first, then the encoding of the sealed artifact. */
  function SealTwice(m: Meaning, l: Limits, art: Pending): Result<seq<byte>, ArtifactError> {
    var digest :- EvidenceFor(m, l, art);
    EncodePending(m, l, Sealed(m, art, digest))
  }

  // ------------------------------------------------- one pass and two passes

  lemma {:induction false} FillConcat(maximum: nat, sofar: seq<byte>, a: seq<seq<byte>>, b: seq<seq<byte>>)
    ensures Fill(maximum, sofar, a + b)
            == match Fill(maximum, sofar, a)
               case Ok(v) => Fill(maximum, v, b)
               case Err(e) => Err(e)
    decreases |a|
  {
    if a == [] {
      assert a + b == b;
    } else if |sofar| + |a[0]| <= maximum {
      assert (a + b)[1..] == a[1..] + b;
      FillConcat(maximum, sofar + a[0], a[1..], b);
    }
  }

  /** Two groups written as one. */
  lemma FillThen(maximum: nat, sofar: seq<byte>, a: Section, b: Section)
    ensures FillSection(maximum, sofar, Then(a, b))
            == match FillSection(maximum, sofar, a)
               case Ok(v) => FillSection(maximum, v, b)
               case Err(e) => Err(e)
  {
    if a.refusal.None? {
      FillConcat(maximum, sofar, a.writes, b.writes);
    }
  }

  /** For a decision that may be pending, the evidence pass covers just what the encoder hashes. */
  lemma EvidenceIsRendered(m: Meaning, l: Limits, art: Pending)
    requires !art.decision.Denied?
    ensures EvidenceFor(m, l, art) == EvidencePass(m, Render(m, l, art, true), l.maxBytes)
  {
    hide ReviewSection, OutputSection, StatsSection, OutcomeSection, DecisionSection;
    var begun := Fill(l.maxBytes, [], [[1]]);
    if begun.Ok? {
      var reviewed := FillSection(l.maxBytes, begun.value, ReviewSection(l, art.review));
      if reviewed.Ok? {
        OutcomeInTurn(l, art, reviewed.value);
      }
    }
  }

  lemma OutcomeInTurn(l: Limits, art: Pending, sofar: seq<byte>)
    ensures FillSection(l.maxBytes, sofar, OutcomeSection(l, art, true))
            == match FillSection(l.maxBytes, sofar, DecisionSection(art.decision))
               case Err(e) => Err(e)
               case Ok(decided) =>
                 match FillSection(l.maxBytes, decided, OutputSection(l, art.output, true))
                 case Err(f) => Err(f)
                 case Ok(reported) => FillSection(l.maxBytes, reported, StatsSection(art.execution))
  {
    var after := Then(OutputSection(l, art.output, true), StatsSection(art.execution));
    FillThen(l.maxBytes, sofar, DecisionSection(art.decision), after);
    var decided := FillSection(l.maxBytes, sofar, DecisionSection(art.decision));
    if decided.Ok? {
      FillThen(l.maxBytes, decided.value, OutputSection(l, art.output, true), StatsSection(art.execution));
    }
  }

  /** The sealed artifact is rendered as the artifact under the seal. */
  lemma SealedRenders(m: Meaning, l: Limits, art: Pending, evidence: Digest)
    ensures Render(m, l, Sealed(m, art, evidence), true)
            == Rebound(Render(m, l, art, true), m, WithEvidence(art.binding, Some(evidence)))
  {
  }

  /** A denied transaction is sealed in neither way. */
  lemma DeniedIsRefused(m: Meaning, l: Limits, art: Pending, seal: bool)
    requires art.decision.Denied?
    ensures Written(m, Render(m, l, art, true), seal, l.maxBytes).Err?
  {
    var r := Render(m, l, art, true);
    assert r.outcome.refusal == Some(Unsupported);
    if Written(m, r, seal, l.maxBytes).Ok? {
      NothingRefused(m, r, seal, l.maxBytes);
    }
  }

  /** Sealing in one pass succeeds exactly when the two passes do, with the same bytes. */
  lemma SealOnceIsTwoPass(m: Meaning, l: Limits, art: Pending)
    requires art.binding.evidence.None?
    ensures SealPending(m, l, art).Ok? <==> SealTwice(m, l, art).Ok?
    ensures SealPending(m, l, art).Ok? ==> SealPending(m, l, art) == SealTwice(m, l, art)
  {
    var r := Render(m, l, art, true);
    var digest := EvidenceFor(m, l, art);
    if art.decision.Denied? {
      DeniedIsRefused(m, l, art, true);
      if digest.Ok? {
        DeniedIsRefused(m, l, Sealed(m, art, digest.value), false);
      }
    } else {
      EvidenceIsRendered(m, l, art);
      OnceIsTwice(m, r, l.maxBytes);
      if digest.Ok? {
        SealedRenders(m, l, art, digest.value);
      }
    }
  }

  /** And what it writes is the encoding of the sealed artifact; when it fails, so does that, at the same write. */
  lemma SealOnceRefines(m: Meaning, l: Limits, art: Pending)
    requires art.binding.evidence.None?
    ensures SealPending(m, l, art)
            == EncodePending(m, l, Sealed(m, art, EvidenceOf(m, Render(m, l, art, true))))
  {
    var r := Render(m, l, art, true);
    RenderedRefines(m, r, l.maxBytes);
    SealedRenders(m, l, art, EvidenceOf(m, r));
  }

  // ------------------------------------------------------------- the operations

  method SealPendingAndEncode(m: Meaning, l: Limits, art: Pending)
    returns (r: Result<seq<byte>, ArtifactError>, sealed: Pending)
    ensures r == SealPending(m, l, art)
    ensures r.Ok? ==> EvidenceFor(m, l, art).Ok? && sealed == Sealed(m, art, EvidenceFor(m, l, art).value)
    ensures r.Err? ==> sealed == art
  {
    sealed := art;
    if art.binding.evidence.Some? {
      return Err(EvidenceMismatch), sealed;
    }
    var rendered := Render(m, l, art, true);
    var output := new Encoder(true, false, l.maxBytes);
    var written, digest, slot := WritePending(m, rendered, true, output);
    if written.Err? {
      return Err(written.error), sealed;
    }
    WrittenBytes(m, rendered, true, l.maxBytes);
    SlotEndsHeader(rendered, true);
    SealedDigest(m, l, art);
    var bytes := Patched(output.stored, slot, digest.value);
    return Ok(bytes), Sealed(m, art, digest.value);
  }

  /** The digest patched into the slot is the one the evidence pass would have computed. */
  lemma SealedDigest(m: Meaning, l: Limits, art: Pending)
    requires Written(m, Render(m, l, art, true), true, l.maxBytes).Ok?
    ensures EvidenceFor(m, l, art) == Ok(EvidenceOf(m, Render(m, l, art, true)))
  {
    if art.decision.Denied? {
      DeniedIsRefused(m, l, art, true);
    } else {
      EvidenceIsRendered(m, l, art);
      EvidencePassFits(m, Render(m, l, art, true), true, l.maxBytes);
    }
  }

  /** Sealing without keeping the bytes: the size is that of the sealed encoding. */
  method SealPendingAndSize(m: Meaning, l: Limits, art: Pending)
    returns (r: Result<nat, ArtifactError>, sealed: Pending)
    ensures match SealPending(m, l, art)
            case Ok(b) => r == Ok(|b|) && EvidenceFor(m, l, art).Ok? && sealed == Sealed(m, art, EvidenceFor(m, l, art).value)
            case Err(e) => r == Err(e) && sealed == art
  {
    sealed := art;
    if art.binding.evidence.Some? {
      return Err(EvidenceMismatch), sealed;
    }
    var rendered := Render(m, l, art, true);
    SealOnceSize(m, rendered, l.maxBytes);
    var output := new Encoder(false, false, l.maxBytes);
    var written, digest, _ := WritePending(m, rendered, true, output);
    if written.Err? {
      return Err(written.error), sealed;
    }
    SealedDigest(m, l, art);
    return Ok(output.observed), Sealed(m, art, digest.value);
  }

  /** The rest of an evidence pass. */
  function FinishEvidence(m: Meaning, l: Limits, sofar: seq<byte>, sections: seq<Section>): Result<Digest, ArtifactError>
    decreases |sections|
  {
    if sections == [] then Ok(m.evidence(sofar))
    else
      var b :- FillSection(l.maxBytes, sofar, sections[0]);
      FinishEvidence(m, l, b, sections[1..])
  }

  /** What an evidence pass covers, after the version of its codec. */
  function EvidenceSections(l: Limits, review: Review, decision: Decision, output: Output, execution: Stats): seq<Section> {
    [ReviewSection(l, review), DecisionEvidence(l, decision), OutputSection(l, output, true), StatsSection(execution)]
  }

  lemma FilledSection(maximum: nat, sofar: seq<byte>, s: Section)
    ensures FillSection(maximum, sofar, s).Ok? ==> FillSection(maximum, sofar, s).value == sofar + Join(s.writes)
  {
  }

  lemma EvidenceNeedsVersion(m: Meaning, l: Limits, review: Review, decision: Decision, output: Output, execution: Stats)
    ensures var begun := Fill(l.maxBytes, [], [[1]]);
            begun.Err? ==> ExecutionEvidence(m, l, review, decision, output, execution) == Err(begun.error)
  {
  }

  /** The evidence digest, by an encoder that hashes and stores nothing. */
  method ExecutionEvidenceDigest(m: Meaning, l: Limits, review: Review, decision: Decision, output: Output, execution: Stats)
    returns (r: Result<Digest, ArtifactError>)
    ensures r == ExecutionEvidence(m, l, review, decision, output, execution)
  {
    hide EvidenceSections, FillSection, ExecutionEvidence, Join;
    var encoder := new Encoder(false, true, l.maxBytes);
    var written := encoder.ExtendAll([[1]]);
    EvidenceNeedsVersion(m, l, review, decision, output, execution);
    if written.Err? {
      return Err(written.error);
    }
    var sections := EvidenceSections(l, review, decision, output, execution);
    ghost var start := encoder.emitted;
    EvidenceInTurn(m, l, review, decision, output, execution, start);
    for i := 0 to |sections|
      invariant encoder.Valid() && encoder.hashing && encoder.hashed == encoder.emitted
      invariant fresh(encoder.sink) && fresh(encoder.sink.buffer)
      invariant FinishEvidence(m, l, start, sections) == FinishEvidence(m, l, encoder.emitted, sections[i..])
    {
      assert sections[i..][1..] == sections[i + 1..];
      FilledSection(l.maxBytes, encoder.emitted, sections[i]);
      written := encoder.ExtendSection(sections[i]);
      if written.Err? {
        return Err(written.error);
      }
    }
    var digest := encoder.TakeDigest(m.evidence);
    return Ok(digest);
  }

  lemma EvidenceInTurn(m: Meaning, l: Limits, review: Review, decision: Decision, output: Output, execution: Stats, start: seq<byte>)
    requires Fill(l.maxBytes, [], [[1]]) == Ok(start)
    ensures ExecutionEvidence(m, l, review, decision, output, execution)
            == FinishEvidence(m, l, start, EvidenceSections(l, review, decision, output, execution))
  {
    hide ReviewSection, DecisionEvidence, OutputSection, StatsSection, FillSection;
    var a, b, c, d := ReviewSection(l, review), DecisionEvidence(l, decision), OutputSection(l, output, true), StatsSection(execution);
    assert EvidenceSections(l, review, decision, output, execution) == [a] + [b, c, d] && [b, c, d] == [b] + [c, d] && [c, d] == [c] + [d] && [d] == [d] + [];
    FinishOne(m, l, start, a, [b, c, d]);
    var reviewed := FillSection(l.maxBytes, start, a);
    if reviewed.Ok? {
      FinishOne(m, l, reviewed.value, b, [c, d]);
      var decided := FillSection(l.maxBytes, reviewed.value, b);
      if decided.Ok? {
        FinishOne(m, l, decided.value, c, [d]);
        var reported := FillSection(l.maxBytes, decided.value, c);
        if reported.Ok? {
          FinishOne(m, l, reported.value, d, []);
        }
      }
    }
  }

  lemma FinishOne(m: Meaning, l: Limits, sofar: seq<byte>, s: Section, rest: seq<Section>)
    ensures FinishEvidence(m, l, sofar, [s] + rest)
            == if FillSection(l.maxBytes, sofar, s).Err? then Err(FillSection(l.maxBytes, sofar, s).error)
               else FinishEvidence(m, l, FillSection(l.maxBytes, sofar, s).value, rest)
  {
    assert ([s] + rest)[1..] == rest;
  }

  // ---------------------------------------------------------------- decoding

  function ReadHooks(s: seq<byte>, hooked: bool): P.Parsed<(Option<Digest>, Option<Digest>)> {
    if !hooked then P.Got((None, None), s)
    else
      var (invocation, s) :- ReadOptionalDigest(s);
      var (hook, s) :- ReadOptionalDigest(s);
      P.Got((invocation, hook), s)
  }

  function ReadEvidence(s: seq<byte>, modern: bool): P.Parsed<Option<Digest>> {
    if !modern then P.Got(None, s)
    else
      var (d, s) :- P.ReadDigest(s);
      P.Got(Some(d), s)
  }

  function ReadBinding(s: seq<byte>, hooked: bool, modern: bool): P.Parsed<Binding> {
    var (snapshot, s) :- P.ReadDigest(s);
    var (diff, s) :- P.ReadDigest(s);
    var (readSet, s) :- P.ReadDigest(s);
    var (writeSet, s) :- P.ReadDigest(s);
    var (program, s) :- P.ReadDigest(s);
    var (policy, s) :- P.ReadDigest(s);
    var (config, s) :- P.ReadDigest(s);
    var (intent, s) :- ReadOptionalDigest(s);
    var (hooks, s) :- ReadHooks(s, hooked);
    var (evidence, s) :- ReadEvidence(s, modern);
    P.Got(Binding(snapshot, diff, readSet, writeSet, program, policy, config, intent, hooks.0, hooks.1, evidence), s)
  }

  /** The fields in the order in which they follow the header. Of the receipt only what cannot be derived is stored. */
  function ReadFields(m: Meaning, l: Limits, s: seq<byte>, hooked: bool, modern: bool): P.Parsed<Pending> {
    var (binding, s) :- ReadBinding(s, hooked, modern);
    var (review, s) :- ReadReview(l, s, modern);
    var (detailed, s) :- ReadBool(s);
    var (outcome, s) :- ReadOutcome(l, m.take, s, modern);
    var (timings, s) :- ReadTimings(s);
    var (contents, s) :- ReadContents(l, s, modern);
    P.Got(Assembled(m, binding, review, detailed, outcome, timings, contents), s)
  }

  /** An artifact from its fields; the identity and the detail of the receipt are derived. */
  function Assembled(m: Meaning, binding: Binding, review: Review, detailed: bool, outcome: (Decision, Output, Stats),
                     timings: Timings, contents: (seq<Change>, seq<Observation>, seq<Precondition>)): Pending
  {
    Pending(binding, m.identity(binding), review, outcome.0, outcome.1, outcome.2, timings, contents.0,
            if detailed then contents.0 else [], contents.1, contents.2)
  }

  function ReadOutcome(l: Limits, take: Taker, s: seq<byte>, modern: bool): P.Parsed<(Decision, Output, Stats)> {
    var (decision, s) :- ReadDecision(s, modern);
    var (output, s) :- ReadOutput(l, take, s, modern);
    var (execution, s) :- ReadStats(s);
    P.Got((decision, output, execution), s)
  }

  function ReadContents(l: Limits, s: seq<byte>, modern: bool): P.Parsed<(seq<Change>, seq<Observation>, seq<Precondition>)> {
    var (diff, s) :- ReadDiff(l, s, modern);
    var (observed, s) :- ReadReadSet(l, s);
    var (written, s) :- ReadWriteSet(l, s);
    P.Got((diff, observed, written), s)
  }

  /** The binding names the diff and the dependencies that the artifact carries. */
  predicate BindsContent(m: Meaning, art: Pending) {
    && art.binding.diff == m.diff(art.diff)
    && art.binding.readSet == m.readSet(set o | o in art.observed)
    && art.binding.writeSet == m.writeSet(set w | w in art.written)
  }

  /** The checks that make a decoded artifact trustworthy: the evidence is computed afresh from what was decoded. */
  function Validated(m: Meaning, l: Limits, art: Pending): Result<Pending, ArtifactError> {
    if !BindsContent(m, art) then Err(BindingMismatch)
    else if art.binding.evidence.None? then Ok(art)
    else if !Sound(m, art.binding, art.review) then Err(EvidenceMismatch)
    else
      var digest :- EvidenceFor(m, l, art);
      if art.binding.evidence != Some(digest) then Err(EvidenceMismatch) else Ok(art)
  }

  function DecodePending(m: Meaning, l: Limits, bytes: seq<byte>): Result<Pending, ArtifactError> {
    if |bytes| > l.maxBytes then Err(Limit(|bytes|))
    else if |bytes| < 8 || bytes[..8] !in {MAGIC_HOOKED, MAGIC_SEALED, MAGIC_UNSEALED} then Err(Corrupt)
    else
      var magic := bytes[..8];
      match ReadFields(m, l, bytes[8..], magic == MAGIC_HOOKED, magic != MAGIC_UNSEALED)
      case Bad(_) => Err(Corrupt)
      case Got(art, rest) => if rest != [] then Err(Corrupt) else Validated(m, l, art)
  }

  // ------------------------------------------------------- reading it back

  lemma HooksBack(b: Binding, rest: seq<byte>)
    ensures ReadHooks(Join(if Hooked(b) then OptionalDigest(b.invocation).writes + OptionalDigest(b.hook).writes else []) + rest, Hooked(b))
            == P.Got((b.invocation, b.hook), rest)
  {
    if Hooked(b) {
      JoinConcat(OptionalDigest(b.invocation).writes, OptionalDigest(b.hook).writes);
      Nest(Bytes(OptionalDigest(b.invocation)), Bytes(OptionalDigest(b.hook)), rest);
      OptionalDigestBack(b.invocation, Bytes(OptionalDigest(b.hook)) + rest);
      OptionalDigestBack(b.hook, rest);
    } else {
      assert [] + rest == rest;
    }
  }

  lemma EvidenceBack(b: Binding, rest: seq<byte>)
    ensures ReadEvidence(Join(if b.evidence.Some? then [b.evidence.value] else []) + rest, b.evidence.Some?) == P.Got(b.evidence, rest)
  {
    if b.evidence.Some? {
      assert [b.evidence.value][1..] == [];
      assert Join([b.evidence.value]) == b.evidence.value;
      P.DigestBack(b.evidence.value, rest);
    } else {
      assert [] + rest == rest;
    }
  }

  lemma JoinFixed(b: Binding)
    ensures Join(Fixed(b)) == b.snapshot + b.diff + b.readSet + b.writeSet + b.program + b.policy + b.config
  {
    var first, second, third := [b.snapshot, b.diff], [b.readSet, b.writeSet], [b.program, b.policy];
    assert Fixed(b) == first + (second + (third + [b.config]));
    JoinConcat(first, second + (third + [b.config]));
    JoinConcat(second, third + [b.config]);
    JoinConcat(third, [b.config]);
    JoinTwo(b.snapshot, b.diff);
    JoinTwo(b.readSet, b.writeSet);
    JoinTwo(b.program, b.policy);
    assert [b.config][1..] == [];
    assert Join([b.config]) == b.config;
    P.Nest7(b.snapshot, b.diff, b.readSet, b.writeSet, b.program, b.policy, b.config, []);
    P.Nest4(b.snapshot, b.diff, b.readSet + b.writeSet, b.program + b.policy, b.config);
    P.Nest4(b.readSet, b.writeSet, b.program, b.policy, b.config);
  }

  lemma JoinTwo(x: seq<byte>, y: seq<byte>)
    ensures Join([x, y]) == x + y
  {
    assert [x, y][1..] == [y] && [y][1..] == [];
    assert Join([y]) == y;
  }

  lemma FixedBack(b: Binding, rest: seq<byte>, hooked: bool, modern: bool)
    ensures ReadBinding(Join(Fixed(b)) + rest, hooked, modern)
            == match ReadRest(b, rest, hooked, modern)
               case Bad(e) => P.Bad(e)
               case Got(v, r) => P.Got(v, r)
  {
    JoinFixed(b);
    P.Nest7(b.snapshot, b.diff, b.readSet, b.writeSet, b.program, b.policy, b.config, rest);
    var r6 := b.config + rest;
    var r5 := b.policy + r6;
    var r4 := b.program + r5;
    var r3 := b.writeSet + r4;
    var r2 := b.readSet + r3;
    P.DigestBack(b.snapshot, b.diff + r2);
    P.DigestBack(b.diff, r2);
    P.DigestBack(b.readSet, r3);
    P.DigestBack(b.writeSet, r4);
    P.DigestBack(b.program, r5);
    P.DigestBack(b.policy, r6);
    P.DigestBack(b.config, rest);
  }

  /** The optional part of a binding whose fixed part is already known. */
  function ReadRest(b: Binding, s: seq<byte>, hooked: bool, modern: bool): P.Parsed<Binding> {
    var (intent, s) :- ReadOptionalDigest(s);
    var (hooks, s) :- ReadHooks(s, hooked);
    var (evidence, s) :- ReadEvidence(s, modern);
    P.Got(Binding(b.snapshot, b.diff, b.readSet, b.writeSet, b.program, b.policy, b.config, intent, hooks.0, hooks.1, evidence), s)
  }

  lemma BindingBack(b: Binding, rest: seq<byte>)
    ensures ReadBinding(Join(BindingWrites(b)) + rest, Hooked(b), b.evidence.Some?) == P.Got(b, rest)
  {
    var hooks := if Hooked(b) then OptionalDigest(b.invocation).writes + OptionalDigest(b.hook).writes else [];
    var evidence := if b.evidence.Some? then [b.evidence.value] else [];
    JoinConcat(Fixed(b) + OptionalDigest(b.intent).writes + hooks, evidence);
    JoinConcat(Fixed(b) + OptionalDigest(b.intent).writes, hooks);
    JoinConcat(Fixed(b), OptionalDigest(b.intent).writes);
    P.Nest4(Join(Fixed(b)), Bytes(OptionalDigest(b.intent)), Join(hooks), Join(evidence), rest);
    var r2 := Join(evidence) + rest;
    var r1 := Join(hooks) + r2;
    FixedBack(b, Bytes(OptionalDigest(b.intent)) + r1, Hooked(b), b.evidence.Some?);
    OptionalDigestBack(b.intent, r1);
    HooksBack(b, r2);
    EvidenceBack(b, rest);
  }

  /** Everything about an artifact that its writer leaves to its types and its reader checks. */
  predicate WellMade(m: Meaning, art: Pending, modern: bool) {
    && GoodReview(art.review, modern) && GoodDecision(art.decision, modern) && TakesBack(m.take, art.output)
    && GoodDiff(art.diff, modern) && GoodReads(art.observed) && GoodWrites(art.written)
    && (art.changes == art.diff || art.changes == [])
    && art.transaction == m.identity(art.binding)
  }

  lemma OutcomeBack(m: Meaning, l: Limits, art: Pending, modern: bool, rest: seq<byte>)
    requires GoodDecision(art.decision, modern) && TakesBack(m.take, art.output) && OutcomeSection(l, art, modern).refusal.None?
    ensures ReadOutcome(l, m.take, Bytes(OutcomeSection(l, art, modern)) + rest, modern)
            == P.Got((art.decision, art.output, art.execution), rest)
  {
    var output, stats := OutputSection(l, art.output, modern), StatsSection(art.execution);
    Next(DecisionSection(art.decision), Then(output, stats), rest);
    Next(output, stats, rest);
    DecisionBack(art.decision, modern, Bytes(Then(output, stats)) + rest);
    OutputBack(l, m.take, art.output, modern, Bytes(stats) + rest);
    StatsBack(art.execution, rest);
  }

  lemma ContentsBack(l: Limits, art: Pending, modern: bool, rest: seq<byte>)
    requires GoodDiff(art.diff, modern) && GoodReads(art.observed) && GoodWrites(art.written)
    requires ContentsSection(l, art).refusal.None?
    ensures ReadContents(l, Bytes(ContentsSection(l, art)) + rest, modern) == P.Got((art.diff, art.observed, art.written), rest)
  {
    var diff := Collection(art.diff, l.maxEntries, ChangeWriter(l));
    var observed := Collection(art.observed, l.maxDependencies, ObservationWriter(l));
    var written := Collection(art.written, l.maxDependencies, PreconditionWriter(l));
    Next(diff, Then(observed, written), rest);
    Next(observed, written, rest);
    DiffBack(l, art.diff, modern, Bytes(Then(observed, written)) + rest);
    ReadSetBack(l, art.observed, Bytes(written) + rest);
    WriteSetBack(l, art.written, rest);
  }

  /** Detail is recorded as one byte: all of the diff, or nothing. */
  lemma DetailBack(art: Pending, rest: seq<byte>)
    requires art.changes == art.diff || art.changes == []
    ensures ReadBool(DetailByte(art.changes != []) + rest) == P.Got(art.changes != [], rest)
    ensures art.changes == if art.changes != [] then art.diff else []
  {
    BoolBack(art.changes != [], rest);
  }

  lemma FieldsBack(m: Meaning, l: Limits, art: Pending, modern: bool)
    requires WellMade(m, art, modern) && modern == art.binding.evidence.Some?
    requires var r := Render(m, l, art, modern);
             r.review.refusal.None? && r.outcome.refusal.None? && r.tail.refusal.None?
    ensures ReadFields(m, l, Join(BindingWrites(art.binding)) + AfterHeader(Render(m, l, art, modern)), Hooked(art.binding), modern)
            == P.Got(art, [])
  {
    hide GoodReview, GoodDecision, TakesBack, GoodDiff, GoodReads, GoodWrites, ReviewSection, OutcomeSection, TimingsSection, ContentsSection, ReadBinding, ReadReview, ReadBool, ReadOutcome, ReadTimings, ReadContents, BindingWrites;
    var review, outcome, tail := Bytes(ReviewSection(l, art.review)), Bytes(OutcomeSection(l, art, modern)), Bytes(TailSection(l, art));
    var detail := DetailByte(art.changes != []);
    var timings, contents := TimingsSection(art.timings), ContentsSection(l, art);
    P.Nest4(review, detail, outcome, tail, []);
    assert tail + [] == tail;
    var r2 := outcome + tail;
    var r1 := detail + r2;
    assert AfterHeader(Render(m, l, art, modern)) == review + r1;
    BindingBack(art.binding, review + r1);
    ReviewBack(l, art.review, modern, r1);
    DetailBack(art, r2);
    OutcomeBack(m, l, art, modern, tail);
    Next(timings, contents, []);
    TimingsBack(art.timings, Bytes(contents) + []);
    ContentsBack(l, art, modern, []);
  }

  /** The evidence in the binding of what was encoded is the evidence of its fields. */
  lemma EncodedIsValid(m: Meaning, l: Limits, art: Pending)
    requires EncodePending(m, l, art).Ok? && BindsContent(m, art)
    ensures Validated(m, l, art) == Ok(art)
  {
    if art.binding.evidence.Some? {
      var r := Render(m, l, art, true);
      NothingRefused(m, r, false, l.maxBytes);
      if art.decision.Denied? {
        DeniedIsRefused(m, l, art, false);
      } else {
        EvidenceIsRendered(m, l, art);
        EvidencePassFits(m, r, false, l.maxBytes);
      }
    }
  }

  /** What was encoded is decoded as exactly that artifact, its seal checked if it has one. */
  lemma EncodedDecodes(m: Meaning, l: Limits, art: Pending)
    requires WellMade(m, art, art.binding.evidence.Some?) && BindsContent(m, art) && EncodePending(m, l, art).Ok?
    ensures DecodePending(m, l, EncodePending(m, l, art).value) == Ok(art)
  {
    hide WellMade, BindsContent, Validated, ReadFields, Join, Written;
    var modern := art.binding.evidence.Some?;
    RenderedShape(m, Render(m, l, art, modern), l.maxBytes);
    NothingRefused(m, Render(m, l, art, modern), false, l.maxBytes);
    FieldsBack(m, l, art, modern);
    EncodedIsValid(m, l, art);
    MagicsDiffer();
  }

  lemma MagicsDiffer()
    ensures MAGIC_SEALED != MAGIC_HOOKED && MAGIC_SEALED != MAGIC_UNSEALED && MAGIC_HOOKED != MAGIC_UNSEALED
  {
    assert MAGIC_SEALED[7] != MAGIC_HOOKED[7] && MAGIC_SEALED[7] != MAGIC_UNSEALED[7] && MAGIC_HOOKED[7] != MAGIC_UNSEALED[7];
  }

  /** The bytes of a single-pass seal decode to the sealed artifact. */
  lemma SealedDecodes(m: Meaning, l: Limits, art: Pending)
    requires art.binding.evidence.None? && SealPending(m, l, art).Ok? && BindsContent(m, art)
    requires WellMade(m, art, true)
    ensures EvidenceFor(m, l, art).Ok?
    ensures DecodePending(m, l, SealPending(m, l, art).value) == Ok(Sealed(m, art, EvidenceFor(m, l, art).value))
  {
    SealedDigest(m, l, art);
    SealOnceRefines(m, l, art);
    EncodedDecodes(m, l, Sealed(m, art, EvidenceFor(m, l, art).value));
  }

  // -------------------------------------------------- what is accepted at all

  /** The fields of what was read, one after the other. */
  lemma FieldsRead(m: Meaning, l: Limits, s: seq<byte>, hooked: bool, modern: bool) returns (t: seq<seq<byte>>)
    requires ReadFields(m, l, s, hooked, modern).Got?
    ensures |t| == 6 && ReadBinding(s, hooked, modern).Got? && t[0] == ReadBinding(s, hooked, modern).rest
    ensures ReadReview(l, t[0], modern).Got? && t[1] == ReadReview(l, t[0], modern).rest
    ensures ReadBool(t[1]).Got? && t[2] == ReadBool(t[1]).rest
    ensures ReadOutcome(l, m.take, t[2], modern).Got? && t[3] == ReadOutcome(l, m.take, t[2], modern).rest
    ensures ReadTimings(t[3]).Got? && t[4] == ReadTimings(t[3]).rest
    ensures ReadContents(l, t[4], modern).Got? && t[5] == ReadContents(l, t[4], modern).rest
    ensures ReadFields(m, l, s, hooked, modern).value
            == Assembled(m, ReadBinding(s, hooked, modern).value, ReadReview(l, t[0], modern).value, ReadBool(t[1]).value,
                         ReadOutcome(l, m.take, t[2], modern).value, ReadTimings(t[3]).value, ReadContents(l, t[4], modern).value)
  {
    hide ReadBinding, ReadReview, ReadBool, ReadOutcome, ReadTimings, ReadContents;
    t := [ReadBinding(s, hooked, modern).rest];
    t := t + [ReadReview(l, t[0], modern).rest];
    t := t + [ReadBool(t[1]).rest];
    t := t + [ReadOutcome(l, m.take, t[2], modern).rest];
    t := t + [ReadTimings(t[3]).rest];
    t := t + [ReadContents(l, t[4], modern).rest];
  }

  lemma IdentityIsDerived(m: Meaning, l: Limits, s: seq<byte>, hooked: bool, modern: bool)
    requires ReadFields(m, l, s, hooked, modern).Got?
    ensures var art := ReadFields(m, l, s, hooked, modern).value; art.transaction == m.identity(art.binding)
  {
    var t := FieldsRead(m, l, s, hooked, modern);
    hide ReadFields, ReadBinding, ReadReview, ReadBool, ReadOutcome, ReadTimings, ReadContents;
  }

  lemma BindingGood(s: seq<byte>, hooked: bool, modern: bool)
    requires ReadBinding(s, hooked, modern).Got?
    ensures var b := ReadBinding(s, hooked, modern).value; (b.evidence.Some? <==> modern) && (Hooked(b) ==> hooked)
  {
    hide P.ReadDigest, ReadOptionalDigest;
  }

  lemma OutcomeGood(l: Limits, take: Taker, s: seq<byte>, modern: bool)
    requires ReadOutcome(l, take, s, modern).Got?
    ensures var decision := ReadOutcome(l, take, s, modern).value.0; GoodDecision(decision, modern) && !decision.Denied?
  {
    DecisionGood(s, modern);
    hide ReadDecision, ReadOutput, ReadStats, GoodDecision;
  }

  /** Every artifact that was read is well made, as far as its serializer of values is faithful. */
  lemma FieldsAreWellMade(m: Meaning, l: Limits, s: seq<byte>, hooked: bool, modern: bool)
    requires ReadFields(m, l, s, hooked, modern).Got?
    ensures var art := ReadFields(m, l, s, hooked, modern).value;
            && (TakesBack(m.take, art.output) ==> WellMade(m, art, modern))
            && !art.decision.Denied? && (art.binding.evidence.Some? <==> modern) && (Hooked(art.binding) ==> hooked)
  {
    var t := FieldsRead(m, l, s, hooked, modern);
    BindingGood(s, hooked, modern);
    ReviewGood(l, t[0], modern);
    OutcomeGood(l, m.take, t[2], modern);
    ContentsGood(l, t[4], modern);
    hide ReadFields, ReadBinding, ReadReview, ReadBool, ReadOutcome, ReadTimings, ReadContents;
    hide GoodReview, GoodDecision, GoodDiff, GoodReads, GoodWrites, TakesBack, Hooked;
  }

  lemma ContentsGood(l: Limits, s: seq<byte>, modern: bool)
    requires ReadContents(l, s, modern).Got?
    ensures var (diff, observed, written) := ReadContents(l, s, modern).value;
            GoodDiff(diff, modern) && GoodReads(observed) && GoodWrites(written)
  {
    DiffGood(l, s, modern);
    var t := ReadDiff(l, s, modern).rest;
    ReadSetGood(l, t);
    WriteSetGood(l, ReadReadSet(l, t).rest);
  }

  /**
   Nothing is accepted but what a writer could have written: under a sealed format the evidence
   in the binding is the digest that encoding the decoded review, decision, output and
   statistics yields, the review is whole and about the bound intent, and the identity and the
   digests of the binding are those of what was decoded.
   */
  lemma AcceptedIsSealed(m: Meaning, l: Limits, bytes: seq<byte>)
    requires DecodePending(m, l, bytes).Ok?
    ensures var art := DecodePending(m, l, bytes).value;
            && art.transaction == m.identity(art.binding) && BindsContent(m, art) && !art.decision.Denied?
            && (art.binding.evidence.Some? <==> bytes[..8] != MAGIC_UNSEALED)
            && (art.binding.evidence.Some? ==>
                  && Sound(m, art.binding, art.review)
                  && EvidenceFor(m, l, art) == Ok(art.binding.evidence.value)
                  && EvidencePass(m, Render(m, l, art, true), l.maxBytes) == Ok(art.binding.evidence.value))
            && (TakesBack(m.take, art.output) ==> WellMade(m, art, art.binding.evidence.Some?))
  {
    hide ReadFields, WellMade, BindsContent, Sound, Render, EvidenceFor, EvidencePass, TakesBack, Hooked;
    var magic := bytes[..8];
    FieldsAreWellMade(m, l, bytes[8..], magic == MAGIC_HOOKED, magic != MAGIC_UNSEALED);
    EvidenceIsRendered(m, l, DecodePending(m, l, bytes).value);
    assert DecodePending(m, l, bytes).value.transaction == m.identity(DecodePending(m, l, bytes).value.binding) by {
      IdentityIsDerived(m, l, bytes[8..], magic == MAGIC_HOOKED, magic != MAGIC_UNSEALED);
    }
  }

  /** So what is accepted, encoded again, is accepted again as the same artifact. */
  lemma AcceptedReadsBack(m: Meaning, l: Limits, bytes: seq<byte>)
    requires DecodePending(m, l, bytes).Ok? && TakesBack(m.take, DecodePending(m, l, bytes).value.output)
    ensures var art := DecodePending(m, l, bytes).value;
            EncodePending(m, l, art).Ok? ==> DecodePending(m, l, EncodePending(m, l, art).value) == Ok(art)
  {
    AcceptedIsSealed(m, l, bytes);
    if EncodePending(m, l, DecodePending(m, l, bytes).value).Ok? {
      EncodedDecodes(m, l, DecodePending(m, l, bytes).value);
    }
  }
}
