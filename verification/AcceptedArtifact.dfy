/**
 What the decoder of pending artifacts accepts, whatever the bytes: field by field the writing of
 what it read, within every bound, with nothing left over.
 */
module AcceptedArtifact {
  import opened Types
  import opened ByteCodec
  import opened Paths
  import opened OperationLog
  import opened ArtifactCodec
  import opened ArtifactFields
  import opened Sealing
  import opened PendingArtifact
  import A = AcceptedPlan
  import P = PlanCodec

  /** The bytes begin with this group, which breaks no bound. */
  predicate Begins(s: seq<byte>, group: Section, rest: seq<byte>) {
    group.refusal.None? && s == Bytes(group) + rest
  }

  lemma One(s: seq<byte>, bytes: seq<byte>, rest: seq<byte>)
    requires s == bytes + rest
    ensures Begins(s, Put(bytes), rest)
  {
    PutBytes(bytes);
  }

  lemma Two(s: seq<byte>, a: Section, t: seq<byte>, b: Section, rest: seq<byte>)
    requires Begins(s, a, t) && Begins(t, b, rest)
    ensures Begins(s, Then(a, b), rest)
  {
    ThenBytes(a, b);
    Nest(Bytes(a), Bytes(b), rest);
  }

  // ------------------------------------------------------------------- fields

  lemma ByteBegins(s: seq<byte>)
    requires P.ReadByte(s).Got?
    ensures Begins(s, Put([P.ReadByte(s).value]), P.ReadByte(s).rest)
  {
    A.ByteWritten(s);
    One(s, [P.ReadByte(s).value], P.ReadByte(s).rest);
  }

  lemma U64Begins(s: seq<byte>)
    requires P.ReadU64(s).Got?
    ensures Begins(s, Put(U64Bytes(P.ReadU64(s).value)), P.ReadU64(s).rest)
  {
    A.ReadU64Written(s);
    One(s, U64Bytes(P.ReadU64(s).value), P.ReadU64(s).rest);
  }

  lemma DigestBegins(s: seq<byte>)
    requires P.ReadDigest(s).Got?
    ensures Begins(s, Put(P.ReadDigest(s).value), P.ReadDigest(s).rest)
  {
    One(s, P.ReadDigest(s).value, P.ReadDigest(s).rest);
  }

  lemma U16Begins(s: seq<byte>)
    requires ReadU16(s).Got?
    ensures Begins(s, Put(U16Bytes(ReadU16(s).value)), ReadU16(s).rest)
  {
    ToFromLE(s[..2]);
    One(s, U16Bytes(ReadU16(s).value), ReadU16(s).rest);
  }

  lemma BoolBegins(s: seq<byte>)
    requires ReadBool(s).Got?
    ensures Begins(s, Put(BoolByte(ReadBool(s).value)), ReadBool(s).rest)
  {
    ByteBegins(s);
  }

  lemma LengthBegins(s: seq<byte>, maximum: nat)
    requires ReadLength(s, maximum).Got?
    ensures ReadLength(s, maximum).value <= maximum
    ensures Begins(s, Put(Length(ReadLength(s, maximum).value)), ReadLength(s, maximum).rest)
  {
    hide U64Bytes, P.ReadU64;
    U64Begins(s);
  }

  lemma TextBegins(s: seq<byte>, maximum: nat)
    requires ReadText(s, maximum).Got?
    ensures |ReadText(s, maximum).value| <= maximum
    ensures Begins(s, TextSection(ReadText(s, maximum).value), ReadText(s, maximum).rest)
  {
    hide ReadLength, Length, Begins;
    LengthBegins(s, maximum);
    var t, text := ReadLength(s, maximum).rest, ReadText(s, maximum).value;
    One(t, text, ReadText(s, maximum).rest);
    Two(s, Put(Length(|text|)), t, Put(text), ReadText(s, maximum).rest);
  }

  lemma PathBegins(l: Limits, s: seq<byte>)
    requires ReadPath(l, s).Got?
    ensures Begins(s, PathSection(l, ReadPath(l, s).value), ReadPath(l, s).rest) && ValidPath(ReadPath(l, s).value)
  {
    hide ReadText, TextSection, Begins, Text, Parse;
    TextBegins(s, l.maxPathBytes);
    ParsedText(ReadText(s, l.maxPathBytes).value);
  }

  lemma OptionalDigestBegins(s: seq<byte>)
    requires ReadOptionalDigest(s).Got?
    ensures Begins(s, OptionalDigest(ReadOptionalDigest(s).value), ReadOptionalDigest(s).rest)
  {
    hide P.ReadDigest, Begins;
    ByteBegins(s);
    var r := ReadOptionalDigest(s);
    if r.value.Some? {
      DigestBegins(P.ReadByte(s).rest);
      Two(s, Put([1]), P.ReadByte(s).rest, Put(r.value.value), r.rest);
    }
  }

  lemma StateBegins(s: seq<byte>, shifted: bool)
    requires ReadState(s, shifted).Got?
    ensures Begins(s, StateSection(ReadState(s, shifted).value), ReadState(s, shifted).rest)
    ensures A.Stated(ReadState(s, shifted).value, if shifted then {File, Directory} else {})
  {
    hide P.ReadNodeState, StateSection, P.WriteState, A.Stated;
    A.NodeStateWritten(s, VirtualKinds(shifted));
    StateBytes(ReadState(s, shifted).value);
  }

  lemma OptionalStateBegins(s: seq<byte>, shifted: bool)
    requires ReadOptionalState(s, shifted).Got?
    ensures Begins(s, OptionalState(ReadOptionalState(s, shifted).value), ReadOptionalState(s, shifted).rest)
  {
    hide ReadState, StateSection, Begins;
    ByteBegins(s);
    var r := ReadOptionalState(s, shifted);
    if r.value.Some? {
      StateBegins(P.ReadByte(s).rest, shifted);
      Two(s, Put([1]), P.ReadByte(s).rest, StateSection(r.value.value), r.rest);
    }
  }

  lemma TwoStatesBegin(s: seq<byte>, shifted: bool)
    requires ReadTwoStates(s, shifted).Got?
    ensures var r := ReadTwoStates(s, shifted); Begins(s, Then(StateSection(r.value.0), StateSection(r.value.1)), r.rest)
  {
    hide ReadState, StateSection, Begins;
    var t := ReadState(s, shifted).rest;
    StateBegins(s, shifted);
    StateBegins(t, shifted);
    Two(s, StateSection(ReadState(s, shifted).value), t, StateSection(ReadState(t, shifted).value), ReadState(t, shifted).rest);
  }

  // -------------------------------------------------------------- collections

  /** Whatever is read began with the writing of what was read. */
  ghost predicate Undoes<T(!new)>(read: seq<byte> -> P.Parsed<T>, write: T -> Section) {
    forall s: seq<byte> :: read(s).Got? ==> Begins(s, write(read(s).value), read(s).rest)
  }

  lemma {:induction false} SameFirst<T>(xs: seq<T>, ys: seq<T>, n: nat, write: T -> Section)
    requires n <= |xs| && xs <= ys
    ensures First(xs, n, write) == First(ys, n, write)
  {
    if n > 0 {
      SameFirst(xs, ys, n - 1, write);
    }
  }

  lemma {:induction false} ManyBegin<T(!new)>(n: nat, s: seq<byte>, read: seq<byte> -> P.Parsed<T>, write: T -> Section)
    requires Undoes(read, write) && P.Many(n, s, read).Got?
    ensures |P.Many(n, s, read).value| == n && Begins(s, First(P.Many(n, s, read).value, n, write), P.Many(n, s, read).rest)
  {
    if n == 0 {
      assert Join([]) + s == s;
    } else {
      hide Begins;
      var p, init := P.Many(n, s, read), P.Many(n - 1, s, read);
      ManyBegin(n - 1, s, read, write);
      assert read(init.rest).Got?;
      SameFirst(init.value, p.value, n - 1, write);
      Two(s, First(p.value, n - 1, write), init.rest, write(p.value[n - 1]), p.rest);
    }
  }

  lemma CollectionBegins<T(!new)>(s: seq<byte>, maximum: nat, each: nat, read: seq<byte> -> P.Parsed<T>, write: T -> Section)
    requires each > 0 && Undoes(read, write) && ReadCollection(s, maximum, each, read).Got?
    ensures var r := ReadCollection(s, maximum, each, read);
            && |r.value| <= maximum && Begins(s, Collection(r.value, maximum, write), r.rest)
            && Begins(s, Then(Put(Length(|r.value|)), First(r.value, |r.value|, write)), r.rest)
  {
    hide Begins, P.Many, First, ReadLength, Undoes;
    var t := ReadLength(s, maximum).rest;
    LengthBegins(s, maximum);
    ManyBegin(ReadLength(s, maximum).value, t, read, write);
    var r := ReadCollection(s, maximum, each, read);
    Two(s, Put(Length(|r.value|)), t, First(r.value, |r.value|, write), r.rest);
  }

  // ------------------------------------------------------------------- review

  lemma DetailBegins(l: Limits, s: seq<byte>, tag: byte, path: Path, modern: bool)
    requires 1 <= tag <= 8 && ReadDetail(l, s, tag, path, modern).Got?
    ensures var r := ReadDetail(l, s, tag, path, modern);
            EffectTag(r.value) == tag && r.value.path == path && Begins(s, EffectDetail(l, r.value), r.rest)
  {
    hide ReadOptionalState, ReadState, P.ReadDigest, ReadTwoStates, ReadPath, OptionalState, StateSection, PathSection, Begins;
    if tag == 1 {
      OptionalStateBegins(s, modern);
    } else if tag == 2 || tag == 3 {
      DigestBegins(s);
    } else if tag == 4 || tag == 6 {
      StateBegins(s, modern);
    } else if tag == 7 {
      PathBegins(l, s);
      var t := ReadPath(l, s).rest;
      TwoStatesBegin(t, modern);
      var r := ReadTwoStates(t, modern);
      Two(s, PathSection(l, ReadPath(l, s).value), t, Then(StateSection(r.value.0), StateSection(r.value.1)), r.rest);
    } else {
      TwoStatesBegin(s, modern);
    }
  }

  lemma EffectBegins(l: Limits, s: seq<byte>, modern: bool)
    requires ReadEffect(l, s, modern).Got?
    ensures Begins(s, EffectSection(l, ReadEffect(l, s, modern).value), ReadEffect(l, s, modern).rest)
    ensures ReadEffect(l, s, modern).value.ModifyMetadata? ==> modern
  {
    hide ReadPath, ReadDetail, PathSection, EffectDetail, Begins;
    ByteBegins(s);
    var r, tag, t := ReadEffect(l, s, modern), P.ReadByte(s).value, P.ReadByte(s).rest;
    PathBegins(l, t);
    var path, u := ReadPath(l, t).value, ReadPath(l, t).rest;
    DetailBegins(l, u, tag, path, modern);
    Two(t, PathSection(l, path), u, EffectDetail(l, r.value), r.rest);
    Two(s, Put([tag]), t, Then(PathSection(l, path), EffectDetail(l, r.value)), r.rest);
  }

  lemma EventBegins(l: Limits, s: seq<byte>, modern: bool)
    requires ReadEvent(l, s, modern).Got?
    ensures Begins(s, EventSection(l, ReadEvent(l, s, modern).value), ReadEvent(l, s, modern).rest)
  {
    hide P.ReadU64, ReadEffect, EffectSection, Begins, U64Bytes;
    var r, t := ReadEvent(l, s, modern), P.ReadU64(s).rest;
    U64Begins(s);
    ByteBegins(t);
    var u := P.ReadByte(t).rest;
    EffectBegins(l, u, modern);
    Two(t, Put([OriginTag(r.value.origin)]), u, EffectSection(l, r.value.effect), r.rest);
    Two(s, Put(U64Bytes(r.value.sequence)), t, Then(Put([OriginTag(r.value.origin)]), EffectSection(l, r.value.effect)), r.rest);
  }

  lemma EffectsBegin(l: Limits, s: seq<byte>, modern: bool)
    requires ReadEffects(l, s, modern).Got?
    ensures var r := ReadEffects(l, s, modern);
            Begins(s, Collection(r.value, l.maxEffects, EventWriter(l)), r.rest) && InSequence(r.value)
  {
    hide ReadEvent, EventSection, Begins, ReadCollection;
    forall t: seq<byte> | EventReader(l, modern)(t).Got?
      ensures Begins(t, EventWriter(l)(EventReader(l, modern)(t).value), EventReader(l, modern)(t).rest)
    {
      EventBegins(l, t, modern);
    }
    CollectionBegins(s, l.maxEffects, 19, EventReader(l, modern), EventWriter(l));
  }

  lemma MetricsBegin(s: seq<byte>)
    requires ReadMetrics(s).Got?
    ensures Begins(s, MetricsSection(ReadMetrics(s).value), ReadMetrics(s).rest)
  {
    hide P.ReadU64, ReadU16, Begins, U64Bytes, U16Bytes;
    var m, rest := ReadMetrics(s).value, ReadMetrics(s).rest;
    var s1 := P.ReadU64(s).rest;
    var s2 := P.ReadU64(s1).rest;
    var s3 := P.ReadU64(s2).rest;
    var s4 := P.ReadU64(s3).rest;
    var s5 := P.ReadU64(s4).rest;
    var s6 := P.ReadU64(s5).rest;
    var s7 := ReadU16(s6).rest;
    var s8 := P.ReadU64(s7).rest;
    U64Begins(s8);
    U64Begins(s7);
    U16Begins(s6);
    U64Begins(s5);
    U64Begins(s4);
    U64Begins(s3);
    U64Begins(s2);
    U64Begins(s1);
    U64Begins(s);
    var b := Then(Put(U64Bytes(m.executableChanges)), Put(U64Bytes(m.symlinkChanges)));
    Two(s7, Put(U64Bytes(m.executableChanges)), s8, Put(U64Bytes(m.symlinkChanges)), rest);
    Two(s6, Put(U16Bytes(m.deleteRatio)), s7, b, rest);
    b := Then(Put(U16Bytes(m.deleteRatio)), b);
    Two(s5, Put(U64Bytes(m.changedBytes)), s6, b, rest);
    b := Then(Put(U64Bytes(m.changedBytes)), b);
    Two(s4, Put(U64Bytes(m.renamed)), s5, b, rest);
    b := Then(Put(U64Bytes(m.renamed)), b);
    Two(s3, Put(U64Bytes(m.deleted)), s4, b, rest);
    b := Then(Put(U64Bytes(m.deleted)), b);
    Two(s2, Put(U64Bytes(m.modified)), s3, b, rest);
    b := Then(Put(U64Bytes(m.modified)), b);
    Two(s1, Put(U64Bytes(m.created)), s2, b, rest);
    b := Then(Put(U64Bytes(m.created)), b);
    Two(s, Put(U64Bytes(m.touched)), s1, b, rest);
  }

  lemma IntentBegins(l: Limits, s: seq<byte>)
    requires ReadIntent(l, s).Got?
    ensures Begins(s, IntentSection(l, ReadIntent(l, s).value), ReadIntent(l, s).rest)
  {
    hide ReadText, TextSection, Begins;
    ByteBegins(s);
    var r, t := ReadIntent(l, s), P.ReadByte(s).rest;
    if r.value.Some? {
      TextBegins(t, l.maxIntentBytes);
      Two(s, Put([1]), t, TextSection(r.value.value), r.rest);
    }
  }

  lemma ReviewBegins(l: Limits, s: seq<byte>, modern: bool)
    requires ReadReview(l, s, modern).Got?
    ensures Begins(s, ReviewSection(l, ReadReview(l, s, modern).value), ReadReview(l, s, modern).rest)
  {
    hide ReadIntent, ReadMetrics, ReadEffects, ReadBool, Begins, IntentSection, MetricsSection, Collection, BoolByte;
    var r, rest := ReadReview(l, s, modern).value, ReadReview(l, s, modern).rest;
    var s1 := ReadIntent(l, s).rest;
    var s2 := ReadMetrics(s1).rest;
    var s3 := ReadEffects(l, s2, modern).rest;
    var s4 := ReadBool(s3).rest;
    IntentBegins(l, s);
    MetricsBegin(s1);
    EffectsBegin(l, s2, modern);
    BoolBegins(s3);
    BoolBegins(s4);
    var flags := Then(Put(BoolByte(r.complete)), Put(BoolByte(r.truncated)));
    var effects := Collection(r.effects, l.maxEffects, EventWriter(l));
    Two(s3, Put(BoolByte(r.complete)), s4, Put(BoolByte(r.truncated)), rest);
    Two(s2, effects, s3, flags, rest);
    Two(s1, MetricsSection(r.metrics), s2, Then(effects, flags), rest);
    Two(s, IntentSection(l, r.intent), s1, Then(MetricsSection(r.metrics), Then(effects, flags)), rest);
  }

  // ------------------------------------------------------------------ outcome

  lemma FlagBegins(s: seq<byte>, modern: bool)
    requires ReadFlag(s, modern).Got?
    ensures Begins(s, FlagSection(ReadFlag(s, modern).value), ReadFlag(s, modern).rest)
    ensures ReadFlag(s, modern).value == PermissionChange ==> modern
  {
    hide Begins;
    ByteBegins(s);
  }

  lemma FlagsBegin(s: seq<byte>, modern: bool)
    requires ReadFlags(s, modern).Got?
    ensures var r := ReadFlags(s, modern); Begins(s, FlagsSection(r.value), r.rest) && FlagsSorted(r.value)
  {
    hide ReadFlag, FlagSection, Begins, ReadCollection;
    forall t: seq<byte> | FlagReader(modern)(t).Got?
      ensures Begins(t, FlagSection(FlagReader(modern)(t).value), FlagReader(modern)(t).rest)
    {
      FlagBegins(t, modern);
    }
    CollectionBegins(s, 32, 1, FlagReader(modern), FlagSection);
  }

  lemma DecisionBegins(s: seq<byte>, modern: bool)
    requires ReadDecision(s, modern).Got?
    ensures Begins(s, DecisionSection(ReadDecision(s, modern).value), ReadDecision(s, modern).rest)
  {
    hide ReadMetrics, ReadFlags, P.ReadDigest, Begins, MetricsSection, FlagsSection;
    ByteBegins(s);
    var r, t := ReadDecision(s, modern), P.ReadByte(s).rest;
    if r.value.PendingApproval? {
      var m := r.value.manifest;
      var t1 := ReadMetrics(t).rest;
      var t2 := ReadFlags(t1, modern).rest;
      MetricsBegin(t);
      FlagsBegin(t1, modern);
      DigestBegins(t2);
      Two(t1, FlagsSection(m.flags), t2, Put(m.policy), r.rest);
      Two(t, MetricsSection(m.metrics), t1, Then(FlagsSection(m.flags), Put(m.policy)), r.rest);
      Two(s, Put([2]), t, ManifestSection(m), r.rest);
    }
  }

  /** The serializer takes only what it would have written. */
  ghost predicate TakesOnly(take: Taker) {
    forall bytes, v: Value :: take(bytes) == Some((v, [])) ==> Join(v.pieces) == bytes
  }

  lemma ValueBegins(l: Limits, take: Taker, s: seq<byte>)
    requires TakesOnly(take) && ReadValue(l, take, s).Got?
    ensures Begins(s, ValueSection(l, ReadValue(l, take, s).value), ReadValue(l, take, s).rest)
  {
    hide ReadText;
    var r := ReadValue(l, take, s);
    var bytes, v := ReadText(s, l.maxValueBytes).value, r.value;
    TextBegins(s, l.maxValueBytes);
    ThenBytes(Put(Length(|bytes|)), Put(bytes));
    ThenBytes(Put(Length(|bytes|)), Section(v.pieces, None));
    PutBytes(bytes);
  }

  lemma MontyBegins(l: Limits, take: Taker, s: seq<byte>)
    requires TakesOnly(take) && ReadMonty(l, take, s).Got?
    ensures Begins(s, OutputSection(l, ReadMonty(l, take, s).value, false), ReadMonty(l, take, s).rest)
  {
    hide ReadText, TextSection, Begins, ReadValue, ValueSection;
    var r, t := ReadMonty(l, take, s), ReadValue(l, take, s).rest;
    ValueBegins(l, take, s);
    TextBegins(t, l.maxStdoutBytes);
    Two(s, ValueSection(l, r.value.value), t, TextSection(r.value.stdout), r.rest);
  }

  lemma BashBegins(l: Limits, s: seq<byte>)
    requires ReadBash(l, s).Got?
    ensures var o := ReadBash(l, s).value;
            && o.Bash? && o.exitCode == 0 && BashRefusal(l, o.profile, o.stdout, o.stderr).None?
            && Begins(s, Then(TextSection(o.profile), Then(Put(I32Bytes(0)), Then(TextSection(o.stdout), TextSection(o.stderr)))),
                      ReadBash(l, s).rest)
  {
    hide ReadText, TextSection, Begins;
    var o, rest := ReadBash(l, s).value, ReadBash(l, s).rest;
    var s1 := ReadText(s, 128).rest;
    var s2 := P.ReadBytes(s1, 4).rest;
    var s3 := ReadText(s2, l.maxStdoutBytes).rest;
    TextBegins(s, 128);
    TextBegins(s2, l.maxStdoutBytes);
    TextBegins(s3, l.maxStdoutBytes - |o.stdout|);
    assert I32Bytes(0) == [0, 0, 0, 0] by {
      assert Digit(0, 0) == 0 && Digit(0, 1) == 0 && Digit(0, 2) == 0 && Digit(0, 3) == 0;
    }
    One(s1, I32Bytes(0), s2);
    Two(s2, TextSection(o.stdout), s3, TextSection(o.stderr), rest);
    Two(s1, Put(I32Bytes(0)), s2, Then(TextSection(o.stdout), TextSection(o.stderr)), rest);
    Two(s, TextSection(o.profile), s1, Then(Put(I32Bytes(0)), Then(TextSection(o.stdout), TextSection(o.stderr))), rest);
  }

  lemma OutputBegins(l: Limits, take: Taker, s: seq<byte>, modern: bool)
    requires TakesOnly(take) && ReadOutput(l, take, s, modern).Got?
    ensures Begins(s, OutputSection(l, ReadOutput(l, take, s, modern).value, modern), ReadOutput(l, take, s, modern).rest)
  {
    hide ReadMonty, ReadBash, Begins, ValueSection, TextSection, BashRefusal, I32Bytes;
    var r := ReadOutput(l, take, s, modern);
    if !modern {
      MontyBegins(l, take, s);
      MontyIsMonty(l, take, s);
    } else {
      ByteBegins(s);
      var t := P.ReadByte(s).rest;
      ByteBegins(t);
      var u := P.ReadByte(t).rest;
      if P.ReadByte(s).value == 2 {
        BashBegins(l, u);
        var body := Then(TextSection(r.value.profile), Then(Put(I32Bytes(0)), Then(TextSection(r.value.stdout), TextSection(r.value.stderr))));
        TwoBytes(s, t, u);
        Two(s, Put([2, 1]), u, body, r.rest);
      } else {
        MontyBegins(l, take, u);
        MontyIsMonty(l, take, u);
        var body := OutputSection(l, r.value, false);
        Two(t, Put([1]), u, body, r.rest);
        Two(s, Put([1]), t, Then(Put([1]), body), r.rest);
      }
    }
  }

  lemma MontyIsMonty(l: Limits, take: Taker, s: seq<byte>)
    requires ReadMonty(l, take, s).Got?
    ensures ReadMonty(l, take, s).value.Monty?
  {
  }

  lemma TwoBytes(s: seq<byte>, t: seq<byte>, u: seq<byte>)
    requires Begins(s, Put([2]), t) && Begins(t, Put([1]), u)
    ensures Begins(s, Put([2, 1]), u)
  {
    PutBytes([2]);
    PutBytes([1]);
    PutBytes([2, 1]);
    assert [2] + ([1] + u) == [2, 1] + u;
  }

  lemma SevenBegin(s: seq<byte>)
    requires ReadSeven(s).Got?
    ensures var n := ReadSeven(s).value; Begins(s, SevenSection(n.0, n.1, n.2, n.3, n.4, n.5, n.6), ReadSeven(s).rest)
  {
    hide P.ReadU64, Begins, U64Bytes;
    var n, rest := ReadSeven(s).value, ReadSeven(s).rest;
    var s1 := P.ReadU64(s).rest;
    var s2 := P.ReadU64(s1).rest;
    var s3 := P.ReadU64(s2).rest;
    var s4 := P.ReadU64(s3).rest;
    var s5 := P.ReadU64(s4).rest;
    var s6 := P.ReadU64(s5).rest;
    U64Begins(s6);
    U64Begins(s5);
    U64Begins(s4);
    U64Begins(s3);
    U64Begins(s2);
    U64Begins(s1);
    U64Begins(s);
    var b := Then(Put(U64Bytes(n.5)), Put(U64Bytes(n.6)));
    Two(s5, Put(U64Bytes(n.5)), s6, Put(U64Bytes(n.6)), rest);
    Two(s4, Put(U64Bytes(n.4)), s5, b, rest);
    b := Then(Put(U64Bytes(n.4)), b);
    Two(s3, Put(U64Bytes(n.3)), s4, b, rest);
    b := Then(Put(U64Bytes(n.3)), b);
    Two(s2, Put(U64Bytes(n.2)), s3, b, rest);
    b := Then(Put(U64Bytes(n.2)), b);
    Two(s1, Put(U64Bytes(n.1)), s2, b, rest);
    b := Then(Put(U64Bytes(n.1)), b);
    Two(s, Put(U64Bytes(n.0)), s1, b, rest);
  }

  lemma OutcomeBegins(m: Meaning, l: Limits, s: seq<byte>, modern: bool, art: Pending)
    requires TakesOnly(m.take) && ReadOutcome(l, m.take, s, modern).Got?
    requires ReadOutcome(l, m.take, s, modern).value == (art.decision, art.output, art.execution)
    ensures Begins(s, OutcomeSection(l, art, modern), ReadOutcome(l, m.take, s, modern).rest)
  {
    hide ReadDecision, ReadOutput, ReadSeven, Begins, DecisionSection, OutputSection, SevenSection;
    var s1 := ReadDecision(s, modern).rest;
    var s2 := ReadOutput(l, m.take, s1, modern).rest;
    var rest := ReadOutcome(l, m.take, s, modern).rest;
    DecisionBegins(s, modern);
    OutputBegins(l, m.take, s1, modern);
    SevenBegin(s2);
    Two(s1, OutputSection(l, art.output, modern), s2, StatsSection(art.execution), rest);
    Two(s, DecisionSection(art.decision), s1, Then(OutputSection(l, art.output, modern), StatsSection(art.execution)), rest);
  }

  // ----------------------------------------------------------------- contents

  lemma ChangeBegins(l: Limits, s: seq<byte>, modern: bool)
    requires ReadChange(l, s, modern).Got?
    ensures Begins(s, ChangeSection(l, ReadChange(l, s, modern).value), ReadChange(l, s, modern).rest)
  {
    hide ReadPath, ReadOptionalState, Begins, PathSection, OptionalState;
    var c, rest := ReadChange(l, s, modern).value, ReadChange(l, s, modern).rest;
    var s1 := ReadPath(l, s).rest;
    var s2 := ReadOptionalState(s1, false).rest;
    var s3 := ReadOptionalState(s2, modern).rest;
    PathBegins(l, s);
    OptionalStateBegins(s1, false);
    OptionalStateBegins(s2, modern);
    ByteBegins(s3);
    Two(s2, OptionalState(c.after), s3, Put([DiffTag(c.kind)]), rest);
    Two(s1, OptionalState(c.before), s2, Then(OptionalState(c.after), Put([DiffTag(c.kind)])), rest);
    Two(s, PathSection(l, c.path), s1, Then(OptionalState(c.before), Then(OptionalState(c.after), Put([DiffTag(c.kind)]))), rest);
  }

  lemma SeenBegins(s: seq<byte>)
    requires ReadSeen(s).Got?
    ensures Begins(s, SeenSection(ReadSeen(s).value), ReadSeen(s).rest)
  {
    hide ReadState, Begins, StateSection;
    ByteBegins(s);
    var r, t := ReadSeen(s), P.ReadByte(s).rest;
    if r.value.Some? && r.value.value.Some? {
      StateBegins(t, false);
      Two(s, Put([2]), t, StateSection(r.value.value.value), r.rest);
    }
  }

  lemma ObservationBegins(l: Limits, s: seq<byte>)
    requires ReadObservation(l, s).Got?
    ensures Begins(s, ObservationSection(l, ReadObservation(l, s).value), ReadObservation(l, s).rest)
  {
    hide ReadPath, ReadSeen, ReadOptionalDigest, Begins, PathSection, SeenSection, OptionalDigest;
    var o, rest := ReadObservation(l, s).value, ReadObservation(l, s).rest;
    var s1 := ReadPath(l, s).rest;
    var s2 := ReadSeen(s1).rest;
    var s3 := ReadOptionalDigest(s2).rest;
    PathBegins(l, s);
    SeenBegins(s1);
    OptionalDigestBegins(s2);
    OptionalDigestBegins(s3);
    var digests := Then(OptionalDigest(o.content), OptionalDigest(o.directory));
    Two(s2, OptionalDigest(o.content), s3, OptionalDigest(o.directory), rest);
    Two(s1, SeenSection(o.metadata), s2, digests, rest);
    Two(s, PathSection(l, o.path), s1, Then(SeenSection(o.metadata), digests), rest);
  }

  lemma PreconditionBegins(l: Limits, s: seq<byte>)
    requires ReadPrecondition(l, s).Got?
    ensures Begins(s, PreconditionSection(l, ReadPrecondition(l, s).value), ReadPrecondition(l, s).rest)
  {
    hide ReadPath, ReadOptionalState, Begins, PathSection, OptionalState;
    var w, t := ReadPrecondition(l, s), ReadPath(l, s).rest;
    PathBegins(l, s);
    OptionalStateBegins(t, false);
    Two(s, PathSection(l, w.value.path), t, OptionalState(w.value.expected), w.rest);
  }

  lemma DiffBegins(l: Limits, s: seq<byte>, modern: bool)
    requires ReadDiff(l, s, modern).Got?
    ensures Begins(s, Collection(ReadDiff(l, s, modern).value, l.maxEntries, ChangeWriter(l)), ReadDiff(l, s, modern).rest)
  {
    hide ReadChange, ChangeSection, Begins, ReadCollection, Collection, CanonicalDiff;
    forall t: seq<byte> | ChangeReader(l, modern)(t).Got?
      ensures Begins(t, ChangeWriter(l)(ChangeReader(l, modern)(t).value), ChangeReader(l, modern)(t).rest)
    {
      ChangeBegins(l, t, modern);
    }
    CollectionBegins(s, l.maxEntries, 11, ChangeReader(l, modern), ChangeWriter(l));
  }

  lemma ReadsBegin(l: Limits, s: seq<byte>)
    requires ReadReadSet(l, s).Got?
    ensures Begins(s, Collection(ReadReadSet(l, s).value, l.maxDependencies, ObservationWriter(l)), ReadReadSet(l, s).rest)
  {
    hide ReadObservation, ObservationSection, Begins, ReadCollection, Collection;
    forall t: seq<byte> | ObservationReader(l)(t).Got?
      ensures Begins(t, ObservationWriter(l)(ObservationReader(l)(t).value), ObservationReader(l)(t).rest)
    {
      ObservationBegins(l, t);
    }
    CollectionBegins(s, l.maxDependencies, 11, ObservationReader(l), ObservationWriter(l));
  }

  lemma WritesBegin(l: Limits, s: seq<byte>)
    requires ReadWriteSet(l, s).Got?
    ensures Begins(s, Collection(ReadWriteSet(l, s).value, l.maxDependencies, PreconditionWriter(l)), ReadWriteSet(l, s).rest)
  {
    hide ReadPrecondition, PreconditionSection, Begins, ReadCollection, Collection;
    forall t: seq<byte> | PreconditionReader(l)(t).Got?
      ensures Begins(t, PreconditionWriter(l)(PreconditionReader(l)(t).value), PreconditionReader(l)(t).rest)
    {
      PreconditionBegins(l, t);
    }
    CollectionBegins(s, l.maxDependencies, 9, PreconditionReader(l), PreconditionWriter(l));
  }

  lemma ContentsBegin(l: Limits, s: seq<byte>, modern: bool, art: Pending)
    requires ReadContents(l, s, modern).Got? && ReadContents(l, s, modern).value == (art.diff, art.observed, art.written)
    ensures Begins(s, ContentsSection(l, art), ReadContents(l, s, modern).rest)
  {
    hide ReadDiff, ReadReadSet, ReadWriteSet, Begins, Collection;
    var s1 := ReadDiff(l, s, modern).rest;
    var s2 := ReadReadSet(l, s1).rest;
    DiffBegins(l, s, modern);
    ReadsBegin(l, s1);
    WritesBegin(l, s2);
    var diff := Collection(art.diff, l.maxEntries, ChangeWriter(l));
    var observed := Collection(art.observed, l.maxDependencies, ObservationWriter(l));
    var written := Collection(art.written, l.maxDependencies, PreconditionWriter(l));
    var rest := ReadContents(l, s, modern).rest;
    Two(s1, observed, s2, written, rest);
    Two(s, diff, s1, Then(observed, written), rest);
  }

  // ------------------------------------------------------------------ binding

  /** The binding as it stands in a file: the hook fields are there exactly in the format that has them. */
  function BindingSection(b: Binding, hooked: bool): Section {
    Then(FixedSection(b), Then(OptionalDigest(b.intent), Then(HooksSection(b, hooked), EvidenceSection(b))))
  }

  function FixedSection(b: Binding): Section {
    Then(Put(b.snapshot), Then(Put(b.diff), Then(Put(b.readSet), Then(Put(b.writeSet),
      Then(Put(b.program), Then(Put(b.policy), Put(b.config)))))))
  }

  function HooksSection(b: Binding, hooked: bool): Section {
    if hooked then Then(OptionalDigest(b.invocation), OptionalDigest(b.hook)) else Section([], None)
  }

  function EvidenceSection(b: Binding): Section {
    if b.evidence.Some? then Put(b.evidence.value) else Section([], None)
  }

  lemma NoneBegins(s: seq<byte>)
    ensures Begins(s, Section([], None), s)
  {
    assert [] + s == s;
  }

  lemma FixedBegins(s: seq<byte>, s1: seq<byte>, s2: seq<byte>, s3: seq<byte>, s4: seq<byte>, s5: seq<byte>, s6: seq<byte>,
                    rest: seq<byte>, b: Binding)
    requires Begins(s, Put(b.snapshot), s1) && Begins(s1, Put(b.diff), s2) && Begins(s2, Put(b.readSet), s3)
    requires Begins(s3, Put(b.writeSet), s4) && Begins(s4, Put(b.program), s5) && Begins(s5, Put(b.policy), s6)
    requires Begins(s6, Put(b.config), rest)
    ensures Begins(s, FixedSection(b), rest)
  {
    hide Begins;
    var g := Then(Put(b.policy), Put(b.config));
    Two(s5, Put(b.policy), s6, Put(b.config), rest);
    Two(s4, Put(b.program), s5, g, rest);
    g := Then(Put(b.program), g);
    Two(s3, Put(b.writeSet), s4, g, rest);
    g := Then(Put(b.writeSet), g);
    Two(s2, Put(b.readSet), s3, g, rest);
    g := Then(Put(b.readSet), g);
    Two(s1, Put(b.diff), s2, g, rest);
    Two(s, Put(b.snapshot), s1, Then(Put(b.diff), g), rest);
  }

  lemma HooksBegin(s: seq<byte>, hooked: bool, b: Binding)
    requires ReadHooks(s, hooked).Got? && ReadHooks(s, hooked).value == (b.invocation, b.hook)
    ensures Begins(s, HooksSection(b, hooked), ReadHooks(s, hooked).rest) && (!hooked ==> b.invocation.None? && b.hook.None?)
  {
    hide ReadOptionalDigest, Begins, OptionalDigest;
    if hooked {
      var t := ReadOptionalDigest(s).rest;
      OptionalDigestBegins(s);
      OptionalDigestBegins(t);
      Two(s, OptionalDigest(b.invocation), t, OptionalDigest(b.hook), ReadHooks(s, hooked).rest);
    } else {
      NoneBegins(s);
    }
  }

  lemma EvidenceBegins(s: seq<byte>, modern: bool, b: Binding)
    requires ReadEvidence(s, modern).Got? && ReadEvidence(s, modern).value == b.evidence
    ensures Begins(s, EvidenceSection(b), ReadEvidence(s, modern).rest) && (b.evidence.Some? <==> modern)
  {
    hide Begins;
    if modern {
      DigestBegins(s);
    } else {
      NoneBegins(s);
    }
  }

  lemma BindingBegins(s: seq<byte>, hooked: bool, modern: bool)
    requires ReadBinding(s, hooked, modern).Got?
    ensures var b := ReadBinding(s, hooked, modern).value;
            && Begins(s, BindingSection(b, hooked), ReadBinding(s, hooked, modern).rest)
            && (b.evidence.Some? <==> modern) && (!hooked ==> b.invocation.None? && b.hook.None?)
  {
    hide P.ReadDigest, ReadOptionalDigest, ReadHooks, ReadEvidence, Begins, OptionalDigest, HooksSection, EvidenceSection, FixedSection;
    var b, rest := ReadBinding(s, hooked, modern).value, ReadBinding(s, hooked, modern).rest;
    var s1 := P.ReadDigest(s).rest;
    var s2 := P.ReadDigest(s1).rest;
    var s3 := P.ReadDigest(s2).rest;
    var s4 := P.ReadDigest(s3).rest;
    var s5 := P.ReadDigest(s4).rest;
    var s6 := P.ReadDigest(s5).rest;
    var s7 := P.ReadDigest(s6).rest;
    DigestBegins(s);
    DigestBegins(s1);
    DigestBegins(s2);
    DigestBegins(s3);
    DigestBegins(s4);
    DigestBegins(s5);
    DigestBegins(s6);
    FixedBegins(s, s1, s2, s3, s4, s5, s6, s7, b);
    var s8 := ReadOptionalDigest(s7).rest;
    var s9 := ReadHooks(s8, hooked).rest;
    OptionalDigestBegins(s7);
    HooksBegin(s8, hooked, b);
    EvidenceBegins(s9, modern, b);
    Two(s8, HooksSection(b, hooked), s9, EvidenceSection(b), rest);
    Two(s7, OptionalDigest(b.intent), s8, Then(HooksSection(b, hooked), EvidenceSection(b)), rest);
    Two(s, FixedSection(b), s7, Then(OptionalDigest(b.intent), Then(HooksSection(b, hooked), EvidenceSection(b))), rest);
  }

  // ------------------------------------------------------------- the artifact

  /** All fields of an artifact in the order of a file. */
  function FileSection(l: Limits, art: Pending, hooked: bool, modern: bool, detailed: bool): Section {
    Then(BindingSection(art.binding, hooked),
      Then(ReviewSection(l, art.review),
        Then(Put(BoolByte(detailed)),
          Then(OutcomeSection(l, art, modern),
            Then(TimingsSection(art.timings), ContentsSection(l, art))))))
  }

  /** The bytes are this artifact, in one of the three formats. */
  ghost predicate IsArtifact(m: Meaning, l: Limits, art: Pending, detailed: bool, bytes: seq<byte>) {
    && 8 <= |bytes| <= l.maxBytes && bytes[..8] in {MAGIC_HOOKED, MAGIC_SEALED, MAGIC_UNSEALED}
    && var hooked, modern := bytes[..8] == MAGIC_HOOKED, bytes[..8] != MAGIC_UNSEALED;
    && Begins(bytes[8..], FileSection(l, art, hooked, modern, detailed), [])
    && (!hooked ==> art.binding.invocation.None? && art.binding.hook.None?) && (art.binding.evidence.Some? <==> modern)
    && art.changes == (if detailed then art.diff else []) && art.transaction == m.identity(art.binding)
  }

  /** Whatever bytes the decoder accepts are the writing of the artifact it answers with, and nothing more. */
  lemma AcceptedIsArtifact(m: Meaning, l: Limits, bytes: seq<byte>) returns (detailed: bool)
    requires TakesOnly(m.take) && DecodePending(m, l, bytes).Ok?
    ensures IsArtifact(m, l, DecodePending(m, l, bytes).value, detailed, bytes)
  {
    hide ReadBinding, ReadReview, ReadBool, ReadOutcome, ReadTimings, ReadContents, Begins, BindsContent, Sound, EvidenceFor;
    hide BindingSection, ReviewSection, BoolByte, OutcomeSection, TimingsSection, ContentsSection;
    var art, s := DecodePending(m, l, bytes).value, bytes[8..];
    var hooked, modern := bytes[..8] == MAGIC_HOOKED, bytes[..8] != MAGIC_UNSEALED;
    var t := FieldsRead(m, l, s, hooked, modern);
    detailed := ReadBool(t[1]).value;
    BindingBegins(s, hooked, modern);
    ReviewBegins(l, t[0], modern);
    BoolBegins(t[1]);
    OutcomeBegins(m, l, t[2], modern, art);
    TimingsBegin(t[3]);
    ContentsBegin(l, t[4], modern, art);
    var tail := Then(TimingsSection(art.timings), ContentsSection(l, art));
    Two(t[3], TimingsSection(art.timings), t[4], ContentsSection(l, art), t[5]);
    Two(t[2], OutcomeSection(l, art, modern), t[3], tail, t[5]);
    tail := Then(OutcomeSection(l, art, modern), tail);
    Two(t[1], Put(BoolByte(detailed)), t[2], tail, t[5]);
    tail := Then(Put(BoolByte(detailed)), tail);
    Two(t[0], ReviewSection(l, art.review), t[1], tail, t[5]);
    Two(s, BindingSection(art.binding, hooked), t[0], Then(ReviewSection(l, art.review), tail), t[5]);
  }

  lemma TimingsBegin(s: seq<byte>)
    requires ReadTimings(s).Got?
    ensures Begins(s, TimingsSection(ReadTimings(s).value), ReadTimings(s).rest)
  {
    hide ReadSeven, SevenSection, Begins;
    SevenBegin(s);
  }

  // --------------------------------------------------- order, sorts and formats

  /** Byte by byte, at the first difference; a proper prefix comes first. */
  ghost predicate Before(a: seq<byte>, b: seq<byte>) {
    exists k: nat :: k <= |a| && k <= |b| && a[..k] == b[..k] && k < |b| && (k == |a| || a[k] < b[k])
  }

  lemma {:induction false} LessIsBefore(a: seq<byte>, b: seq<byte>)
    requires Less(a, b)
    ensures Before(a, b)
  {
    if a == [] || a[0] < b[0] {
      assert a[..0] == b[..0];
    } else {
      LessIsBefore(a[1..], b[1..]);
      var k: nat :| k <= |a[1..]| && k <= |b[1..]| && a[1..][..k] == b[1..][..k] && k < |b[1..]| && (k == |a[1..]| || a[1..][k] < b[1..][k]);
      assert a[..k + 1] == [a[0]] + a[1..][..k] && b[..k + 1] == [b[0]] + b[1..][..k];
      assert a[..k + 1] == b[..k + 1];
    }
  }

  /** A change says of its two sides what they are. */
  predicate Told(c: Change) {
    && c.path != [] && ValidPath(c.path) && c.before != c.after
    && match c.kind
       case Creating => c.before.None?
       case Deleting => c.before.Some? && c.after.None?
       case MetadataChange =>
         && c.before.Some? && c.after.Some?
         && c.before.value.kind == c.after.value.kind && c.before.value.size == c.after.value.size
         && c.before.value.content == c.after.value.content
       case Modifying =>
         && c.before.Some? && c.after.Some?
         && (c.before.value.kind != c.after.value.kind || c.before.value.size != c.after.value.size
             || c.before.value.content != c.after.value.content)
  }

  /** Events, flags and changes are in strict order, no path is observed or written twice, and changes say what they are. */
  ghost predicate Tidy(art: Pending) {
    && (forall i :: 0 < i < |art.review.effects| ==> art.review.effects[i - 1].sequence < art.review.effects[i].sequence)
    && (art.decision.PendingApproval? ==>
          var flags := art.decision.manifest.flags;
          forall i :: 0 < i < |flags| ==> FlagTag(flags[i - 1]) < FlagTag(flags[i]))
    && (forall c :: c in art.diff ==> Told(c))
    && (forall i :: 0 < i < |art.diff| ==> Before(Text(art.diff[i - 1].path), Text(art.diff[i].path)))
    && (forall i, j :: 0 <= i < j < |art.observed| ==> art.observed[i].path != art.observed[j].path)
    && (forall i, j :: 0 <= i < j < |art.written| ==> art.written[i].path != art.written[j].path)
  }

  /** What only the sealed formats have: Bash, metadata effects, a flag for them, and the fields of a hook. */
  ghost predicate Plain(art: Pending) {
    && (forall e :: e in art.review.effects ==> !e.effect.ModifyMetadata? && e.origin != BashCall)
    && (art.decision.PendingApproval? ==> PermissionChange !in art.decision.manifest.flags)
    && art.output.Monty? && art.binding.invocation.None? && art.binding.hook.None?
  }

  lemma GoodIsTidy(art: Pending, modern: bool)
    requires GoodReview(art.review, modern) && GoodDecision(art.decision, modern)
    requires GoodDiff(art.diff, modern) && GoodReads(art.observed) && GoodWrites(art.written)
    ensures Tidy(art)
  {
    hide GoodEvent, GoodObservation, GoodPrecondition, GoodOptional, Less, Before, Text;
    forall i | 0 < i < |art.diff|
      ensures Before(Text(art.diff[i - 1].path), Text(art.diff[i].path))
    {
      LessIsBefore(Text(art.diff[i - 1].path), Text(art.diff[i].path));
    }
    forall c | c in art.diff
      ensures Told(c)
    {
      var i :| 0 <= i < |art.diff| && art.diff[i] == c;
      assert GoodChange(art.diff[i], modern) && CanonicalChange(art.diff[i]);
    }
  }

  lemma ReadIsTidy(m: Meaning, l: Limits, s: seq<byte>, hooked: bool, modern: bool)
    requires ReadFields(m, l, s, hooked, modern).Got?
    ensures Tidy(ReadFields(m, l, s, hooked, modern).value)
  {
    hide ReadBinding, ReadBool, ReadTimings, ReadReview, ReadOutcome, ReadContents, Tidy;
    hide GoodReview, GoodDecision, GoodDiff, GoodReads, GoodWrites, ReadFields;
    var t := FieldsRead(m, l, s, hooked, modern);
    ReviewGood(l, t[0], modern);
    OutcomeGood(l, m.take, t[2], modern);
    ContentsGood(l, t[4], modern);
    GoodIsTidy(ReadFields(m, l, s, hooked, modern).value, modern);
  }

  /**
   Whatever is accepted is tidy, and says in the unsealed format only what that format can say.
   Under a seal the review is whole, not truncated, and about the intent that the binding names.
   The binding names the diff and the dependencies that are there.
   */
  lemma AcceptedIsTidy(m: Meaning, l: Limits, bytes: seq<byte>)
    requires DecodePending(m, l, bytes).Ok?
    ensures var art := DecodePending(m, l, bytes).value;
            && Tidy(art)
            && art.binding.diff == m.diff(art.diff)
            && art.binding.readSet == m.readSet(set o | o in art.observed)
            && art.binding.writeSet == m.writeSet(set w | w in art.written)
            && (bytes[..8] == MAGIC_UNSEALED ==> Plain(art) && art.binding.evidence.None?)
            && (bytes[..8] != MAGIC_UNSEALED ==>
                  && art.review.complete && !art.review.truncated && art.binding.evidence.Some?
                  && (art.review.intent.None? ==> art.binding.intent.None?)
                  && (art.review.intent.Some? ==> art.binding.intent == Some(m.intent(art.review.intent.value))))
  {
    hide ReadFields, Tidy, Plain, EvidenceFor, EvidencePass, Render, WellMade;
    var s := bytes[8..];
    var hooked, modern := bytes[..8] == MAGIC_HOOKED, bytes[..8] != MAGIC_UNSEALED;
    ReadIsTidy(m, l, s, hooked, modern);
    AcceptedIsSealed(m, l, bytes);
    if !modern {
      MagicsDiffer();
      ReadIsPlain(m, l, s);
    }
  }

  lemma GoodIsPlain(art: Pending)
    requires GoodReview(art.review, false) && GoodDecision(art.decision, false)
    requires art.output.Monty? && art.binding.invocation.None? && art.binding.hook.None?
    ensures Plain(art)
  {
    hide GoodState, GoodOptional, ValidPath;
    forall e | e in art.review.effects
      ensures !e.effect.ModifyMetadata? && e.origin != BashCall
    {
      var i :| 0 <= i < |art.review.effects| && art.review.effects[i] == e;
      assert GoodEvent(art.review.effects[i], false);
    }
  }

  lemma ReadIsPlain(m: Meaning, l: Limits, s: seq<byte>)
    requires ReadFields(m, l, s, false, false).Got?
    ensures Plain(ReadFields(m, l, s, false, false).value)
  {
    hide ReadFields, ReadBool, ReadTimings, ReadContents, ReadReview, ReadOutcome, ReadBinding, GoodReview, GoodDecision, Plain;
    var t := FieldsRead(m, l, s, false, false);
    ReviewGood(l, t[0], false);
    OutcomeGood(l, m.take, t[2], false);
    OutputIsMonty(l, m.take, t[2]);
    BindingIsPlain(s);
    GoodIsPlain(ReadFields(m, l, s, false, false).value);
  }

  lemma OutputIsMonty(l: Limits, take: Taker, s: seq<byte>)
    requires ReadOutcome(l, take, s, false).Got?
    ensures ReadOutcome(l, take, s, false).value.1.Monty?
  {
    hide ReadMonty, ReadDecision, ReadStats;
    MontyIsMonty(l, take, ReadDecision(s, false).rest);
  }

  lemma BindingIsPlain(s: seq<byte>)
    requires ReadBinding(s, false, false).Got?
    ensures var b := ReadBinding(s, false, false).value; b.invocation.None? && b.hook.None?
  {
    hide ReadBinding, Begins;
    BindingBegins(s, false, false);
  }

  /**
   And what is encoded says no more than its format can: plain without a seal; under one, of a
   whole review about the bound intent, with the digest of the review and the outcome bound. A
   denial is never encoded.
   */
  lemma EncodedIsPlain(m: Meaning, l: Limits, art: Pending)
    requires EncodePending(m, l, art).Ok?
    ensures !art.decision.Denied?
    ensures art.binding.evidence.None? ==> Plain(art)
    ensures art.binding.evidence.Some? ==>
              && art.review.complete && !art.review.truncated
              && (art.review.intent.None? ==> art.binding.intent.None?)
              && (art.review.intent.Some? ==> art.binding.intent == Some(m.intent(art.review.intent.value)))
              && art.binding.evidence.value
                 == m.evidence([1] + Bytes(ReviewSection(l, art.review)) + Bytes(OutcomeSection(l, art, true)))
  {
    hide Written, ReviewSection, OutputSection, TailSection, StatsSection, ManifestSection;
    NothingRefused(m, Render(m, l, art, art.binding.evidence.Some?), false, l.maxBytes);
    OutputIsOld(l, art);
  }

  /**
   What the unsealed format cannot carry is refused before anything is written, and nothing else is:
   a metadata effect, an effect of a Bash call, a pending permission change, an invocation or a hook.
   */
  lemma InexpressibleIsRefused(m: Meaning, l: Limits, art: Pending)
    requires art.binding.evidence.None?
    ensures var inexpressible :=
              || (exists e :: e in art.review.effects && (e.effect.ModifyMetadata? || e.origin == BashCall))
              || (art.decision.PendingApproval? && PermissionChange in art.decision.manifest.flags)
              || art.binding.invocation.Some? || art.binding.hook.Some?;
            && (Header(m, Render(m, l, art, false), false, l.maxBytes) == Err(Unsupported) <==> inexpressible)
            && (inexpressible ==> EncodePending(m, l, art) == Err(Unsupported))
  {
    hide ReviewSection, OutcomeSection, TailSection, BindingWrites, Evidence, FillSection;
    if e :| e in art.review.effects && (e.effect.ModifyMetadata? || e.origin == BashCall) {
      var i :| 0 <= i < |art.review.effects| && art.review.effects[i] == e;
      assert ModernEffect(art.review.effects[i]);
    }
    if i :| 0 <= i < |art.review.effects| && ModernEffect(art.review.effects[i]) {
      assert art.review.effects[i] in art.review.effects;
    }
    FillIsBounded(l.maxBytes, [], HeaderWrites(Render(m, l, art, false), false));
  }

  /** Writing fails only for want of room. */
  lemma {:induction false} FillIsBounded(maximum: nat, sofar: seq<byte>, writes: seq<seq<byte>>)
    ensures Fill(maximum, sofar, writes) != Err(Unsupported)
    decreases |writes|
  {
    if writes != [] && |sofar + writes[0]| <= maximum {
      FillIsBounded(maximum, sofar + writes[0], writes[1..]);
    }
  }

  lemma OutputIsOld(l: Limits, art: Pending)
    ensures OutcomeSection(l, art, false).refusal.None? ==> art.output.Monty?
  {
  }
}
