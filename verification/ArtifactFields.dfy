/**
 Every field of a pending artifact reads back as it was written, whatever follows it; and every
 field that was read is one that reads back.
 */
module ArtifactFields {
  import opened Types
  import opened ByteCodec
  import opened Paths
  import opened OperationLog
  import opened ArtifactCodec
  import P = PlanCodec

  // ------------------------------------------------------ integers and texts

  lemma LengthBack(n: nat, maximum: nat, rest: seq<byte>)
    requires n <= maximum < 0x1_0000_0000_0000_0000
    ensures ReadLength(Length(n) + rest, maximum) == P.Got(n, rest)
  {
    hide U64Bytes, P.ReadU64;
    P.U64Back(n, rest);
  }

  lemma TextBack(text: seq<byte>, maximum: nat, rest: seq<byte>)
    requires |text| <= maximum < 0x1_0000_0000_0000_0000
    ensures ReadText(Bytes(TextSection(text)) + rest, maximum) == P.Got(text, rest)
    ensures TextSection(text).refusal.None? && |Bytes(TextSection(text))| == 8 + |text|
  {
    Head(Length(|text|), Put(text), rest);
    PutBytes(text);
    LengthBack(|text|, maximum, text + rest);
    P.TakeBack(text, rest);
  }

  lemma TextPresent(p: Path)
    requires ValidPath(p)
    ensures |Text(p)| >= 1
  {
    if p != [] {
      assert ValidName(p[0]);
    }
  }

  lemma PathBack(l: Limits, p: Path, rest: seq<byte>)
    requires ValidPath(p) && PathSection(l, p).refusal.None?
    ensures ReadPath(l, Bytes(PathSection(l, p)) + rest) == P.Got(p, rest)
    ensures |Bytes(PathSection(l, p))| >= 9
  {
    ParseText(p);
    TextPresent(p);
    TextBack(Text(p), l.maxPathBytes, rest);
  }

  lemma U16Back(n: u16, rest: seq<byte>)
    ensures ReadU16(U16Bytes(n) + rest) == P.Got(n, rest)
  {
    Widths16();
    FromToLE(n, 2);
    P.TakeBack(U16Bytes(n), rest);
  }

  lemma BoolBack(b: bool, rest: seq<byte>)
    ensures ReadBool(BoolByte(b) + rest) == P.Got(b, rest)
  {
    P.ByteBack(BoolByte(b)[0], rest);
  }

  lemma OptionalDigestBack(d: Option<Digest>, rest: seq<byte>)
    ensures ReadOptionalDigest(Bytes(OptionalDigest(d)) + rest) == P.Got(d, rest)
    ensures OptionalDigest(d).refusal.None? && |Bytes(OptionalDigest(d))| >= 1
  {
    if d.None? {
      PutBytes([0]);
      P.ByteBack(0, rest);
    } else {
      Head([1], Put(d.value), rest);
      PutBytes(d.value);
      P.ByteBack(1, d.value + rest);
      P.DigestBack(d.value, rest);
    }
  }

  // ------------------------------------------------------------------ states

  /** What the reader demands of a state. */
  predicate GoodState(s: NodeState, shifted: bool) {
    P.ReadableState(s, VirtualKinds(shifted))
  }

  predicate GoodOptional(s: Option<NodeState>, shifted: bool) {
    s.Some? ==> GoodState(s.value, shifted)
  }

  lemma CtimeBytes(c: Option<i128>)
    ensures CtimeSection(c).refusal.None?
    ensures Bytes(CtimeSection(c)) == if c.Some? then [1] + I128Bytes(c.value) else [0]
  {
    if c.None? {
      PutBytes([0]);
    } else {
      Head([1], Put(I128Bytes(c.value)), []);
      PutBytes(I128Bytes(c.value));
      assert Bytes(CtimeSection(c)) + [] == Bytes(CtimeSection(c));
      assert [1] + (I128Bytes(c.value) + []) == [1] + I128Bytes(c.value);
    }
  }

  /** A stamp is written as in a plan. */
  lemma StampBytes(s: FileStamp)
    ensures StampSection(s).refusal.None? && Bytes(StampSection(s)) == P.WriteStamp(s)
  {
    var id := Then(Put(U64Bytes(s.id.high)), Put(U64Bytes(s.id.low)));
    var times := Then(Put(I128Bytes(s.mtime)), Then(CtimeSection(s.ctime), id));
    CtimeBytes(s.ctime);
    ThenBytes(Put(U64Bytes(s.id.high)), Put(U64Bytes(s.id.low)));
    ThenBytes(CtimeSection(s.ctime), id);
    ThenBytes(Put(I128Bytes(s.mtime)), Then(CtimeSection(s.ctime), id));
    ThenBytes(Put(U32Bytes(s.mode)), times);
    ThenBytes(Put(U64Bytes(s.size)), Then(Put(U32Bytes(s.mode)), times));
    ThenBytes(Put([KindTag(s.kind)]), Then(Put(U64Bytes(s.size)), Then(Put(U32Bytes(s.mode)), times)));
    PutBytes([KindTag(s.kind)]);
    PutBytes(U64Bytes(s.size));
    PutBytes(U32Bytes(s.mode));
    PutBytes(I128Bytes(s.mtime));
    PutBytes(U64Bytes(s.id.high));
    PutBytes(U64Bytes(s.id.low));
    P.Nest7([KindTag(s.kind)], U64Bytes(s.size), U32Bytes(s.mode), I128Bytes(s.mtime), Bytes(CtimeSection(s.ctime)),
            U64Bytes(s.id.high), U64Bytes(s.id.low), []);
  }

  lemma ThenBytes(a: Section, b: Section)
    requires a.refusal.None?
    ensures Bytes(Then(a, b)) == Bytes(a) + Bytes(b)
  {
    JoinConcat(a.writes, b.writes);
  }

  lemma ContentBytes(c: Content)
    ensures ContentSection(c).refusal.None? && Bytes(ContentSection(c)) == P.WriteContent(c)
  {
    match c
    case NoContent => PutBytes([0]);
    case Blob(b) =>
      ThenBytes(Put([1]), Put(b));
      PutBytes([1]);
      PutBytes(b);
    case Stamp(s) =>
      StampBytes(s);
      ThenBytes(Put([2]), StampSection(s));
      PutBytes([2]);
  }

  /** And so is a state. */
  lemma StateBytes(s: NodeState)
    ensures StateSection(s).refusal.None? && Bytes(StateSection(s)) == P.WriteState(s)
  {
    hide P.WriteContent, ContentSection;
    var content := ContentSection(s.content);
    ContentBytes(s.content);
    ThenBytes(Put(U32Bytes(s.mode)), content);
    ThenBytes(Put(U64Bytes(s.size)), Then(Put(U32Bytes(s.mode)), content));
    ThenBytes(Put([KindTag(s.kind)]), Then(Put(U64Bytes(s.size)), Then(Put(U32Bytes(s.mode)), content)));
    PutBytes([KindTag(s.kind)]);
    PutBytes(U64Bytes(s.size));
    PutBytes(U32Bytes(s.mode));
    P.Nest4([KindTag(s.kind)], U64Bytes(s.size), U32Bytes(s.mode), Bytes(content), []);
  }

  lemma StateBack(s: NodeState, shifted: bool, rest: seq<byte>)
    requires GoodState(s, shifted)
    ensures StateSection(s).refusal.None?
    ensures ReadState(Bytes(StateSection(s)) + rest, shifted) == P.Got(s, rest)
  {
    StateBytes(s);
    P.NodeStateBack(s, VirtualKinds(shifted), rest);
  }

  lemma OptionalStateBack(s: Option<NodeState>, shifted: bool, rest: seq<byte>)
    requires GoodOptional(s, shifted)
    ensures OptionalState(s).refusal.None? && |Bytes(OptionalState(s))| >= 1
    ensures ReadOptionalState(Bytes(OptionalState(s)) + rest, shifted) == P.Got(s, rest)
  {
    if s.None? {
      PutBytes([0]);
      P.ByteBack(0, rest);
    } else {
      StateBack(s.value, shifted, rest);
      Head([1], StateSection(s.value), rest);
      P.ByteBack(1, Bytes(StateSection(s.value)) + rest);
    }
  }

  lemma TwoStatesBack(before: NodeState, after: NodeState, shifted: bool, rest: seq<byte>)
    requires GoodState(before, shifted) && GoodState(after, shifted)
    ensures var both := Then(StateSection(before), StateSection(after));
            both.refusal.None? && ReadTwoStates(Bytes(both) + rest, shifted) == P.Got((before, after), rest)
  {
    StateBack(after, shifted, rest);
    StateBack(before, shifted, Bytes(StateSection(after)) + rest);
    Next(StateSection(before), StateSection(after), rest);
  }

  // ------------------------------------------------------------- collections

  /** Reading undoes writing, whatever follows; and the element is not too short. */
  ghost predicate Returns<T(!new)>(x: T, write: T -> Section, read: seq<byte> -> P.Parsed<T>, each: nat) {
    && write(x).refusal.None? && |Bytes(write(x))| >= each
    && forall rest: seq<byte> :: read(Bytes(write(x)) + rest) == P.Got(x, rest)
  }

  lemma {:induction false} FirstBack<T(!new)>(xs: seq<T>, n: nat, write: T -> Section, read: seq<byte> -> P.Parsed<T>, each: nat,
                                              rest: seq<byte>)
    requires n <= |xs| && forall i :: 0 <= i < n ==> Returns(xs[i], write, read, each)
    ensures First(xs, n, write).refusal.None? && |Bytes(First(xs, n, write))| >= n * each
    ensures P.Many(n, Bytes(First(xs, n, write)) + rest, read) == P.Got(xs[..n], rest)
  {
    if n == 0 {
      assert Bytes(First(xs, n, write)) + rest == rest;
    } else {
      hide Bytes;
      var init, last := First(xs, n - 1, write), xs[n - 1];
      assert Returns(xs[n - 1], write, read, each);
      FirstBack(xs, n - 1, write, read, each, Bytes(write(last)) + rest);
      Next(init, write(last), rest);
      MoreBytes(n, each, |Bytes(init)|, |Bytes(write(last))|);
      assert xs[..n] == xs[..n - 1] + [last];
    }
  }

  lemma MoreBytes(n: nat, each: nat, before: nat, more: nat)
    requires n > 0 && before >= (n - 1) * each && more >= each
    ensures before + more >= n * each
  {
  }

  /** What was written in full was written element by element. */
  lemma {:induction false} NoneRefused<T>(xs: seq<T>, n: nat, i: nat, write: T -> Section)
    requires i < n <= |xs| && First(xs, n, write).refusal.None?
    ensures write(xs[i]).refusal.None?
  {
    if i < n - 1 {
      NoneRefused(xs, n - 1, i, write);
    }
  }

  lemma CountBack(n: nat, maximum: nat, each: nat, rest: seq<byte>)
    requires n <= maximum < 0x1_0000_0000_0000_0000 && each > 0 && |rest| >= n * each
    ensures ReadCount(Length(n) + rest, maximum, each) == P.Got(n, rest)
  {
    LengthBack(n, maximum, rest);
    assert n <= |rest| / each by {
      Quotient(n, each, |rest|);
    }
  }

  lemma Quotient(n: nat, each: nat, total: nat)
    requires each > 0 && n * each <= total
    ensures n <= total / each
  {
    assert total < (total / each + 1) * each;
    Times(total / each + 1, n, each);
  }

  lemma Times(a: nat, b: nat, c: nat)
    ensures a <= b ==> a * c <= b * c
  {
  }

  lemma ElementsBack<T(!new)>(xs: seq<T>, maximum: nat, write: T -> Section, read: seq<byte> -> P.Parsed<T>, each: nat, rest: seq<byte>)
    requires |xs| <= maximum < 0x1_0000_0000_0000_0000 && each > 0
    requires forall i :: 0 <= i < |xs| ==> Returns(xs[i], write, read, each)
    ensures var all := Then(Put(Length(|xs|)), First(xs, |xs|, write));
            all.refusal.None? && |Bytes(all)| >= 8 && ReadCollection(Bytes(all) + rest, maximum, each, read) == P.Got(xs, rest)
  {
    var elements := First(xs, |xs|, write);
    FirstBack(xs, |xs|, write, read, each, rest);
    Head(Length(|xs|), elements, rest);
    CountBack(|xs|, maximum, each, Bytes(elements) + rest);
    assert xs[..|xs|] == xs;
  }

  // ----------------------------------------------------------------- effects

  /** What the reader demands of an effect: good states, and only sealed artifacts know metadata effects. */
  predicate GoodEffect(e: Effect, modern: bool) {
    && ValidPath(e.path)
    && match e
       case MetadataRead(_, s) => GoodOptional(s, modern)
       case ContentRead(_, _) => true
       case DirectoryRead(_, _) => true
       case Create(_, after) => GoodState(after, modern)
       case Delete(_, before) => GoodState(before, modern)
       case ModifyContent(_, before, after) => GoodState(before, modern) && GoodState(after, modern)
       case ModifyMetadata(_, before, after) => modern && GoodState(before, modern) && GoodState(after, modern)
       case Rename(_, to, before, after) => ValidPath(to) && GoodState(before, modern) && GoodState(after, modern)
  }

  lemma DetailBack(l: Limits, e: Effect, modern: bool, rest: seq<byte>)
    requires GoodEffect(e, modern) && EffectDetail(l, e).refusal.None?
    ensures ReadDetail(l, Bytes(EffectDetail(l, e)) + rest, EffectTag(e), e.path, modern) == P.Got(e, rest)
  {
    hide GoodState, StateSection, OptionalState, PathSection, ReadState, ReadPath;
    match e
    case ContentRead(_, d) => DigestDetailBack(l, e, d, modern, rest);
    case DirectoryRead(_, d) => DigestDetailBack(l, e, d, modern, rest);
    case Rename(path, to, before, after) => RenameBack(l, path, to, before, after, modern, rest);
    case ModifyContent(path, before, after) => PairBack(path, before, after, 5, modern, rest);
    case ModifyMetadata(path, before, after) => PairBack(path, before, after, 8, modern, rest);
    case _ => StateDetailBack(l, e, modern, rest);
  }

  lemma DigestDetailBack(l: Limits, e: Effect, d: Digest, modern: bool, rest: seq<byte>)
    requires (e.ContentRead? || e.DirectoryRead?) && e.digest == d
    ensures ReadDetail(l, Bytes(EffectDetail(l, e)) + rest, EffectTag(e), e.path, modern) == P.Got(e, rest)
  {
    PutBytes(d);
    P.DigestBack(d, rest);
  }

  lemma StateDetailBack(l: Limits, e: Effect, modern: bool, rest: seq<byte>)
    requires (e.MetadataRead? || e.Create? || e.Delete?) && GoodEffect(e, modern)
    ensures ReadDetail(l, Bytes(EffectDetail(l, e)) + rest, EffectTag(e), e.path, modern) == P.Got(e, rest)
  {
    hide GoodState, StateSection, OptionalState, ReadState, ReadOptionalState;
    match e
    case MetadataRead(_, s) => OptionalStateBack(s, modern, rest);
    case Create(_, after) => StateBack(after, modern, rest);
    case Delete(_, before) => StateBack(before, modern, rest);
  }

  lemma PairBack(path: Path, before: NodeState, after: NodeState, tag: byte, modern: bool, rest: seq<byte>)
    requires GoodState(before, modern) && GoodState(after, modern)
    ensures ReadPair(Bytes(Then(StateSection(before), StateSection(after))) + rest, tag, path, modern)
            == P.Got(if tag == 5 then ModifyContent(path, before, after) else ModifyMetadata(path, before, after), rest)
  {
    TwoStatesBack(before, after, modern, rest);
  }

  lemma RenameBack(l: Limits, path: Path, to: Path, before: NodeState, after: NodeState, modern: bool, rest: seq<byte>)
    requires ValidPath(to) && GoodState(before, modern) && GoodState(after, modern) && PathSection(l, to).refusal.None?
    ensures var detail := Then(PathSection(l, to), Then(StateSection(before), StateSection(after)));
            detail.refusal.None? && ReadDetail(l, Bytes(detail) + rest, 7, path, modern) == P.Got(Rename(path, to, before, after), rest)
  {
    hide GoodState, StateSection, PathSection, ReadState, ReadPath, ValidPath;
    var both := Then(StateSection(before), StateSection(after));
    TwoStatesBack(before, after, modern, rest);
    Next(PathSection(l, to), both, rest);
    PathBack(l, to, Bytes(both) + rest);
  }

  lemma EffectBack(l: Limits, e: Effect, modern: bool, rest: seq<byte>)
    requires GoodEffect(e, modern) && EffectSection(l, e).refusal.None?
    ensures ReadEffect(l, Bytes(EffectSection(l, e)) + rest, modern) == P.Got(e, rest)
    ensures |Bytes(EffectSection(l, e))| >= 10
  {
    var path, detail := PathSection(l, e.path), EffectDetail(l, e);
    Next(Put([EffectTag(e)]), Then(path, detail), rest);
    PutBytes([EffectTag(e)]);
    Next(path, detail, rest);
    P.ByteBack(EffectTag(e), Bytes(Then(path, detail)) + rest);
    PathBack(l, e.path, Bytes(detail) + rest);
    DetailBack(l, e, modern, rest);
  }

  predicate GoodEvent(e: EffectEvent, modern: bool) {
    GoodEffect(e.effect, modern) && (e.origin == BashCall ==> modern)
  }

  lemma OriginBack(o: EffectOrigin, modern: bool, rest: seq<byte>)
    requires o == BashCall ==> modern
    ensures ReadOrigin([OriginTag(o)] + rest, modern) == P.Got(o, rest)
  {
    P.ByteBack(OriginTag(o), rest);
  }

  lemma EventBack(l: Limits, e: EffectEvent, modern: bool, rest: seq<byte>)
    requires GoodEvent(e, modern) && EventSection(l, e).refusal.None?
    ensures ReadEvent(l, Bytes(EventSection(l, e)) + rest, modern) == P.Got(e, rest)
    ensures |Bytes(EventSection(l, e))| >= 19
  {
    var effect := EffectSection(l, e.effect);
    var tagged := Then(Put([OriginTag(e.origin)]), effect);
    Next(Put(U64Bytes(e.sequence)), tagged, rest);
    PutBytes(U64Bytes(e.sequence));
    Next(Put([OriginTag(e.origin)]), effect, rest);
    PutBytes([OriginTag(e.origin)]);
    P.U64Back(e.sequence, Bytes(tagged) + rest);
    OriginBack(e.origin, modern, Bytes(effect) + rest);
    EffectBack(l, e.effect, modern, rest);
  }

  lemma EventsReturn(l: Limits, effects: seq<EffectEvent>, modern: bool, i: nat)
    requires i < |effects| && GoodEvent(effects[i], modern) && EventSection(l, effects[i]).refusal.None?
    ensures Returns(effects[i], EventWriter(l), EventReader(l, modern), 19)
  {
    var e := effects[i];
    EventBack(l, e, modern, []);
    forall rest: seq<byte>
      ensures EventReader(l, modern)(Bytes(EventWriter(l)(e)) + rest) == P.Got(e, rest)
    {
      EventBack(l, e, modern, rest);
    }
  }

  lemma EffectsBack(l: Limits, effects: seq<EffectEvent>, modern: bool, rest: seq<byte>)
    requires (forall i :: 0 <= i < |effects| ==> GoodEvent(effects[i], modern)) && InSequence(effects)
    requires Collection(effects, l.maxEffects, EventWriter(l)).refusal.None?
    ensures ReadEffects(l, Bytes(Collection(effects, l.maxEffects, EventWriter(l))) + rest, modern) == P.Got(effects, rest)
  {
    Next(Put(Length(|effects|)), First(effects, |effects|, EventWriter(l)), rest);
    forall i | 0 <= i < |effects|
      ensures Returns(effects[i], EventWriter(l), EventReader(l, modern), 19)
    {
      NoneRefused(effects, |effects|, i, EventWriter(l));
      EventsReturn(l, effects, modern, i);
    }
    ElementsBack(effects, l.maxEffects, EventWriter(l), EventReader(l, modern), 19, rest);
  }

  // ----------------------------------------------------------------- numbers

  lemma SevenBack(a: u64, b: u64, c: u64, d: u64, e: u64, f: u64, g: u64, rest: seq<byte>)
    ensures SevenSection(a, b, c, d, e, f, g).refusal.None?
    ensures ReadSeven(Bytes(SevenSection(a, b, c, d, e, f, g)) + rest) == P.Got((a, b, c, d, e, f, g), rest)
  {
    var s6 := Put(U64Bytes(g));
    var s5 := Then(Put(U64Bytes(f)), s6);
    var s4 := Then(Put(U64Bytes(e)), s5);
    var s3 := Then(Put(U64Bytes(d)), s4);
    var s2 := Then(Put(U64Bytes(c)), s3);
    var s1 := Then(Put(U64Bytes(b)), s2);
    PutBytes(U64Bytes(g));
    U64Next(f, s6, rest);
    U64Next(e, s5, rest);
    U64Next(d, s4, rest);
    U64Next(c, s3, rest);
    U64Next(b, s2, rest);
    U64Next(a, s1, rest);
    P.U64Back(g, rest);
  }

  /** Read one number off the front. */
  lemma U64Next(n: u64, after: Section, rest: seq<byte>)
    requires after.refusal.None?
    ensures Then(Put(U64Bytes(n)), after).refusal.None?
    ensures P.ReadU64(Bytes(Then(Put(U64Bytes(n)), after)) + rest) == P.Got(n, Bytes(after) + rest)
  {
    Head(U64Bytes(n), after, rest);
    P.U64Back(n, Bytes(after) + rest);
  }

  lemma StatsBack(s: Stats, rest: seq<byte>)
    ensures StatsSection(s).refusal.None? && ReadStats(Bytes(StatsSection(s)) + rest) == P.Got(s, rest)
  {
    SevenBack(s.osCalls, s.readBytes, s.writeBytes, s.directoryEntries, s.outputBytes, s.deniedAccesses, s.resultBytes, rest);
  }

  lemma TimingsBack(t: Timings, rest: seq<byte>)
    ensures TimingsSection(t).refusal.None? && ReadTimings(Bytes(TimingsSection(t)) + rest) == P.Got(t, rest)
  {
    SevenBack(t.snapshot, t.execute, t.diff, t.policy, t.bindAndStore, t.commit, t.total, rest);
  }

  lemma MetricsBack(m: RiskMetrics, rest: seq<byte>)
    ensures MetricsSection(m).refusal.None? && ReadMetrics(Bytes(MetricsSection(m)) + rest) == P.Got(m, rest)
  {
    var s8 := Put(U64Bytes(m.symlinkChanges));
    var s7 := Then(Put(U64Bytes(m.executableChanges)), s8);
    var s6 := Then(Put(U16Bytes(m.deleteRatio)), s7);
    var s5 := Then(Put(U64Bytes(m.changedBytes)), s6);
    var s4 := Then(Put(U64Bytes(m.renamed)), s5);
    var s3 := Then(Put(U64Bytes(m.deleted)), s4);
    var s2 := Then(Put(U64Bytes(m.modified)), s3);
    var s1 := Then(Put(U64Bytes(m.created)), s2);
    PutBytes(U64Bytes(m.symlinkChanges));
    P.U64Back(m.symlinkChanges, rest);
    U64Next(m.executableChanges, s8, rest);
    Head(U16Bytes(m.deleteRatio), s7, rest);
    U16Back(m.deleteRatio, Bytes(s7) + rest);
    U64Next(m.changedBytes, s6, rest);
    U64Next(m.renamed, s5, rest);
    U64Next(m.deleted, s4, rest);
    U64Next(m.modified, s3, rest);
    U64Next(m.created, s2, rest);
    U64Next(m.touched, s1, rest);
  }

  // ---------------------------------------------------------------- decision

  /** Flags come sorted and without repetition; only sealed artifacts know the permission risk. */
  predicate GoodFlags(flags: seq<RiskFlag>, modern: bool) {
    FlagsSorted(flags) && (PermissionChange in flags ==> modern)
  }

  lemma {:induction false} SortedIsShort(flags: seq<RiskFlag>, n: nat)
    requires FlagsSorted(flags) && 0 < n <= |flags|
    ensures FlagTag(flags[n - 1]) >= n
  {
    if n > 1 {
      SortedIsShort(flags, n - 1);
    }
  }

  lemma FlagBack(f: RiskFlag, modern: bool, rest: seq<byte>)
    requires f == PermissionChange ==> modern
    ensures ReadFlag([FlagTag(f)] + rest, modern) == P.Got(f, rest)
  {
    P.ByteBack(FlagTag(f), rest);
  }

  lemma FlagReturns(f: RiskFlag, modern: bool)
    requires f == PermissionChange ==> modern
    ensures Returns(f, FlagSection, FlagReader(modern), 1)
  {
    PutBytes([FlagTag(f)]);
    forall rest: seq<byte>
      ensures FlagReader(modern)(Bytes(FlagSection(f)) + rest) == P.Got(f, rest)
    {
      FlagBack(f, modern, rest);
    }
  }

  lemma FlagsBack(flags: seq<RiskFlag>, modern: bool, rest: seq<byte>)
    requires GoodFlags(flags, modern)
    ensures FlagsSection(flags).refusal.None? && ReadFlags(Bytes(FlagsSection(flags)) + rest, modern) == P.Got(flags, rest)
  {
    if flags != [] {
      SortedIsShort(flags, |flags|);
    }
    forall i | 0 <= i < |flags|
      ensures Returns(flags[i], FlagSection, FlagReader(modern), 1)
    {
      FlagReturns(flags[i], modern);
    }
    ElementsBack(flags, 32, FlagSection, FlagReader(modern), 1, rest);
  }

  lemma ManifestBack(m: RiskManifest, modern: bool, rest: seq<byte>)
    requires GoodFlags(m.flags, modern)
    ensures ManifestSection(m).refusal.None? && ReadManifest(Bytes(ManifestSection(m)) + rest, modern) == P.Got(m, rest)
  {
    var flags, policy := FlagsSection(m.flags), Put(m.policy);
    PutBytes(m.policy);
    P.DigestBack(m.policy, rest);
    FlagsBack(m.flags, modern, Bytes(policy) + rest);
    MetricsBack(m.metrics, Bytes(Then(flags, policy)) + rest);
    Next(flags, policy, rest);
    Next(MetricsSection(m.metrics), Then(flags, policy), rest);
  }

  predicate GoodDecision(d: Decision, modern: bool) {
    d.PendingApproval? ==> GoodFlags(d.manifest.flags, modern)
  }

  lemma DecisionBack(d: Decision, modern: bool, rest: seq<byte>)
    requires GoodDecision(d, modern) && DecisionSection(d).refusal.None?
    ensures ReadDecision(Bytes(DecisionSection(d)) + rest, modern) == P.Got(d, rest)
  {
    if d.AutoApproved? {
      PutBytes([1]);
      P.ByteBack(1, rest);
    } else {
      ManifestBack(d.manifest, modern, rest);
      Head([2], ManifestSection(d.manifest), rest);
      P.ByteBack(2, Bytes(ManifestSection(d.manifest)) + rest);
    }
  }

  // ------------------------------------------------------------------ output

  /** The serializer of values takes back, whole, what it wrote. Nothing else is known of it. */
  predicate TakesBack(take: Taker, o: Output) {
    o.Monty? ==> take(Join(o.value.pieces)) == Some((o.value, []))
  }

  lemma ValueBack(l: Limits, take: Taker, v: Value, rest: seq<byte>)
    requires ValueSection(l, v).refusal.None? && take(Join(v.pieces)) == Some((v, []))
    ensures ReadValue(l, take, Bytes(ValueSection(l, v)) + rest) == P.Got(v, rest)
  {
    var bytes := Join(v.pieces);
    Head(Length(|bytes|), Section(v.pieces, None), rest);
    LengthBack(|bytes|, l.maxValueBytes, bytes + rest);
    P.TakeBack(bytes, rest);
  }

  function MontySection(l: Limits, value: Value, stdout: seq<byte>): Section {
    Then(ValueSection(l, value), Bounded(|stdout|, l.maxStdoutBytes, TextSection(stdout)))
  }

  lemma MontyBack(l: Limits, take: Taker, value: Value, stdout: seq<byte>, rest: seq<byte>)
    requires MontySection(l, value, stdout).refusal.None? && take(Join(value.pieces)) == Some((value, []))
    ensures ReadMonty(l, take, Bytes(MontySection(l, value, stdout)) + rest) == P.Got(Monty(value, stdout), rest)
  {
    Next(ValueSection(l, value), Bounded(|stdout|, l.maxStdoutBytes, TextSection(stdout)), rest);
    ValueBack(l, take, value, Bytes(TextSection(stdout)) + rest);
    TextBack(stdout, l.maxStdoutBytes, rest);
  }

  function BashSection(profile: seq<byte>, stdout: seq<byte>, stderr: seq<byte>): Section {
    Then(TextSection(profile), Then(Put(I32Bytes(0)), Then(TextSection(stdout), TextSection(stderr))))
  }

  lemma BashBack(l: Limits, profile: seq<byte>, stdout: seq<byte>, stderr: seq<byte>, rest: seq<byte>)
    requires BashRefusal(l, profile, stdout, stderr).None?
    ensures BashSection(profile, stdout, stderr).refusal.None?
    ensures ReadBash(l, Bytes(BashSection(profile, stdout, stderr)) + rest) == P.Got(Bash(profile, 0, stdout, stderr), rest)
  {
    var texts := Then(TextSection(stdout), TextSection(stderr));
    TextBack(stderr, l.maxStdoutBytes - |stdout|, rest);
    TextBack(stdout, l.maxStdoutBytes, Bytes(TextSection(stderr)) + rest);
    Next(TextSection(stdout), TextSection(stderr), rest);
    Head(I32Bytes(0), texts, rest);
    var coded := Then(Put(I32Bytes(0)), texts);
    ZeroBytes();
    P.TakeBack(I32Bytes(0), Bytes(texts) + rest);
    TextBack(profile, 128, Bytes(coded) + rest);
    Next(TextSection(profile), coded, rest);
  }

  lemma ZeroBytes()
    ensures I32Bytes(0) == [0, 0, 0, 0]
  {
    assert Digit(0, 0) == 0 && Digit(0, 1) == 0 && Digit(0, 2) == Digit(0, 1) && Digit(0, 3) == Digit(0, 2);
  }

  /** The two bytes before a sealed output: which backend, and that it is complete. */
  lemma TaggedBack(tag: byte, body: Section, rest: seq<byte>)
    requires body.refusal.None?
    ensures Then(Put([tag]), Then(Put([1]), body)).refusal.None?
    ensures Bytes(Then(Put([tag]), Then(Put([1]), body))) + rest == [tag] + ([1] + (Bytes(body) + rest))
  {
    Head([1], body, rest);
    Head([tag], Then(Put([1]), body), rest);
  }

  lemma OutputBack(l: Limits, take: Taker, o: Output, modern: bool, rest: seq<byte>)
    requires OutputSection(l, o, modern).refusal.None? && TakesBack(take, o)
    ensures ReadOutput(l, take, Bytes(OutputSection(l, o, modern)) + rest, modern) == P.Got(o, rest)
  {
    match o
    case Bash(profile, exitCode, stdout, stderr) => BashOutputBack(l, take, o, rest);
    case Monty(value, stdout) =>
      var body := MontySection(l, value, stdout);
      if modern {
        Next(Put([1]), Then(Put([1]), body), rest);
        Next(Put([1]), body, rest);
        TaggedBack(1, body, rest);
        P.ByteBack(1, [1] + (Bytes(body) + rest));
        P.ByteBack(1, Bytes(body) + rest);
      }
      MontyBack(l, take, value, stdout, rest);
  }

  lemma BashOutputBack(l: Limits, take: Taker, o: Output, rest: seq<byte>)
    requires o.Bash? && OutputSection(l, o, true).refusal.None?
    ensures ReadOutput(l, take, Bytes(OutputSection(l, o, true)) + rest, true) == P.Got(o, rest)
  {
    hide TextSection, ReadBash, LE;
    var body := BashSection(o.profile, o.stdout, o.stderr);
    BashBack(l, o.profile, o.stdout, o.stderr, rest);
    Head([2, 1], body, rest);
    assert [2, 1] + (Bytes(body) + rest) == [2] + ([1] + (Bytes(body) + rest));
    P.ByteBack(2, [1] + (Bytes(body) + rest));
    P.ByteBack(1, Bytes(body) + rest);
  }

  // ------------------------------------------------------------------ review

  lemma IntentBack(l: Limits, intent: Option<seq<byte>>, rest: seq<byte>)
    requires IntentSection(l, intent).refusal.None?
    ensures ReadIntent(l, Bytes(IntentSection(l, intent)) + rest) == P.Got(intent, rest)
  {
    if intent.None? {
      PutBytes([0]);
      P.ByteBack(0, rest);
    } else {
      TextBack(intent.value, l.maxIntentBytes, rest);
      Head([1], TextSection(intent.value), rest);
      P.ByteBack(1, Bytes(TextSection(intent.value)) + rest);
    }
  }

  predicate GoodReview(r: Review, modern: bool) {
    (forall i :: 0 <= i < |r.effects| ==> GoodEvent(r.effects[i], modern)) && InSequence(r.effects)
  }

  /** What says that the review is whole. */
  lemma WholeBack(complete: bool, truncated: bool, rest: seq<byte>)
    ensures var s := Then(Put(BoolByte(complete)), Put(BoolByte(truncated)));
            && s.refusal.None? && Bytes(s) + rest == BoolByte(complete) + (BoolByte(truncated) + rest)
            && ReadBool(Bytes(s) + rest) == P.Got(complete, BoolByte(truncated) + rest)
            && ReadBool(BoolByte(truncated) + rest) == P.Got(truncated, rest)
  {
    Head(BoolByte(complete), Put(BoolByte(truncated)), rest);
    PutBytes(BoolByte(truncated));
    BoolBack(complete, BoolByte(truncated) + rest);
    BoolBack(truncated, rest);
  }

  lemma ReviewBack(l: Limits, r: Review, modern: bool, rest: seq<byte>)
    requires GoodReview(r, modern) && ReviewSection(l, r).refusal.None?
    ensures ReadReview(l, Bytes(ReviewSection(l, r)) + rest, modern) == P.Got(r, rest)
  {
    var whole := Then(Put(BoolByte(r.complete)), Put(BoolByte(r.truncated)));
    var effects := Collection(r.effects, l.maxEffects, EventWriter(l));
    var measured := Then(MetricsSection(r.metrics), Then(effects, whole));
    Next(IntentSection(l, r.intent), measured, rest);
    Next(MetricsSection(r.metrics), Then(effects, whole), rest);
    Next(effects, whole, rest);
    WholeBack(r.complete, r.truncated, rest);
    EffectsBack(l, r.effects, modern, Bytes(whole) + rest);
    MetricsBack(r.metrics, Bytes(Then(effects, whole)) + rest);
    IntentBack(l, r.intent, Bytes(measured) + rest);
  }

  // ------------------------------------------------------ diff, dependencies

  predicate GoodChange(c: Change, modern: bool) {
    ValidPath(c.path) && GoodOptional(c.before, false) && GoodOptional(c.after, modern)
  }

  lemma DiffKindBack(k: DiffKind, rest: seq<byte>)
    ensures ReadDiffKind(Bytes(Put([DiffTag(k)])) + rest) == P.Got(k, rest)
  {
    PutBytes([DiffTag(k)]);
    P.ByteBack(DiffTag(k), rest);
  }

  lemma ChangeBack(l: Limits, c: Change, modern: bool, rest: seq<byte>)
    requires GoodChange(c, modern) && ChangeSection(l, c).refusal.None?
    ensures ReadChange(l, Bytes(ChangeSection(l, c)) + rest, modern) == P.Got(c, rest)
    ensures |Bytes(ChangeSection(l, c))| >= 11
  {
    var kind := Put([DiffTag(c.kind)]);
    var after := Then(OptionalState(c.after), kind);
    var before := Then(OptionalState(c.before), after);
    Next(PathSection(l, c.path), before, rest);
    Next(OptionalState(c.before), after, rest);
    Next(OptionalState(c.after), kind, rest);
    PathBack(l, c.path, Bytes(before) + rest);
    OptionalStateBack(c.before, false, Bytes(after) + rest);
    OptionalStateBack(c.after, modern, Bytes(kind) + rest);
    DiffKindBack(c.kind, rest);
  }

  lemma ChangeReturns(l: Limits, c: Change, modern: bool)
    requires GoodChange(c, modern) && ChangeSection(l, c).refusal.None?
    ensures Returns(c, ChangeWriter(l), ChangeReader(l, modern), 11)
  {
    ChangeBack(l, c, modern, []);
    forall rest: seq<byte>
      ensures ChangeReader(l, modern)(Bytes(ChangeWriter(l)(c)) + rest) == P.Got(c, rest)
    {
      ChangeBack(l, c, modern, rest);
    }
  }

  predicate GoodDiff(diff: seq<Change>, modern: bool) {
    (forall i :: 0 <= i < |diff| ==> GoodChange(diff[i], modern)) && CanonicalDiff(diff)
  }

  lemma DiffBack(l: Limits, diff: seq<Change>, modern: bool, rest: seq<byte>)
    requires GoodDiff(diff, modern) && Collection(diff, l.maxEntries, ChangeWriter(l)).refusal.None?
    ensures ReadDiff(l, Bytes(Collection(diff, l.maxEntries, ChangeWriter(l))) + rest, modern) == P.Got(diff, rest)
  {
    Next(Put(Length(|diff|)), First(diff, |diff|, ChangeWriter(l)), rest);
    forall i | 0 <= i < |diff|
      ensures Returns(diff[i], ChangeWriter(l), ChangeReader(l, modern), 11)
    {
      NoneRefused(diff, |diff|, i, ChangeWriter(l));
      ChangeReturns(l, diff[i], modern);
    }
    ElementsBack(diff, l.maxEntries, ChangeWriter(l), ChangeReader(l, modern), 11, rest);
  }

  lemma SeenBack(m: Option<Option<NodeState>>, rest: seq<byte>)
    requires m.Some? ==> GoodOptional(m.value, false)
    ensures SeenSection(m).refusal.None? && |Bytes(SeenSection(m))| >= 1
    ensures ReadSeen(Bytes(SeenSection(m)) + rest) == P.Got(m, rest)
  {
    match m
    case None =>
      PutBytes([0]);
      P.ByteBack(0, rest);
    case Some(None) =>
      PutBytes([1]);
      P.ByteBack(1, rest);
    case Some(Some(s)) =>
      StateBack(s, false, rest);
      Head([2], StateSection(s), rest);
      P.ByteBack(2, Bytes(StateSection(s)) + rest);
  }

  predicate GoodObservation(o: Observation) {
    ValidPath(o.path) && (o.metadata.Some? ==> GoodOptional(o.metadata.value, false))
  }

  lemma ObservationBack(l: Limits, o: Observation, rest: seq<byte>)
    requires GoodObservation(o) && ObservationSection(l, o).refusal.None?
    ensures ReadObservation(l, Bytes(ObservationSection(l, o)) + rest) == P.Got(o, rest)
    ensures |Bytes(ObservationSection(l, o))| >= 11
  {
    var digests := Then(OptionalDigest(o.content), OptionalDigest(o.directory));
    var seen := Then(SeenSection(o.metadata), digests);
    Next(PathSection(l, o.path), seen, rest);
    Next(SeenSection(o.metadata), digests, rest);
    Next(OptionalDigest(o.content), OptionalDigest(o.directory), rest);
    PathBack(l, o.path, Bytes(seen) + rest);
    SeenBack(o.metadata, Bytes(digests) + rest);
    OptionalDigestBack(o.content, Bytes(OptionalDigest(o.directory)) + rest);
    OptionalDigestBack(o.directory, rest);
  }

  lemma ObservationReturns(l: Limits, o: Observation)
    requires GoodObservation(o) && ObservationSection(l, o).refusal.None?
    ensures Returns(o, ObservationWriter(l), ObservationReader(l), 11)
  {
    ObservationBack(l, o, []);
    forall rest: seq<byte>
      ensures ObservationReader(l)(Bytes(ObservationWriter(l)(o)) + rest) == P.Got(o, rest)
    {
      ObservationBack(l, o, rest);
    }
  }

  predicate GoodReads(observed: seq<Observation>) {
    (forall i :: 0 <= i < |observed| ==> GoodObservation(observed[i])) && DistinctReads(observed)
  }

  lemma ReadSetBack(l: Limits, observed: seq<Observation>, rest: seq<byte>)
    requires GoodReads(observed) && Collection(observed, l.maxDependencies, ObservationWriter(l)).refusal.None?
    ensures ReadReadSet(l, Bytes(Collection(observed, l.maxDependencies, ObservationWriter(l))) + rest) == P.Got(observed, rest)
  {
    Next(Put(Length(|observed|)), First(observed, |observed|, ObservationWriter(l)), rest);
    forall i | 0 <= i < |observed|
      ensures Returns(observed[i], ObservationWriter(l), ObservationReader(l), 11)
    {
      NoneRefused(observed, |observed|, i, ObservationWriter(l));
      ObservationReturns(l, observed[i]);
    }
    ElementsBack(observed, l.maxDependencies, ObservationWriter(l), ObservationReader(l), 11, rest);
  }

  predicate GoodPrecondition(w: Precondition) {
    ValidPath(w.path) && GoodOptional(w.expected, false)
  }

  lemma PreconditionBack(l: Limits, w: Precondition, rest: seq<byte>)
    requires GoodPrecondition(w) && PreconditionSection(l, w).refusal.None?
    ensures ReadPrecondition(l, Bytes(PreconditionSection(l, w)) + rest) == P.Got(w, rest)
    ensures |Bytes(PreconditionSection(l, w))| >= 9
  {
    Next(PathSection(l, w.path), OptionalState(w.expected), rest);
    PathBack(l, w.path, Bytes(OptionalState(w.expected)) + rest);
    OptionalStateBack(w.expected, false, rest);
  }

  lemma PreconditionReturns(l: Limits, w: Precondition)
    requires GoodPrecondition(w) && PreconditionSection(l, w).refusal.None?
    ensures Returns(w, PreconditionWriter(l), PreconditionReader(l), 9)
  {
    PreconditionBack(l, w, []);
    forall rest: seq<byte>
      ensures PreconditionReader(l)(Bytes(PreconditionWriter(l)(w)) + rest) == P.Got(w, rest)
    {
      PreconditionBack(l, w, rest);
    }
  }

  predicate GoodWrites(written: seq<Precondition>) {
    (forall i :: 0 <= i < |written| ==> GoodPrecondition(written[i])) && DistinctWrites(written)
  }

  lemma WriteSetBack(l: Limits, written: seq<Precondition>, rest: seq<byte>)
    requires GoodWrites(written) && Collection(written, l.maxDependencies, PreconditionWriter(l)).refusal.None?
    ensures ReadWriteSet(l, Bytes(Collection(written, l.maxDependencies, PreconditionWriter(l))) + rest) == P.Got(written, rest)
  {
    Next(Put(Length(|written|)), First(written, |written|, PreconditionWriter(l)), rest);
    forall i | 0 <= i < |written|
      ensures Returns(written[i], PreconditionWriter(l), PreconditionReader(l), 9)
    {
      NoneRefused(written, |written|, i, PreconditionWriter(l));
      PreconditionReturns(l, written[i]);
    }
    ElementsBack(written, l.maxDependencies, PreconditionWriter(l), PreconditionReader(l), 9, rest);
  }

  // --------------------------------------------------- what was read is good

  /** Every element that was read passes. */
  lemma {:induction false} ManyGood<T(!new)>(n: nat, s: seq<byte>, read: seq<byte> -> P.Parsed<T>, good: T -> bool)
    requires forall t: seq<byte> :: read(t).Got? ==> good(read(t).value)
    requires P.Many(n, s, read).Got?
    ensures forall i :: 0 <= i < |P.Many(n, s, read).value| ==> good(P.Many(n, s, read).value[i])
  {
    if n > 0 {
      ManyGood(n - 1, s, read, good);
    }
  }

  lemma PathGood(l: Limits, s: seq<byte>)
    requires ReadPath(l, s).Got?
    ensures ValidPath(ReadPath(l, s).value)
  {
  }

  lemma StateGood(s: seq<byte>, shifted: bool)
    requires ReadState(s, shifted).Got?
    ensures GoodState(ReadState(s, shifted).value, shifted)
  {
  }

  lemma OptionalStateGood(s: seq<byte>, shifted: bool)
    requires ReadOptionalState(s, shifted).Got?
    ensures GoodOptional(ReadOptionalState(s, shifted).value, shifted)
  {
    var (tag, t) := P.ReadByte(s).Extract();
    if tag == 1 {
      StateGood(t, shifted);
    }
  }

  lemma TwoStatesGood(s: seq<byte>, shifted: bool)
    requires ReadTwoStates(s, shifted).Got?
    ensures GoodState(ReadTwoStates(s, shifted).value.0, shifted) && GoodState(ReadTwoStates(s, shifted).value.1, shifted)
  {
    StateGood(s, shifted);
    StateGood(ReadState(s, shifted).rest, shifted);
  }

  lemma DetailGood(l: Limits, s: seq<byte>, tag: byte, path: Path, modern: bool)
    requires 1 <= tag <= 8 && (tag == 8 ==> modern) && ValidPath(path) && ReadDetail(l, s, tag, path, modern).Got?
    ensures GoodEffect(ReadDetail(l, s, tag, path, modern).value, modern)
  {
    if tag == 1 {
      OptionalStateGood(s, modern);
    } else if tag == 4 || tag == 6 {
      StateGood(s, modern);
    } else if tag == 5 || tag == 8 {
      TwoStatesGood(s, modern);
    } else if tag == 7 {
      PathGood(l, s);
      TwoStatesGood(ReadPath(l, s).rest, modern);
    }
  }

  lemma EventGood(l: Limits, s: seq<byte>, modern: bool)
    requires ReadEvent(l, s, modern).Got?
    ensures GoodEvent(ReadEvent(l, s, modern).value, modern)
  {
    var t := P.ReadU64(s).rest;
    var effect := ReadOrigin(t, modern).rest;
    var (tag, u) := P.ReadByte(effect).Extract();
    PathGood(l, u);
    DetailGood(l, ReadPath(l, u).rest, tag, ReadPath(l, u).value, modern);
  }

  lemma ReviewGood(l: Limits, s: seq<byte>, modern: bool)
    requires ReadReview(l, s, modern).Got?
    ensures GoodReview(ReadReview(l, s, modern).value, modern)
  {
    var t := ReadMetrics(ReadIntent(l, s).rest).rest;
    var (n, u) := ReadCount(t, l.maxEffects, 19).Extract();
    forall v: seq<byte> | EventReader(l, modern)(v).Got?
      ensures GoodEvent(EventReader(l, modern)(v).value, modern)
    {
      EventGood(l, v, modern);
    }
    ManyGood(n, u, EventReader(l, modern), (e: EffectEvent) => GoodEvent(e, modern));
  }

  lemma FlagsGood(s: seq<byte>, modern: bool)
    requires ReadFlags(s, modern).Got?
    ensures GoodFlags(ReadFlags(s, modern).value, modern)
  {
    var (n, t) := ReadCount(s, 32, 1).Extract();
    ManyGood(n, t, FlagReader(modern), (f: RiskFlag) => f == PermissionChange ==> modern);
  }

  lemma DecisionGood(s: seq<byte>, modern: bool)
    requires ReadDecision(s, modern).Got?
    ensures GoodDecision(ReadDecision(s, modern).value, modern) && !ReadDecision(s, modern).value.Denied?
  {
    var (tag, t) := P.ReadByte(s).Extract();
    if tag == 2 {
      FlagsGood(ReadMetrics(t).rest, modern);
    }
  }

  lemma ChangeGood(l: Limits, s: seq<byte>, modern: bool)
    requires ReadChange(l, s, modern).Got?
    ensures GoodChange(ReadChange(l, s, modern).value, modern)
  {
    PathGood(l, s);
    var t := ReadPath(l, s).rest;
    OptionalStateGood(t, false);
    OptionalStateGood(ReadOptionalState(t, false).rest, modern);
  }

  lemma DiffGood(l: Limits, s: seq<byte>, modern: bool)
    requires ReadDiff(l, s, modern).Got?
    ensures GoodDiff(ReadDiff(l, s, modern).value, modern)
  {
    var (n, t) := ReadCount(s, l.maxEntries, 11).Extract();
    forall v: seq<byte> | ChangeReader(l, modern)(v).Got?
      ensures GoodChange(ChangeReader(l, modern)(v).value, modern)
    {
      ChangeGood(l, v, modern);
    }
    ManyGood(n, t, ChangeReader(l, modern), (c: Change) => GoodChange(c, modern));
  }

  lemma ObservationGood(l: Limits, s: seq<byte>)
    requires ReadObservation(l, s).Got?
    ensures GoodObservation(ReadObservation(l, s).value)
  {
    PathGood(l, s);
    var (tag, t) := P.ReadByte(ReadPath(l, s).rest).Extract();
    if tag == 2 {
      StateGood(t, false);
    }
  }

  lemma ReadSetGood(l: Limits, s: seq<byte>)
    requires ReadReadSet(l, s).Got?
    ensures GoodReads(ReadReadSet(l, s).value)
  {
    var (n, t) := ReadCount(s, l.maxDependencies, 11).Extract();
    forall v: seq<byte> | ObservationReader(l)(v).Got?
      ensures GoodObservation(ObservationReader(l)(v).value)
    {
      ObservationGood(l, v);
    }
    ManyGood(n, t, ObservationReader(l), (o: Observation) => GoodObservation(o));
  }

  lemma PreconditionGood(l: Limits, s: seq<byte>)
    requires ReadPrecondition(l, s).Got?
    ensures GoodPrecondition(ReadPrecondition(l, s).value)
  {
    PathGood(l, s);
    OptionalStateGood(ReadPath(l, s).rest, false);
  }

  lemma WriteSetGood(l: Limits, s: seq<byte>)
    requires ReadWriteSet(l, s).Got?
    ensures GoodWrites(ReadWriteSet(l, s).value)
  {
    var (n, t) := ReadCount(s, l.maxDependencies, 9).Extract();
    forall v: seq<byte> | PreconditionReader(l)(v).Got?
      ensures GoodPrecondition(PreconditionReader(l)(v).value)
    {
      PreconditionGood(l, v);
    }
    ManyGood(n, t, PreconditionReader(l), (w: Precondition) => GoodPrecondition(w));
  }
}
