/** Bounded collection of the content a commit hook is shown, honestly labelled. */
module Review {
  import opened Types
  import opened Planning

  datatype Effect = ContentRead(path: Path, blob: Digest) | Other

  datatype ReviewContent = ReviewContent(path: Path, blob: Digest, bytes: seq<byte>)

  /** Content the hook should see; no blob when only a host stamp is known. */
  datatype Wanted = Wanted(path: Path, blob: Option<Digest>)

  function SideWanted(path: Path, side: Option<NodeState>): seq<Wanted> {
    if side.None? || side.value.kind == Directory then []
    else [Wanted(path, if side.value.content.Blob? then Some(side.value.content.blob) else None)]
  }

  function ChangeWanted(e: DiffEntry): seq<Wanted> {
    if e.metadataChange then [] else SideWanted(e.path, e.before) + SideWanted(e.path, e.after)
  }

  /** Both sides of every content change, in diff order. */
  function ChangesWanted(changes: seq<DiffEntry>): seq<Wanted> {
    if changes == [] then []
    else ChangesWanted(changes[..|changes| - 1]) + ChangeWanted(changes[|changes| - 1])
  }

  /** Every content read, in effect order. */
  function ReadsWanted(effects: seq<Effect>): seq<Wanted> {
    if effects == [] then []
    else
      var last := effects[|effects| - 1];
      ReadsWanted(effects[..|effects| - 1]) + (if last.ContentRead? then [Wanted(last.path, Some(last.blob))] else [])
  }

  predicate Included(w: Wanted, contents: seq<ReviewContent>) {
    w.blob.Some? && exists i :: 0 <= i < |contents| && contents[i].path == w.path && contents[i].blob == w.blob.value
  }

  ghost predicate AllIncluded(wanted: seq<Wanted>, contents: seq<ReviewContent>) {
    forall i :: 0 <= i < |wanted| ==> Included(wanted[i], contents)
  }

  function TotalBytes(contents: seq<ReviewContent>): nat {
    if contents == [] then 0 else TotalBytes(contents[..|contents| - 1]) + |contents[|contents| - 1].bytes|
  }

  ghost predicate NoRepeats(contents: seq<ReviewContent>) {
    forall i, j :: 0 <= i < j < |contents| ==> contents[i].path != contents[j].path || contents[i].blob != contents[j].blob
  }

  datatype StoreError = Unreadable(blob: Digest)

  /** The blob store, and which paths the policy lets a hook read. */
  datatype Source = Source(get: Digest -> Option<seq<byte>>, authorized: Path -> bool)

  /** Every piece of content is what the store holds, at a path the policy allows. */
  ghost predicate Genuine(source: Source, contents: seq<ReviewContent>) {
    forall i :: 0 <= i < |contents| ==>
      source.authorized(contents[i].path) && source.get(contents[i].blob) == Some(contents[i].bytes)
  }

  /** The store lacks a blob that the hook may see. */
  predicate Missing(source: Source, w: Wanted) {
    w.blob.Some? && source.authorized(w.path) && source.get(w.blob.value).None?
  }

  /** What was wanted and is not shown is not allowed, or larger than what remains. */
  predicate Explained(source: Source, w: Wanted, contents: seq<ReviewContent>, remaining: nat) {
    w.blob.Some? ==>
      || Included(w, contents) || !source.authorized(w.path)
      || (source.get(w.blob.value).Some? && |source.get(w.blob.value).value| > remaining)
  }

  ghost predicate AllExplained(source: Source, wanted: seq<Wanted>, contents: seq<ReviewContent>, remaining: nat) {
    forall i :: 0 <= i < |wanted| ==> Explained(source, wanted[i], contents, remaining)
  }

  /** Showing more leaves less room, and no new question. */
  lemma ExplainedStays(source: Source, wanted: seq<Wanted>, w: Wanted, contents: seq<ReviewContent>, more: seq<ReviewContent>,
                       remaining: nat, less: nat)
    requires AllExplained(source, wanted, contents, remaining) && contents <= more && less <= remaining
    requires Explained(source, w, more, less)
    ensures AllExplained(source, wanted + [w], more, less)
  {
    forall i | 0 <= i < |wanted|
      ensures Explained(source, wanted[i], more, less)
    {
      if Included(wanted[i], contents) {
        var k :| 0 <= k < |contents| && contents[k].path == wanted[i].path && contents[k].blob == wanted[i].blob.value;
        assert more[k] == contents[k];
      }
    }
  }

  lemma TotalOfAppend(contents: seq<ReviewContent>, c: ReviewContent)
    ensures TotalBytes(contents + [c]) == TotalBytes(contents) + |c.bytes|
  {
    assert (contents + [c])[..|contents|] == contents;
  }

  lemma IncludedStays(w: Wanted, contents: seq<ReviewContent>, c: ReviewContent)
    ensures Included(w, contents + [c]) <==>
            Included(w, contents) || (w.blob == Some(c.blob) && w.path == c.path)
  {
    if Included(w, contents) {
      var i :| 0 <= i < |contents| && contents[i].path == w.path && contents[i].blob == w.blob.value;
      assert (contents + [c])[i] == contents[i];
    }
    if w.blob == Some(c.blob) && w.path == c.path {
      assert (contents + [c])[|contents|] == c;
    }
  }

  lemma AllIncludedAsked(wanted: seq<Wanted>, w: Wanted, contents: seq<ReviewContent>)
    ensures AllIncluded(wanted + [w], contents) <==> AllIncluded(wanted, contents) && Included(w, contents)
  {
    if AllIncluded(wanted + [w], contents) {
      forall i | 0 <= i < |wanted|
        ensures Included(wanted[i], contents)
      {
        assert (wanted + [w])[i] == wanted[i];
      }
      assert (wanted + [w])[|wanted|] == w;
    }
  }

  lemma AllIncludedShown(wanted: seq<Wanted>, contents: seq<ReviewContent>, c: ReviewContent)
    requires Wanted(c.path, Some(c.blob)) !in wanted
    ensures AllIncluded(wanted, contents + [c]) <==> AllIncluded(wanted, contents)
    ensures Included(Wanted(c.path, Some(c.blob)), contents + [c])
  {
    forall i | 0 <= i < |wanted|
      ensures Included(wanted[i], contents + [c]) <==> Included(wanted[i], contents)
    {
      IncludedStays(wanted[i], contents, c);
      assert wanted[i] in wanted;
    }
    IncludedStays(Wanted(c.path, Some(c.blob)), contents, c);
  }

  lemma ExplainedAgain(source: Source, wanted: seq<Wanted>, w: Wanted, contents: seq<ReviewContent>, remaining: nat)
    requires AllExplained(source, wanted, contents, remaining) && w in wanted
    ensures AllExplained(source, wanted + [w], contents, remaining)
  {
    var i :| 0 <= i < |wanted| && wanted[i] == w;
    assert Explained(source, wanted[i], contents, remaining);
    ExplainedStays(source, wanted, w, contents, contents, remaining, remaining);
  }

  /** The error names a blob that was wanted, allowed and missing. */
  ghost predicate Blames(e: StoreError, source: Source, wanted: seq<Wanted>) {
    exists w :: w in wanted && Missing(source, w) && e == Unreadable(w.blob.value)
  }

  /** What a collector knows, of what it was asked and what it shows. */
  ghost predicate Consistent(source: Source, maximum: nat, remaining: nat, complete: bool, seen: set<(Path, Digest)>,
                             contents: seq<ReviewContent>, wanted: seq<Wanted>)
  {
    && TotalBytes(contents) + remaining == maximum
    && NoRepeats(contents) && Genuine(source, contents)
    && (forall i :: 0 <= i < |contents| ==> (contents[i].path, contents[i].blob) in seen)
    && (forall p, b :: (p, b) in seen <==> Wanted(p, Some(b)) in wanted)
    && (complete <==> AllIncluded(wanted, contents))
    && AllExplained(source, wanted, contents, remaining)
  }

  lemma SeenIsWanted(source: Source, maximum: nat, remaining: nat, complete: bool, seen: set<(Path, Digest)>,
                     contents: seq<ReviewContent>, wanted: seq<Wanted>, path: Path, blob: Digest)
    requires Consistent(source, maximum, remaining, complete, seen, contents, wanted)
    ensures (path, blob) in seen <==> Wanted(path, Some(blob)) in wanted
  {
  }

  /** A request made again changes nothing. */
  lemma AskedAgain(source: Source, maximum: nat, remaining: nat, complete: bool, seen: set<(Path, Digest)>,
                   contents: seq<ReviewContent>, wanted: seq<Wanted>, w: Wanted)
    requires Consistent(source, maximum, remaining, complete, seen, contents, wanted) && w in wanted
    ensures Consistent(source, maximum, remaining, complete, seen, contents, wanted + [w])
  {
    hide Explained, AllExplained, TotalBytes, NoRepeats, Genuine;
    AllIncludedAsked(wanted, w, contents);
    ExplainedAgain(source, wanted, w, contents, remaining);
  }

  /** A request that is left out, for a reason, makes the review incomplete. */
  lemma LeftOut(source: Source, maximum: nat, remaining: nat, complete: bool, seen: set<(Path, Digest)>,
                contents: seq<ReviewContent>, wanted: seq<Wanted>, path: Path, blob: Digest)
    requires Consistent(source, maximum, remaining, complete, seen, contents, wanted) && (path, blob) !in seen
    requires Explained(source, Wanted(path, Some(blob)), contents, remaining)
    ensures Consistent(source, maximum, remaining, false, seen + {(path, blob)}, contents, wanted + [Wanted(path, Some(blob))])
  {
    hide Explained, AllExplained, TotalBytes, NoRepeats, Genuine;
    var w := Wanted(path, Some(blob));
    AllIncludedAsked(wanted, w, contents);
    assert !Included(w, contents);
    ExplainedStays(source, wanted, w, contents, contents, remaining, remaining);
  }

  /** A request that is met. */
  lemma Met(source: Source, maximum: nat, remaining: nat, complete: bool, seen: set<(Path, Digest)>,
            contents: seq<ReviewContent>, wanted: seq<Wanted>, c: ReviewContent)
    requires Consistent(source, maximum, remaining, complete, seen, contents, wanted) && (c.path, c.blob) !in seen
    requires source.authorized(c.path) && source.get(c.blob) == Some(c.bytes) && |c.bytes| <= remaining
    ensures Consistent(source, maximum, remaining - |c.bytes|, complete, seen + {(c.path, c.blob)}, contents + [c],
                       wanted + [Wanted(c.path, Some(c.blob))])
  {
    hide AllExplained, TotalBytes, AllIncluded;
    var w := Wanted(c.path, Some(c.blob));
    TotalOfAppend(contents, c);
    AllIncludedShown(wanted, contents, c);
    AllIncludedAsked(wanted, w, contents + [c]);
    ExplainedStays(source, wanted, w, contents, contents + [c], remaining, remaining - |c.bytes|);
  }

  class ContentCollector {
    const source: Source
    const maximum: nat
    var remaining: nat
    var complete: bool
    var seen: set<(Path, Digest)>
    var contents: seq<ReviewContent>
    /** Everything asked for so far. */
    ghost var wanted: seq<Wanted>

    ghost predicate Valid()
      reads this
    {
      Consistent(source, maximum, remaining, complete, seen, contents, wanted)
    }

    constructor (source: Source, maximum: nat)
      ensures Valid() && wanted == [] && this.source == source && this.maximum == maximum
    {
      this.source, this.maximum, remaining := source, maximum, maximum;
      complete, seen, contents, wanted := true, {}, [], [];
    }

    /** Record the request alone: nothing new is shown for it. */
    ghost method Ask(w: Wanted)
      modifies this`wanted
      ensures wanted == old(wanted) + [w]
    {
      wanted := wanted + [w];
    }

    /** What one request adds: the blob, when it is new, allowed, in the store and small enough. */
    method Blob(path: Path, blob: Digest) returns (r: Result<(), StoreError>)
      requires Valid()
      modifies this
      ensures r.Ok? ==> Valid() && wanted == old(wanted) + [Wanted(path, Some(blob))]
      ensures var w, bytes := Wanted(path, Some(blob)), source.get(blob);
              if w in old(wanted) || !source.authorized(path) then r.Ok? && contents == old(contents)
              else if bytes.None? then r == Err(Unreadable(blob))
              else r.Ok? && contents ==
                   if |bytes.value| <= old(remaining) then old(contents) + [ReviewContent(path, blob, bytes.value)] else old(contents)
    {
      hide Consistent;
      var w := Wanted(path, Some(blob));
      SeenIsWanted(source, maximum, remaining, complete, seen, contents, wanted, path, blob);
      if (path, blob) in seen {
        AskedAgain(source, maximum, remaining, complete, seen, contents, wanted, w);
        Ask(w);
        return Ok(());
      }
      ghost var held := source.get(blob);
      if !source.authorized(path) || (held.Some? && |held.value| > remaining) {
        LeftOut(source, maximum, remaining, complete, seen, contents, wanted, path, blob);
      } else if held.Some? {
        Met(source, maximum, remaining, complete, seen, contents, wanted, ReviewContent(path, blob, held.value));
      }
      seen := seen + {(path, blob)};
      Ask(w);
      if !source.authorized(path) {
        complete := false;
        return Ok(());
      }
      var bytes := source.get(blob);
      if bytes.None? {
        return Err(Unreadable(blob));
      }
      if |bytes.value| > remaining {
        complete := false;
        return Ok(());
      }
      remaining := remaining - |bytes.value|;
      contents := contents + [ReviewContent(path, blob, bytes.value)];
      return Ok(());
    }

    method Node(path: Path, state: Option<NodeState>) returns (r: Result<(), StoreError>)
      requires Valid()
      modifies this
      ensures r.Ok? ==> Valid() && wanted == old(wanted) + SideWanted(path, state)
      ensures r.Err? ==> Blames(r.error, source, SideWanted(path, state))
    {
      if state.Some? && state.value.kind != Directory {
        if state.value.content.Blob? {
          r := Blob(path, state.value.content.blob);
          assert Wanted(path, Some(state.value.content.blob)) in SideWanted(path, state);
          return;
        }
        AllIncludedAsked(wanted, Wanted(path, None), contents);
        ExplainedStays(source, wanted, Wanted(path, None), contents, contents, remaining, remaining);
        Ask(Wanted(path, None));
        complete := false;
      }
      return Ok(());
    }

    method Change(e: DiffEntry) returns (r: Result<(), StoreError>)
      requires Valid()
      modifies this
      ensures r.Ok? ==> Valid() && wanted == old(wanted) + ChangeWanted(e)
      ensures r.Err? ==> Blames(r.error, source, ChangeWanted(e))
    {
      if e.metadataChange {
        return Ok(());
      }
      r := Node(e.path, e.before);
      if r.Err? {
        return;
      }
      r := Node(e.path, e.after);
    }
  }

  lemma ChangesStep(changes: seq<DiffEntry>, i: nat)
    requires i < |changes|
    ensures ChangesWanted(changes[..i + 1]) == ChangesWanted(changes[..i]) + ChangeWanted(changes[i])
  {
    assert changes[..i + 1][..i] == changes[..i];
  }

  lemma ReadsStep(effects: seq<Effect>, i: nat)
    requires i < |effects|
    ensures ReadsWanted(effects[..i + 1]) ==
            ReadsWanted(effects[..i]) + (if effects[i].ContentRead? then [Wanted(effects[i].path, Some(effects[i].blob))] else [])
  {
    assert effects[..i + 1][..i] == effects[..i];
  }

  lemma {:induction false} ChangesContain(changes: seq<DiffEntry>, i: nat)
    requires i < |changes|
    ensures forall w :: w in ChangeWanted(changes[i]) ==> w in ChangesWanted(changes)
    decreases |changes|
  {
    var init := changes[..|changes| - 1];
    if i < |init| {
      assert init[i] == changes[i];
      ChangesContain(init, i);
    }
  }

  lemma {:induction false} ReadsContain(effects: seq<Effect>, i: nat)
    requires i < |effects| && effects[i].ContentRead?
    ensures Wanted(effects[i].path, Some(effects[i].blob)) in ReadsWanted(effects)
    decreases |effects|
  {
    var init := effects[..|effects| - 1];
    if i < |init| {
      assert init[i] == effects[i];
      ReadsContain(init, i);
    }
  }

  method CollectChanges(changes: seq<DiffEntry>, collector: ContentCollector) returns (r: Result<(), StoreError>)
    requires collector.Valid() && collector.wanted == []
    modifies collector
    ensures r.Ok? ==> collector.Valid() && collector.wanted == ChangesWanted(changes)
    ensures r.Err? ==> Blames(r.error, collector.source, ChangesWanted(changes))
  {
    for i := 0 to |changes|
      invariant collector.Valid() && collector.wanted == ChangesWanted(changes[..i])
    {
      ChangesStep(changes, i);
      r := collector.Change(changes[i]);
      if r.Err? {
        ChangesContain(changes, i);
        return;
      }
    }
    assert changes[..|changes|] == changes;
    return Ok(());
  }

  method CollectReads(effects: seq<Effect>, collector: ContentCollector) returns (r: Result<(), StoreError>)
    requires collector.Valid()
    modifies collector
    ensures r.Ok? ==> collector.Valid() && collector.wanted == old(collector.wanted) + ReadsWanted(effects)
    ensures r.Err? ==> Blames(r.error, collector.source, ReadsWanted(effects))
  {
    ghost var before := collector.wanted;
    for i := 0 to |effects|
      invariant collector.Valid() && collector.wanted == before + ReadsWanted(effects[..i])
    {
      ReadsStep(effects, i);
      if effects[i].ContentRead? {
        r := collector.Blob(effects[i].path, effects[i].blob);
        if r.Err? {
          ReadsContain(effects, i);
          return;
        }
      }
    }
    assert effects[..|effects|] == effects;
    return Ok(());
  }

  predicate AnyChange(changes: seq<DiffEntry>) {
    exists i :: 0 <= i < |changes| && ChangeWanted(changes[i]) != []
  }

  predicate AnyRead(effects: seq<Effect>) {
    exists i :: 0 <= i < |effects| && effects[i].ContentRead?
  }

  lemma {:induction false} NoChangeWanted(changes: seq<DiffEntry>)
    ensures ChangesWanted(changes) != [] <==> AnyChange(changes)
  {
    hide ChangeWanted;
    if changes != [] {
      var init, last := changes[..|changes| - 1], changes[|changes| - 1];
      NoChangeWanted(init);
      if AnyChange(init) {
        var i :| 0 <= i < |init| && ChangeWanted(init[i]) != [];
        assert changes[i] == init[i];
      }
      if AnyChange(changes) && ChangeWanted(last) == [] {
        var i :| 0 <= i < |changes| && ChangeWanted(changes[i]) != [];
        assert init[i] == changes[i];
      }
    }
  }

  lemma {:induction false} NoReadWanted(effects: seq<Effect>)
    ensures ReadsWanted(effects) != [] <==> AnyRead(effects)
  {
    if effects != [] {
      var init, last := effects[..|effects| - 1], effects[|effects| - 1];
      NoReadWanted(init);
      if AnyRead(init) {
        var i :| 0 <= i < |init| && init[i].ContentRead?;
        assert effects[i] == init[i];
      }
      if AnyRead(effects) && !last.ContentRead? {
        var i :| 0 <= i < |effects| && effects[i].ContentRead?;
        assert init[i] == effects[i];
      }
    }
  }

  /** Everything a hook is to see of the changes and the reads. */
  function AllWanted(changes: seq<DiffEntry>, effects: seq<Effect>): seq<Wanted> {
    ChangesWanted(changes) + ReadsWanted(effects)
  }

  lemma NoneMissing(source: Source, wanted: seq<Wanted>, contents: seq<ReviewContent>, remaining: nat)
    requires AllExplained(source, wanted, contents, remaining) && Genuine(source, contents)
    ensures forall w :: w in wanted ==> !Missing(source, w)
  {
    forall w | w in wanted
      ensures !Missing(source, w)
    {
      var i :| 0 <= i < |wanted| && wanted[i] == w;
      assert Explained(source, wanted[i], contents, remaining);
    }
  }

  /**
   The hook gets at most `maximum` bytes, each path and blob once, only what the store holds
   and the policy allows; nothing is left out but what is not allowed or larger than what
   remains; and it is told that this is everything exactly when it is. With room at all, it
   fails exactly when the store lacks something that is wanted and allowed, and names it.
   */
  method CollectContent(changes: seq<DiffEntry>, effects: seq<Effect>, source: Source, maximum: nat)
    returns (r: Result<(seq<ReviewContent>, bool), StoreError>)
    ensures r.Ok? ==>
              var (contents, complete) := r.value;
              && TotalBytes(contents) <= maximum && NoRepeats(contents) && Genuine(source, contents)
              && (complete <==> AllIncluded(AllWanted(changes, effects), contents))
              && (maximum > 0 ==> AllExplained(source, AllWanted(changes, effects), contents, maximum - TotalBytes(contents)))
              && (maximum == 0 ==> contents == [])
    ensures r.Err? <==> maximum > 0 && exists w :: w in AllWanted(changes, effects) && Missing(source, w)
    ensures r.Err? ==> Blames(r.error, source, AllWanted(changes, effects))
  {
    if maximum == 0 {
      NoChangeWanted(changes);
      NoReadWanted(effects);
      var needed := AnyChange(changes) || AnyRead(effects);
      assert needed ==> !Included(AllWanted(changes, effects)[0], []);
      return Ok(([], !needed));
    }
    var collector := new ContentCollector(source, maximum);
    var collected := CollectChanges(changes, collector);
    if collected.Err? {
      return Err(collected.error);
    }
    collected := CollectReads(effects, collector);
    if collected.Err? {
      return Err(collected.error);
    }
    NoneMissing(source, collector.wanted, collector.contents, collector.remaining);
    return Ok((collector.contents, collector.complete));
  }
}
