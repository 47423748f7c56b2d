/** The textual form of a normalized path and its parser. */
module Paths {
  import opened Types

  const SLASH: byte := 47
  const DOT: byte := 46

  predicate ValidName(n: Name) {
    n != [] && SLASH !in n && n != [DOT] && n != [DOT, DOT]
  }

  predicate ValidPath(p: Path) {
    forall i :: 0 <= i < |p| ==> ValidName(p[i])
  }

  function Joined(p: Path): (text: seq<byte>)
    requires p != []
  {
    if |p| == 1 then p[0] else p[0] + [SLASH] + Joined(p[1..])
  }

  /** "." for the root, otherwise the components separated by slashes. */
  function Text(p: Path): seq<byte> {
    if p == [] then [DOT] else Joined(p)
  }

  function Split(text: seq<byte>, name: Name): Path
    decreases |text|
  {
    if text == [] then [name]
    else if text[0] == SLASH then [name] + Split(text[1..], [])
    else Split(text[1..], name + [text[0]])
  }

  /** Accept exactly the normalized texts: no empty, "." or ".." component. */
  function Parse(text: seq<byte>): Option<Path> {
    if text == [DOT] then Some([])
    else if ValidPath(Split(text, [])) then Some(Split(text, []))
    else None
  }

  lemma {:induction false} SplitName(n: Name, rest: seq<byte>, name: Name)
    requires SLASH !in n
    ensures Split(n + rest, name) == Split(rest, name + n)
  {
    if n == [] {
      assert n + rest == rest && name + n == name;
    } else {
      assert (n + rest)[1..] == n[1..] + rest;
      SplitName(n[1..], rest, name + [n[0]]);
      assert name + [n[0]] + n[1..] == name + n;
    }
  }

  lemma {:induction false} SplitJoined(p: Path)
    requires p != [] && ValidPath(p)
    ensures Split(Joined(p), []) == p
  {
    assert ValidName(p[0]);
    if |p| == 1 {
      SplitName(p[0], [], []);
      assert p[0] + [] == p[0] && [] + p[0] == p[0];
      assert p == [p[0]];
    } else {
      var rest := [SLASH] + Joined(p[1..]);
      assert Joined(p) == p[0] + rest;
      SplitName(p[0], rest, []);
      assert [] + p[0] == p[0];
      assert rest[1..] == Joined(p[1..]);
      SplitJoined(p[1..]);
    }
  }

  /** Reading back the text of a valid path gives the path. */
  lemma ParseText(p: Path)
    requires ValidPath(p)
    ensures Parse(Text(p)) == Some(p)
  {
    if p != [] {
      SplitJoined(p);
      if |p| > 1 {
        assert ValidName(p[0]) && |Joined(p)| >= 2;
      } else {
        assert ValidName(p[0]);
      }
    }
  }

  /** The text again from its components, the first of them begun with `name`. */
  lemma {:induction false} JoinSplit(text: seq<byte>, name: Name)
    ensures Split(text, name) != [] && Joined(Split(text, name)) == name + text
    decreases |text|
  {
    if text == [] {
      assert name + text == name;
    } else if text[0] == SLASH {
      var rest := Split(text[1..], []);
      JoinSplit(text[1..], []);
      assert ([name] + rest)[1..] == rest;
      assert [] + text[1..] == text[1..];
      assert text == [SLASH] + text[1..];
      assert name + text == name + [SLASH] + text[1..];
    } else {
      JoinSplit(text[1..], name + [text[0]]);
      assert name + [text[0]] + text[1..] == name + text;
    }
  }

  /** A text that parses is the text of what it parses to. */
  lemma ParsedText(text: seq<byte>)
    requires Parse(text).Some?
    ensures ValidPath(Parse(text).value) && Text(Parse(text).value) == text
    ensures forall n :: n in Parse(text).value ==> n != [] && SLASH !in n && n != [DOT] && n != [DOT, DOT]
  {
    JoinSplit(text, []);
    assert [] + text == text;
  }
}
