/** Path templates compiled to anchored patterns, one `([^/]+)` per placeholder. */
module Templates {
  import opened Common
  import opened Paths

  datatype Part = Lit(text: string) | Hole(name: string)
  type Template = seq<Part>

  function ParamNames(t: Template): seq<string> {
    if t == [] then [] else (if t[0].Hole? then [t[0].name] else []) + ParamNames(t[1..])
  }

  function Holes(t: Template): nat {
    |ParamNames(t)|
  }

  /** The template with its placeholders replaced, left to right. */
  function Fill(t: Template, captures: seq<string>): string
    requires |captures| == Holes(t)
  {
    if t == [] then ""
    else if t[0].Lit? then t[0].text + Fill(t[1..], captures)
    else captures[0] + Fill(t[1..], captures[1..])
  }

  ghost predicate Segments(captures: seq<string>) {
    forall c :: c in captures ==> c != "" && '/' !in c
  }

  /** What the pattern accepts: the whole of `s`, each group one or more characters other than a slash. */
  ghost predicate Matches(t: Template, s: string, captures: seq<string>) {
    |captures| == Holes(t) && Segments(captures) && s == Fill(t, captures)
  }

  // ---------- `RegExp.exec` ----------

  function Exec(t: Template, s: string): Option<seq<string>>
    decreases |t|
  {
    if t == [] then (if s == "" then Some([]) else None)
    else if t[0].Lit? then (if t[0].text <= s then Exec(t[1..], s[|t[0].text|..]) else None)
    else Backtrack(t, s, FirstSlash(s))
  }

  /** The group takes as much as it can, and gives back one character at a time. */
  function Backtrack(t: Template, s: string, n: nat): Option<seq<string>>
    requires t != [] && n <= |s|
    decreases |t|, n
  {
    if n == 0 then None
    else
      var rest := Exec(t[1..], s[n..]);
      if rest.Some? then Some([s[..n]] + rest.value) else Backtrack(t, s, n - 1)
  }

  lemma SegmentsTail(captures: seq<string>)
    requires captures != [] && Segments(captures)
    ensures captures[0] != "" && '/' !in captures[0] && Segments(captures[1..])
  {
    assert captures[0] in captures;
    assert forall c :: c in captures[1..] ==> c in captures;
  }

  lemma MatchesHole(t: Template, s: string, first: string, rest: seq<string>)
    requires t != [] && t[0].Hole? && first != "" && '/' !in first && first <= s
    requires Matches(t[1..], s[|first|..], rest)
    ensures Matches(t, s, [first] + rest)
  {
    assert ([first] + rest)[1..] == rest;
    assert s == first + s[|first|..];
  }

  /** A match the engine reports is a match. */
  lemma {:induction false} ExecIsSound(t: Template, s: string)
    requires Exec(t, s).Some?
    ensures Matches(t, s, Exec(t, s).value)
    decreases |t|
  {
    if t != [] {
      if t[0].Lit? {
        ExecIsSound(t[1..], s[|t[0].text|..]);
      } else {
        FirstSlashIs(s, FirstSlash(s));
        BacktrackIsSound(t, s, FirstSlash(s));
      }
    }
  }

  lemma {:induction false} BacktrackIsSound(t: Template, s: string, n: nat)
    requires t != [] && t[0].Hole? && n <= |s| && '/' !in s[..n] && Backtrack(t, s, n).Some?
    ensures Matches(t, s, Backtrack(t, s, n).value)
    decreases |t|, n
  {
    if Exec(t[1..], s[n..]).Some? {
      ExecIsSound(t[1..], s[n..]);
      MatchesHole(t, s, s[..n], Exec(t[1..], s[n..]).value);
    } else {
      assert s[..n - 1] == s[..n][..n - 1];
      BacktrackIsSound(t, s, n - 1);
    }
  }

  lemma HoleIsWithinSegment(first: string, rest: string)
    requires '/' !in first
    ensures |first| <= FirstSlash(first + rest)
  {
    var s := first + rest;
    var i := FirstSlash(s);
    FirstSlashIs(s, i);
  }

  /** The engine reports a match whenever there is one. */
  lemma {:induction false} ExecIsComplete(t: Template, s: string, captures: seq<string>)
    requires Matches(t, s, captures)
    ensures Exec(t, s).Some?
    decreases |t|
  {
    if t != [] {
      if t[0].Lit? {
        assert s[|t[0].text|..] == Fill(t[1..], captures);
        ExecIsComplete(t[1..], s[|t[0].text|..], captures);
      } else {
        SegmentsTail(captures);
        HoleIsWithinSegment(captures[0], Fill(t[1..], captures[1..]));
        BacktrackIsComplete(t, s, FirstSlash(s), captures);
      }
    }
  }

  lemma {:induction false} BacktrackIsComplete(t: Template, s: string, n: nat, captures: seq<string>)
    requires t != [] && t[0].Hole? && Matches(t, s, captures) && |captures[0]| <= n <= |s|
    ensures Backtrack(t, s, n).Some?
    decreases |t|, n
  {
    SegmentsTail(captures);
    if |captures[0]| < n {
      BacktrackIsComplete(t, s, n - 1, captures);
    } else {
      assert s[n..] == Fill(t[1..], captures[1..]);
      ExecIsComplete(t[1..], s[n..], captures[1..]);
    }
  }

  // ---------- At most one placeholder in a path segment ----------

  /** `open` says that the segment `t` starts in has had its placeholder. */
  predicate SpacedFrom(t: Template, open: bool) {
    t == [] ||
    match t[0]
    case Lit(text) => SpacedFrom(t[1..], open && '/' !in text)
    case Hole(_) => !open && SpacedFrom(t[1..], true)
  }

  predicate Spaced(t: Template) {
    SpacedFrom(t, false)
  }

  lemma FirstSlashConcat(a: string, b: string)
    ensures FirstSlash(a + b) == if '/' in a then FirstSlash(a) else |a| + FirstSlash(b)
  {
    var s := a + b;
    if '/' in a {
      var i := FirstSlash(a);
      FirstSlashIs(a, i);
      FirstSlashIs(a, |a|);
      assert a[..|a|] == a;
      assert s[..i] == a[..i];
      FirstSlashIs(s, i);
    } else {
      var i := |a| + FirstSlash(b);
      FirstSlashIs(b, FirstSlash(b));
      assert s[..i] == a + b[..FirstSlash(b)];
      FirstSlashIs(s, i);
    }
  }

  /** The fixed text left in an open segment. */
  function HeadLength(t: Template): nat {
    if t == [] || t[0].Hole? then 0
    else if '/' in t[0].text then FirstSlash(t[0].text)
    else |t[0].text| + HeadLength(t[1..])
  }

  lemma {:induction false} OpenSegmentIsFixed(t: Template, captures: seq<string>)
    requires SpacedFrom(t, true) && |captures| == Holes(t)
    ensures FirstSlash(Fill(t, captures)) == HeadLength(t)
  {
    if t != [] {
      FirstSlashConcat(t[0].text, Fill(t[1..], captures));
      if '/' !in t[0].text {
        OpenSegmentIsFixed(t[1..], captures);
      }
    }
  }

  lemma SameSplit(a: string, x: string, b: string, y: string)
    requires a + x == b + y && |a| == |b|
    ensures a == b && x == y
  {
    assert a == (a + x)[..|a|] && b == (b + y)[..|b|];
    assert x == (a + x)[|a|..] && y == (b + y)[|b|..];
  }

  /** With at most one placeholder a segment, no two assignments fill to the same path. */
  lemma {:induction false} CapturesAreUnique(t: Template, open: bool, a: seq<string>, b: seq<string>)
    requires SpacedFrom(t, open) && |a| == |b| == Holes(t)
    requires Segments(a) && Segments(b) && Fill(t, a) == Fill(t, b)
    ensures a == b
    decreases |t|
  {
    if t != [] {
      if t[0].Lit? {
        SameSplit(t[0].text, Fill(t[1..], a), t[0].text, Fill(t[1..], b));
        CapturesAreUnique(t[1..], open && '/' !in t[0].text, a, b);
      } else {
        SegmentsTail(a);
        SegmentsTail(b);
        OpenSegmentIsFixed(t[1..], a[1..]);
        OpenSegmentIsFixed(t[1..], b[1..]);
        FirstSlashConcat(a[0], Fill(t[1..], a[1..]));
        FirstSlashConcat(b[0], Fill(t[1..], b[1..]));
        SameSplit(a[0], Fill(t[1..], a[1..]), b[0], Fill(t[1..], b[1..]));
        CapturesAreUnique(t[1..], true, a[1..], b[1..]);
        assert a == [a[0]] + a[1..] && b == [b[0]] + b[1..];
      }
    }
  }

  /** Matching a filled template gives back exactly what it was filled with. */
  lemma ExecInvertsFill(t: Template, captures: seq<string>)
    requires Spaced(t) && |captures| == Holes(t) && Segments(captures)
    ensures Exec(t, Fill(t, captures)) == Some(captures)
  {
    var s := Fill(t, captures);
    ExecIsComplete(t, s, captures);
    ExecIsSound(t, s);
    CapturesAreUnique(t, false, captures, Exec(t, s).value);
  }

  // ---------- Two placeholders in a segment ----------

  /** The fixed text before the first placeholder, and what comes after that placeholder. */
  function Lead(t: Template): string {
    if t == [] || t[0].Hole? then "" else t[0].text + Lead(t[1..])
  }

  function AfterHole(t: Template): Template {
    if t == [] then [] else if t[0].Hole? then t[1..] else AfterHole(t[1..])
  }

  lemma {:induction false} FillAroundHole(t: Template, y: string, rest: seq<string>)
    requires Holes(t) == 1 + |rest|
    ensures Holes(AfterHole(t)) == |rest|
    ensures Fill(t, [y] + rest) == Lead(t) + (y + Fill(AfterHole(t), rest))
  {
    if t[0].Hole? {
      assert ([y] + rest)[1..] == rest;
    } else {
      FillAroundHole(t[1..], y, rest);
      Associate(t[0].text, Lead(t[1..]), y + Fill(AfterHole(t), rest));
    }
  }

  /** If an open segment is what breaks the rule, its second placeholder follows slash-free text. */
  lemma {:induction false} SecondHole(t: Template)
    requires SpacedFrom(t, false) && !SpacedFrom(t, true)
    ensures Holes(t) > 0 && '/' !in Lead(t)
  {
    if t[0].Lit? {
      SecondHole(t[1..]);
    }
  }

  function Marks(n: nat): (marks: seq<string>)
    ensures |marks| == n && Segments(marks)
  {
    seq(n, i => "x")
  }

  /** `x m x m x`, cut after the first mark or before the last. */
  lemma TwoCuts(lead: string, tail: string)
    ensures "x" + (lead + (("x" + lead + "x") + tail)) == ("x" + lead + "x") + (lead + ("x" + tail))
  {
  }

  /** Two assignments that differ and fill to the same path. */
  ghost predicate Clash(t: Template, s: string, a: seq<string>, b: seq<string>) {
    a != b && Matches(t, s, a) && Matches(t, s, b)
  }

  lemma SharedSegmentClashes(t: Template) returns (s: string, a: seq<string>, b: seq<string>)
    requires t != [] && t[0].Hole? && SpacedFrom(t[1..], false) && !SpacedFrom(t[1..], true)
    ensures Clash(t, s, a, b)
  {
    SecondHole(t[1..]);
    var lead, rest := Lead(t[1..]), Marks(Holes(t) - 2);
    var long := "x" + lead + "x";
    a, b := ["x"] + ([long] + rest), [long] + (["x"] + rest);
    s := Fill(t, a);
    FillAroundHole(t[1..], long, rest);
    FillAroundHole(t[1..], "x", rest);
    assert a[1..] == [long] + rest && b[1..] == ["x"] + rest;
    TwoCuts(lead, Fill(AfterHole(t[1..]), rest));
    assert a[0] == "x" && b[0] == long && |long| > 1;
  }

  /** A template with two placeholders in a segment can be filled in two ways with the same result. */
  lemma {:induction false} UnspacedClashes(t: Template) returns (s: string, a: seq<string>, b: seq<string>)
    requires !Spaced(t)
    ensures Clash(t, s, a, b)
  {
    if t[0].Lit? {
      s, a, b := UnspacedClashes(t[1..]);
      s := t[0].text + s;
    } else if !SpacedFrom(t[1..], false) {
      s, a, b := UnspacedClashes(t[1..]);
      assert ("x" + s)[1..] == s;
      MatchesHole(t, "x" + s, "x", a);
      MatchesHole(t, "x" + s, "x", b);
      assert (["x"] + a)[1..] == a && (["x"] + b)[1..] == b;
      s, a, b := "x" + s, ["x"] + a, ["x"] + b;
    } else {
      s, a, b := SharedSegmentClashes(t);
    }
  }

  ghost predicate Unique(t: Template) {
    forall s, a, b :: Matches(t, s, a) && Matches(t, s, b) ==> a == b
  }

  /** A template's captures are determined by the path exactly when no segment holds two placeholders. */
  lemma UniqueIffSpaced(t: Template)
    ensures Unique(t) <==> Spaced(t)
  {
    if Spaced(t) {
      forall s, a, b | Matches(t, s, a) && Matches(t, s, b) ensures a == b {
        CapturesAreUnique(t, false, a, b);
      }
    } else {
      var s, a, b := UnspacedClashes(t);
    }
  }
}
