/** The string helpers on URL paths: query and trailing slashes, parents, segments. */
module Paths {
  import opened Common

  function BeforeQuery(p: string): (r: string)
    ensures |r| <= |p|
  {
    if p == "" || p[0] == '?' then "" else [p[0]] + BeforeQuery(p[1..])
  }

  lemma {:induction false} BeforeQuerySpec(p: string)
    ensures var r := BeforeQuery(p); '?' !in r && r <= p && (r == p || p[|r|] == '?')
  {
    if p != "" && p[0] != '?' {
      BeforeQuerySpec(p[1..]);
    }
  }

  function TrimSlashes(p: string): (r: string)
    ensures |r| <= |p|
  {
    if p != "" && p[|p| - 1] == '/' then TrimSlashes(p[..|p| - 1]) else p
  }

  lemma {:induction false} TrimSlashesSpec(p: string)
    ensures var r := TrimSlashes(p);
      && r <= p && (r != "" ==> r[|r| - 1] != '/')
      && forall k :: |r| <= k < |p| ==> p[k] == '/'
  {
    if p != "" && p[|p| - 1] == '/' {
      TrimSlashesSpec(p[..|p| - 1]);
    }
  }

  function NormalizePathname(p: string): (r: string)
    ensures r != "" && |r| <= Max(1, |p|)
  {
    var trimmed := TrimSlashes(BeforeQuery(p));
    if trimmed != "" then trimmed else "/"
  }

  predicate IsNormal(p: string) {
    p == "/" || (p != "" && '?' !in p && p[|p| - 1] != '/')
  }

  lemma NormalizedIsNormal(p: string)
    ensures IsNormal(NormalizePathname(p))
  {
    BeforeQuerySpec(p);
    TrimSlashesSpec(BeforeQuery(p));
  }

  lemma {:induction false} NoQueryToCut(p: string)
    requires '?' !in p
    ensures BeforeQuery(p) == p
  {
    if p != "" {
      NoQueryToCut(p[1..]);
    }
  }

  /** The normal paths are the fixed points of normalisation. */
  lemma NormalIsFixed(p: string)
    requires IsNormal(p)
    ensures NormalizePathname(p) == p
  {
    if p == "/" {
      assert BeforeQuery(p) == "/" by { assert p[1..] == ""; }
      assert TrimSlashes("/") == "" by { assert "/"[..0] == ""; }
    } else {
      NoQueryToCut(p);
    }
  }

  /** `lastIndexOf('/')`, or -1. */
  function LastSlash(p: string): (i: int)
    ensures -1 <= i < |p|
    ensures i >= 0 ==> p[i] == '/'
  {
    if p == "" then -1
    else if p[|p| - 1] == '/' then |p| - 1
    else LastSlash(p[..|p| - 1])
  }

  lemma {:induction false} NoSlashAfter(p: string, k: nat)
    requires LastSlash(p) < k < |p|
    ensures p[k] != '/'
  {
    if k < |p| - 1 {
      NoSlashAfter(p[..|p| - 1], k);
    }
  }

  lemma LastSlashSpec(p: string)
    ensures '/' !in p[LastSlash(p) + 1..]
  {
    forall k | LastSlash(p) < k < |p| ensures p[k] != '/' {
      NoSlashAfter(p, k);
    }
  }

  function ParentPathname(p: string): (r: string)
    ensures r != ""
    ensures r != "/" ==> |r| < |NormalizePathname(p)|
  {
    var path := NormalizePathname(p);
    var slash := LastSlash(path);
    if path == "/" || slash <= 0 then "/" else path[..slash]
  }

  function FirstSlash(p: string): (i: nat)
    ensures i <= |p|
  {
    if p == "" || p[0] == '/' then 0 else 1 + FirstSlash(p[1..])
  }

  /** `split('/').filter(Boolean)` */
  function SplitSegments(p: string): seq<string>
    decreases |p|
  {
    if p == "" then []
    else
      var i := FirstSlash(p);
      (if i == 0 then [] else [p[..i]]) + (if i == |p| then [] else SplitSegments(p[i + 1..]))
  }

  function PathSegments(p: string): seq<string> {
    SplitSegments(NormalizePathname(p))
  }

  function LeafSegment(p: string): string {
    var segs := PathSegments(p);
    if segs == [] then "" else segs[|segs| - 1]
  }

  // ---------- Parents and segments agree ----------

  lemma {:induction false} FirstSlashIs(p: string, i: nat)
    requires i <= |p|
    ensures FirstSlash(p) == i <==> (i < |p| ==> p[i] == '/') && '/' !in p[..i]
  {
    if p != "" && p[0] != '/' && i > 0 {
      FirstSlashIs(p[1..], i - 1);
      assert p[..i] == [p[0]] + p[1..][..i - 1];
    } else if i > 0 {
      assert p[..i][0] == p[0];
    }
  }

  function Piece(s: string): seq<string> {
    if s == "" then [] else [s]
  }

  lemma SplitWithoutSlash(p: string)
    requires '/' !in p
    ensures SplitSegments(p) == Piece(p)
  {
    assert p[..|p|] == p;
    FirstSlashIs(p, |p|);
  }

  lemma SplitAtFirstSlash(h: string, t: string)
    requires '/' !in h
    ensures SplitSegments(h + "/" + t) == Piece(h) + SplitSegments(t)
  {
    var p := h + "/" + t;
    assert p[..|h|] == h && p[|h| + 1..] == t;
    FirstSlashIs(p, |h|);
  }

  lemma Reassociate(a: string, b: string, c: string, sep: string)
    ensures a + sep + b + sep + c == a + sep + (b + sep + c)
  {
  }

  lemma SplitStep(h: string, t: string, q: string)
    requires '/' !in h
    requires SplitSegments(t + "/" + q) == SplitSegments(t) + SplitSegments(q)
    ensures SplitSegments(h + "/" + t + "/" + q) == SplitSegments(h + "/" + t) + SplitSegments(q)
  {
    var u, w := t + "/" + q, h + "/" + t + "/" + q;
    assert SplitSegments(h + "/" + t) == Piece(h) + SplitSegments(t) by { SplitAtFirstSlash(h, t); }
    assert SplitSegments(w) == Piece(h) + SplitSegments(u) by {
      SplitAtFirstSlash(h, u);
      Reassociate(h, t, q, "/");
    }
    Associate(Piece(h), SplitSegments(t), SplitSegments(q));
  }

  lemma CutAtFirstSlash(p: string) returns (h: string, t: string)
    requires '/' in p
    ensures '/' !in h && |t| < |p| && p == h + "/" + t
  {
    var i := FirstSlash(p);
    FirstSlashIs(p, i);
    assert p[..|p|] == p;
    h, t := p[..i], p[i + 1..];
  }

  /** Splitting a concatenation at a slash. */
  lemma {:induction false} SplitAtSlash(p: string, q: string)
    ensures SplitSegments(p + "/" + q) == SplitSegments(p) + SplitSegments(q)
    decreases |p|
  {
    if '/' in p {
      var h, t := CutAtFirstSlash(p);
      SplitAtSlash(t, q);
      SplitStep(h, t, q);
    } else {
      SplitWithoutSlash(p);
      SplitAtFirstSlash(p, q);
    }
  }

  lemma {:induction false} TrimKeepsSegments(p: string)
    ensures SplitSegments(TrimSlashes(p)) == SplitSegments(p)
  {
    if p != "" && p[|p| - 1] == '/' {
      var init := p[..|p| - 1];
      assert p == init + "/";
      TrailingSlash(init);
      TrimKeepsSegments(init);
    }
  }

  lemma TrailingSlash(p: string)
    ensures SplitSegments(p + "/") == SplitSegments(p)
  {
    assert p + "/" + "" == p + "/";
    SplitAtSlash(p, "");
  }

  lemma DirAndLeaf(dir: string, leaf: string)
    requires leaf != "" && '/' !in leaf
    ensures SplitSegments(dir + "/" + leaf) == SplitSegments(dir) + [leaf]
    ensures SplitSegments(leaf) == [leaf]
  {
    SplitAtSlash(dir, leaf);
    SplitWithoutSlash(leaf);
  }

  lemma NormalizingKeepsSegments(dir: string)
    requires '?' !in dir
    ensures SplitSegments(NormalizePathname(dir)) == SplitSegments(dir)
  {
    NoQueryToCut(dir);
    TrimKeepsSegments(dir);
    if TrimSlashes(dir) == "" {
      RootHasNoSegments();
    }
  }

  /** A normal path below the root is its directory, if any, a slash, and a leaf. */
  lemma CutAtLastSlash(n: string)
    requires IsNormal(n) && n != "/"
    ensures var slash := LastSlash(n); var leaf := n[slash + 1..];
      && leaf != "" && '/' !in leaf
      && (if slash < 0 then n == leaf else n == n[..slash] + "/" + leaf && '?' !in n[..slash])
  {
    LastSlashSpec(n);
    var slash := LastSlash(n);
    if slash >= 0 {
      assert n[..slash] + "/" + n[slash + 1..] == n;
      assert forall c :: c in n[..slash] ==> c in n;
    } else {
      assert n[0..] == n;
    }
  }

  lemma BareParent(n: string)
    requires IsNormal(n) && n != "/" && LastSlash(n) <= 0
    ensures SplitSegments(n) == [n[LastSlash(n) + 1..]]
  {
    CutAtLastSlash(n);
    DirAndLeaf("", n[LastSlash(n) + 1..]);
    if LastSlash(n) == 0 {
      assert n[..0] == "";
    }
  }

  lemma DeepParent(n: string)
    requires IsNormal(n) && n != "/" && LastSlash(n) > 0
    ensures SplitSegments(n) == PathSegments(n[..LastSlash(n)]) + [n[LastSlash(n) + 1..]]
  {
    CutAtLastSlash(n);
    DirAndLeaf(n[..LastSlash(n)], n[LastSlash(n) + 1..]);
    NormalizingKeepsSegments(n[..LastSlash(n)]);
  }

  /** The parent of any path but the root has its segments without the last one. */
  lemma ParentDropsLast(p: string)
    requires NormalizePathname(p) != "/"
    ensures PathSegments(p) != []
    ensures PathSegments(ParentPathname(p)) == PathSegments(p)[..|PathSegments(p)| - 1]
    ensures LeafSegment(p) == PathSegments(p)[|PathSegments(p)| - 1]
  {
    var n := NormalizePathname(p);
    NormalizedIsNormal(p);
    if LastSlash(n) <= 0 {
      BareParent(n);
      RootHasNoSegments();
    } else {
      DeepParent(n);
    }
  }

  lemma RootHasNoSegments()
    ensures SplitSegments("/") == [] && PathSegments("/") == []
  {
    assert "/"[1..] == "";
    NormalIsFixed("/");
  }

  // ---------- Shared prefix ----------

  /** The length of the longest common prefix of two segment lists. */
  function CommonPrefix(l: seq<string>, r: seq<string>): (n: nat)
    ensures n <= |l| && n <= |r|
  {
    if l != [] && r != [] && l[0] == r[0] then 1 + CommonPrefix(l[1..], r[1..]) else 0
  }

  ghost predicate AgreeUpTo(l: seq<string>, r: seq<string>, n: nat) {
    && n <= |l| && n <= |r|
    && (forall k :: 0 <= k < n ==> l[k] == r[k])
    && (n < |l| && n < |r| ==> l[n] != r[n])
  }

  /** `CommonPrefix` is where two lists stop agreeing. */
  lemma {:induction false} CommonPrefixIs(l: seq<string>, r: seq<string>, n: nat)
    ensures CommonPrefix(l, r) == n <==> AgreeUpTo(l, r, n)
  {
    if l != [] && r != [] && l[0] == r[0] {
      if n > 0 {
        CommonPrefixIs(l[1..], r[1..], n - 1);
        if AgreeUpTo(l[1..], r[1..], n - 1) {
          forall k | 0 <= k < n ensures l[k] == r[k] { assert k > 0 ==> l[1..][k - 1] == r[1..][k - 1]; }
        }
      }
    }
  }

  function SharedSegments(a: string, b: string): nat {
    CommonPrefix(PathSegments(a), PathSegments(b))
  }

  method CommonPrefixSegmentCount(a: string, b: string) returns (i: nat)
    ensures i == SharedSegments(a, b)
  {
    i := CountEqual(PathSegments(a), PathSegments(b));
  }

  method CountEqual(left: seq<string>, right: seq<string>) returns (i: nat)
    ensures i == CommonPrefix(left, right)
  {
    i := 0;
    while i < |left| && i < |right| && left[i] == right[i]
      invariant i <= |left| && i <= |right|
      invariant forall k :: 0 <= k < i ==> left[k] == right[k]
    {
      i := i + 1;
    }
    CommonPrefixIs(left, right, i);
  }
}
