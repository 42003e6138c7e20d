/** Which documents the response validator ends on: a ranking exists unless some link chain returns. */
module SchemaCycles {
  import opened Common
  import opened SchemaValidator

  /** `s` leads to the schema named `m` without going into the value. */
  predicate LinksTo(s: Schema, m: string)
    decreases s
  {
    if s.ref.Some? then s.ref.value == m else LinksFrom(s, 0, m)
  }

  predicate LinksFrom(s: Schema, i: nat, m: string)
    requires i <= |Parts(s)|
    decreases s, |Parts(s)| - i
  {
    i < |Parts(s)| && (LinksTo(Parts(s)[i], m) || LinksFrom(s, i + 1, m))
  }

  ghost predicate Linked(doc: Doc, chain: seq<string>, i: nat)
    requires i + 1 < |chain|
  {
    chain[i] in doc && LinksTo(doc[chain[i]], chain[i + 1])
  }

  ghost predicate IsChain(doc: Doc, chain: seq<string>) {
    forall i: nat :: i + 1 < |chain| ==> Linked(doc, chain, i)
  }

  /** Some chain of links that go into no value returns to where it started. */
  ghost predicate Cyclic(doc: Doc) {
    exists chain :: |chain| > 1 && IsChain(doc, chain) && chain[0] == chain[|chain| - 1]
  }

  lemma {:induction false} LinkIsLower(rank: Rank, s: Schema, m: string)
    requires m in rank && LinksTo(s, m)
    ensures rank[m] < Level(rank, s)
    decreases s
  {
    if s.ref.None? {
      LinkFromIsLower(rank, s, 0, m);
    }
  }

  lemma {:induction false} LinkFromIsLower(rank: Rank, s: Schema, i: nat, m: string)
    requires m in rank && s.ref.None? && i <= |Parts(s)| && LinksFrom(s, i, m)
    ensures rank[m] < LevelFrom(rank, s, i)
    decreases s, |Parts(s)| - i
  {
    if LinksTo(Parts(s)[i], m) {
      LinkIsLower(rank, Parts(s)[i], m);
    } else {
      LinkFromIsLower(rank, s, i + 1, m);
    }
  }

  lemma {:induction false} ChainDescends(doc: Doc, rank: Rank, chain: seq<string>, k: nat)
    requires Ranked(doc, rank) && IsChain(doc, chain) && k < |chain| && chain[0] in doc && chain[k] in doc
    ensures rank[chain[k]] + k <= rank[chain[0]]
  {
    if k > 0 {
      assert Linked(doc, chain, k - 1);
      ChainDescends(doc, rank, chain, k - 1);
      LinkIsLower(rank, doc[chain[k - 1]], chain[k]);
    }
  }

  lemma RankedIsAcyclic(doc: Doc, rank: Rank)
    requires Ranked(doc, rank)
    ensures !Cyclic(doc)
  {
    if chain :| |chain| > 1 && IsChain(doc, chain) && chain[0] == chain[|chain| - 1] {
      assert Linked(doc, chain, 0);
      ChainDescends(doc, rank, chain, |chain| - 1);
    }
  }

  /** Every link of a schema in `done` stays in `done` or leads out of the document. */
  ghost predicate SelfContained(doc: Doc, done: set<string>) {
    forall d, m :: d in done && d in doc && m in doc && LinksTo(doc[d], m) ==> m in done
  }

  function Met(walk: seq<string>): set<string> {
    set i | 0 <= i < |walk| :: walk[i]
  }

  lemma MetGrows(walk: seq<string>, m: string)
    ensures Met(walk + [m]) == Met(walk) + {m}
  {
    assert (walk + [m])[|walk|] == m;
    assert forall i :: 0 <= i < |walk| ==> (walk + [m])[i] == walk[i];
  }

  /** Walking along links that stay in `left` never comes back, so it ends at a name none of whose links do. */
  lemma {:induction false} EndOfWalk(doc: Doc, left: set<string>, walk: seq<string>)
    returns (end: string)
    requires left <= doc.Keys && !Cyclic(doc) && walk != [] && IsChain(doc, walk)
    requires Met(walk) <= left
    ensures end in left && forall m :: m in left ==> !LinksTo(doc[end], m)
    decreases left - Met(walk)
  {
    end := walk[|walk| - 1];
    assert end in Met(walk);
    if m :| m in left && LinksTo(doc[end], m) {
      var longer := walk + [m];
      ChainGrows(doc, walk, m);
      if i :| 0 <= i < |walk| && walk[i] == m {
        ChainTail(doc, longer, i);
      } else {
        MetGrows(walk, m);
        end := EndOfWalk(doc, left, longer);
      }
    }
  }

  lemma ChainGrows(doc: Doc, walk: seq<string>, m: string)
    requires walk != [] && IsChain(doc, walk) && walk[|walk| - 1] in doc && LinksTo(doc[walk[|walk| - 1]], m)
    ensures IsChain(doc, walk + [m])
  {
    forall i: nat | i + 1 < |walk + [m]| ensures Linked(doc, walk + [m], i) {
      assert i + 1 < |walk| ==> Linked(doc, walk, i);
    }
  }

  lemma ChainTail(doc: Doc, chain: seq<string>, i: nat)
    requires IsChain(doc, chain) && i + 1 < |chain| && chain[i] == chain[|chain| - 1]
    ensures Cyclic(doc)
  {
    var tail := chain[i..];
    forall j: nat | j + 1 < |tail| ensures Linked(doc, tail, j) {
      assert Linked(doc, chain, i + j);
    }
    assert IsChain(doc, tail);
  }

  lemma {:induction false} UnlinkedLevel(rank: Rank, s: Schema, n: string, l: nat)
    requires !LinksTo(s, n)
    ensures Level(rank[n := l], s) == Level(rank, s)
    decreases s
  {
    if s.ref.None? {
      UnlinkedLevelFrom(rank, s, 0, n, l);
    }
  }

  lemma {:induction false} UnlinkedLevelFrom(rank: Rank, s: Schema, i: nat, n: string, l: nat)
    requires s.ref.None? && i <= |Parts(s)| && !LinksFrom(s, i, n)
    ensures LevelFrom(rank[n := l], s, i) == LevelFrom(rank, s, i)
    decreases s, |Parts(s)| - i
  {
    if i < |Parts(s)| {
      UnlinkedLevel(rank, Parts(s)[i], n, l);
      UnlinkedLevelFrom(rank, s, i + 1, n, l);
    }
  }

  ghost predicate RankedOn(doc: Doc, done: set<string>, rank: Rank)
    requires done <= doc.Keys
  {
    forall n :: n in done ==> n in rank && Level(rank, doc[n]) <= rank[n]
  }

  lemma RankOneMore(doc: Doc, done: set<string>, rank: Rank, n: string)
    requires done <= doc.Keys && n in doc && n !in done && RankedOn(doc, done, rank) && SelfContained(doc, done)
    requires forall m :: m in doc.Keys - done ==> !LinksTo(doc[n], m)
    ensures RankedOn(doc, done + {n}, rank[n := Level(rank, doc[n])]) && SelfContained(doc, done + {n})
  {
    var l := Level(rank, doc[n]);
    forall d | d in done + {n} ensures d in rank[n := l] && Level(rank[n := l], doc[d]) <= rank[n := l][d] {
      UnlinkedLevel(rank, doc[d], n, l);
    }
  }

  /** Names are ranked one at a time, each after everything it links to. */
  lemma {:induction false} RankTheRest(doc: Doc, done: set<string>, rank: Rank) returns (full: Rank)
    requires done <= doc.Keys && !Cyclic(doc) && RankedOn(doc, done, rank) && SelfContained(doc, done)
    ensures Ranked(doc, full)
    decreases doc.Keys - done
  {
    if done == doc.Keys {
      full := rank;
    } else {
      var first :| first in doc && first !in done;
      var n := EndOfWalk(doc, doc.Keys - done, [first]);
      RankOneMore(doc, done, rank, n);
      full := RankTheRest(doc, done + {n}, rank[n := Level(rank, doc[n])]);
    }
  }

  /** The checker's recursion is well founded exactly when no chain of value-free links returns to a name. */
  lemma RankingExistsIff(doc: Doc)
    ensures (exists rank :: Ranked(doc, rank)) <==> !Cyclic(doc)
  {
    if rank :| Ranked(doc, rank) {
      RankedIsAcyclic(doc, rank);
    }
    if !Cyclic(doc) {
      var rank := RankTheRest(doc, {}, map[]);
    }
  }
}
