/**
 * Levenshtein distance: the two-row loop of the source, a recursive specification, the
 * least cost of an edit script, and the laws of a metric.
 */
module EditDistance {
  import opened Common

  function Min3(x: nat, y: nat, z: nat): nat {
    if x <= y && x <= z then x else if y <= z then y else z
  }

  /** The recursive distance, on last characters as the table is filled. */
  function Distance(a: string, b: string): nat
    decreases |a| + |b|
  {
    if a == [] then |b|
    else if b == [] then |a|
    else
      var a', b' := a[..|a| - 1], b[..|b| - 1];
      var cost := if a[|a| - 1] == b[|b| - 1] then 0 else 1;
      Min3(Distance(a', b) + 1, Distance(a, b') + 1, Distance(a', b') + cost)
  }

  // ---------- The two-row loop ----------

  /** An array slot: `new Array(n)` leaves holes, read as `undefined`. */
  datatype Slot = Hole | Num(n: nat)

  /** `slot ?? fallback` */
  function OrElse(s: Slot, fallback: nat): nat {
    if s.Num? then s.n else fallback
  }

  /** Row `i` of the table up to column `j` (inclusive) is filled in `row`. */
  ghost predicate RowFilled(row: seq<Slot>, a: string, b: string, i: nat, j: nat)
    requires i <= |a| && j <= |b|
  {
    |row| == |b| + 1 && forall k :: 0 <= k <= j ==> row[k] == Num(Distance(a[..i], b[..k]))
  }

  lemma Cell(a: string, b: string, i: nat, j: nat)
    requires 0 < i <= |a| && 0 < j <= |b|
    ensures Distance(a[..i], b[..j])
         == Min3(Distance(a[..i - 1], b[..j]) + 1, Distance(a[..i], b[..j - 1]) + 1,
                 Distance(a[..i - 1], b[..j - 1]) + (if a[i - 1] == b[j - 1] then 0 else 1))
  {
    assert a[..i][..i - 1] == a[..i - 1] && b[..j][..j - 1] == b[..j - 1];
  }

  /** The slot the inner loop computes at column `j` extends the filled part of row `i`. */
  lemma NextSlot(a: string, b: string, i: nat, j: nat, prev: seq<Slot>, curr: seq<Slot>, slot: Slot)
    requires 0 < i <= |a| && 0 < j <= |b| && |prev| == |curr| == |b| + 1
    requires RowFilled(prev, a, b, i - 1, |b|) && RowFilled(curr, a, b, i, j - 1)
    requires slot == Num(Min3(
      OrElse(prev[j], 0) + 1, OrElse(curr[j - 1], 0) + 1,
      OrElse(prev[j - 1], 0) + (if a[i - 1] == b[j - 1] then 0 else 1)))
    ensures RowFilled(curr[j := slot], a, b, i, j)
  {
    Cell(a, b, i, j);
  }

  /** One inner loop: `curr` becomes row `i`, read from `prev`, which holds row `i - 1`. */
  method FillRow(a: string, b: string, i: nat, prev: array<Slot>, curr: array<Slot>)
    requires 0 < i <= |a| && prev != curr
    requires prev.Length == curr.Length == |b| + 1
    requires RowFilled(prev[..], a, b, i - 1, |b|)
    modifies curr
    ensures RowFilled(curr[..], a, b, i, |b|)
  {
    curr[0] := Num(i);
    assert b[..0] == [] && |a[..i]| == i;
    for j := 1 to |b| + 1
      invariant prev[..] == old(prev[..]) && RowFilled(curr[..], a, b, i, j - 1)
    {
      var cost := if a[i - 1] == b[j - 1] then 0 else 1;
      ghost var before := curr[..];
      curr[j] := Num(Min3(
        OrElse(prev[j], 0) + 1,
        OrElse(curr[j - 1], 0) + 1,
        OrElse(prev[j - 1], 0) + cost));
      NextSlot(a, b, i, j, prev[..], before, curr[j]);
      assert curr[..] == before[j := curr[j]];
    }
  }

  /** Copies `curr` over `prev`; no slot is a hole any more, so the fallback never shows. */
  method CopyRow(prev: array<Slot>, curr: array<Slot>)
    requires prev != curr && prev.Length == curr.Length
    requires forall k :: 0 <= k < curr.Length ==> curr[k].Num?
    modifies prev
    ensures prev[..] == curr[..]
  {
    for j := 0 to prev.Length
      invariant forall k :: 0 <= k < j ==> prev[k] == curr[k]
    {
      prev[j] := Num(OrElse(curr[j], 0));
    }
  }

  method Levenshtein(a: string, b: string) returns (d: nat)
    ensures d == Distance(a, b)
  {
    if a == b {
      SelfDistance(a);
      return 0;
    }
    if |a| == 0 {
      return |b|;
    }
    if |b| == 0 {
      return |a|;
    }
    var prev := new Slot[|b| + 1](i => Num(if i < 0 then 0 else i));
    var curr := new Slot[|b| + 1](_ => Hole);
    assert RowFilled(prev[..], a, b, 0, |b|);
    for i := 1 to |a| + 1
      invariant RowFilled(prev[..], a, b, i - 1, |b|)
    {
      FillRow(a, b, i, prev, curr);
      assert forall k :: 0 <= k <= |b| ==> curr[k] == curr[..][k];
      CopyRow(prev, curr);
    }
    assert a[..|a|] == a && b[..|b|] == b && prev[..][|b|] == prev[|b|];
    d := OrElse(prev[|b|], |b|);
  }

  // ---------- Edit scripts ----------

  datatype Edit = Keep | Replace(to: char) | Insert(c: char) | Delete

  function Cost(script: seq<Edit>): nat {
    if script == [] then 0 else (if script[0].Keep? then 0 else 1) + Cost(script[1..])
  }

  /** The string a script makes of `a`, or `None` when it does not fit `a` exactly. Both are read from the end. */
  function Apply(script: seq<Edit>, a: string): Option<string> {
    if script == [] then (if a == [] then Some([]) else None)
    else
      match script[0]
      case Insert(c) => Append(Apply(script[1..], a), c)
      case Delete => if a == [] then None else Apply(script[1..], a[..|a| - 1])
      case Keep => if a == [] then None else Append(Apply(script[1..], a[..|a| - 1]), a[|a| - 1])
      case Replace(c) => if a == [] then None else Append(Apply(script[1..], a[..|a| - 1]), c)
  }

  function Append(s: Option<string>, c: char): Option<string> {
    if s.Some? then Some(s.value + [c]) else None
  }

  /** No script from `a` to `b` is cheaper than the distance. */
  lemma {:induction false} ScriptsCostAtLeast(script: seq<Edit>, a: string, b: string)
    requires Apply(script, a) == Some(b)
    ensures Distance(a, b) <= Cost(script)
  {
    if script != [] {
      var rest := script[1..];
      match script[0]
      case Insert(c) =>
        ScriptsCostAtLeast(rest, a, b[..|b| - 1]);
        StepBounds(a, b);
      case Delete =>
        ScriptsCostAtLeast(rest, a[..|a| - 1], b);
        StepBounds(a, b);
      case Keep =>
        ScriptsCostAtLeast(rest, a[..|a| - 1], b[..|b| - 1]);
      case Replace(c) =>
        ScriptsCostAtLeast(rest, a[..|a| - 1], b[..|b| - 1]);
    }
  }

  /** Some script from `a` to `b` costs exactly the distance. */
  lemma {:induction false} ScriptOfLeastCost(a: string, b: string) returns (script: seq<Edit>)
    ensures Apply(script, a) == Some(b) && Cost(script) == Distance(a, b)
    decreases |a| + |b|
  {
    if a == [] && b == [] {
      return [];
    }
    var rest, e;
    if a == [] {
      e := Insert(b[|b| - 1]);
      rest := ScriptOfLeastCost(a, b[..|b| - 1]);
    } else if b == [] {
      e := Delete;
      rest := ScriptOfLeastCost(a[..|a| - 1], b);
    } else {
      var a', b' := a[..|a| - 1], b[..|b| - 1];
      if Distance(a, b) == Distance(a', b) + 1 {
        e := Delete;
        rest := ScriptOfLeastCost(a', b);
      } else if Distance(a, b) == Distance(a, b') + 1 {
        e := Insert(b[|b| - 1]);
        rest := ScriptOfLeastCost(a, b');
      } else {
        rest := ScriptOfLeastCost(a', b');
        e := if a[|a| - 1] == b[|b| - 1] then Keep else Replace(b[|b| - 1]);
      }
    }
    script := [e] + rest;
    assert script[1..] == rest;
    assert b != [] ==> b[..|b| - 1] + [b[|b| - 1]] == b;
  }

  // ---------- A metric ----------

  /** One more character on either side costs at most one. */
  lemma StepBounds(a: string, b: string)
    ensures a != [] ==> Distance(a, b) <= Distance(a[..|a| - 1], b) + 1
    ensures b != [] ==> Distance(a, b) <= Distance(a, b[..|b| - 1]) + 1
  {
  }

  lemma {:induction false} SelfDistance(a: string)
    ensures Distance(a, a) == 0
  {
    if a != [] {
      SelfDistance(a[..|a| - 1]);
    }
  }

  lemma {:induction false} ZeroOnlyOnEqual(a: string, b: string)
    ensures Distance(a, b) == 0 <==> a == b
    decreases |a| + |b|
  {
    if a == b {
      SelfDistance(a);
    } else if a != [] && b != [] {
      ZeroOnlyOnEqual(a[..|a| - 1], b[..|b| - 1]);
      assert a == a[..|a| - 1] + [a[|a| - 1]] && b == b[..|b| - 1] + [b[|b| - 1]];
    }
  }

  lemma {:induction false} Symmetric(a: string, b: string)
    ensures Distance(a, b) == Distance(b, a)
    decreases |a| + |b|
  {
    if a != [] && b != [] {
      Symmetric(a[..|a| - 1], b);
      Symmetric(a, b[..|b| - 1]);
      Symmetric(a[..|a| - 1], b[..|b| - 1]);
    }
  }

  lemma {:induction false} LengthGap(a: string, b: string)
    ensures |a| <= |b| + Distance(a, b)
    decreases |a| + |b|
  {
    if a != [] && b != [] {
      LengthGap(a[..|a| - 1], b);
      LengthGap(a, b[..|b| - 1]);
      LengthGap(a[..|a| - 1], b[..|b| - 1]);
    }
  }

  /** Never more than rewriting the shorter string and inserting the rest. */
  lemma {:induction false} AtMostLonger(a: string, b: string)
    ensures Distance(a, b) <= Max(|a|, |b|)
    decreases |a| + |b|
  {
    if a != [] && b != [] {
      AtMostLonger(a[..|a| - 1], b[..|b| - 1]);
    }
  }

  lemma {:induction false} Triangle(a: string, b: string, c: string)
    ensures Distance(a, c) <= Distance(a, b) + Distance(b, c)
    decreases |a| + |b| + |c|
  {
    if a == [] {
      Symmetric(b, c);
      LengthGap(c, b);
    } else if c == [] {
      LengthGap(a, b);
    } else if b == [] {
      AtMostLonger(a, c);
    } else {
      var a', b', c' := a[..|a| - 1], b[..|b| - 1], c[..|c| - 1];
      StepBounds(a, c);
      if Distance(a, b) == Distance(a', b) + 1 {
        Triangle(a', b, c);
      } else if Distance(b, c) == Distance(b, c') + 1 {
        Triangle(a, b, c');
      } else if Distance(a, b) == Distance(a, b') + 1 {
        if Distance(b, c) == Distance(b', c) + 1 {
          Triangle(a, b', c);
        } else {
          Triangle(a, b', c');
        }
      } else if Distance(b, c) == Distance(b', c) + 1 {
        Triangle(a', b', c);
      } else {
        Triangle(a', b', c');
      }
    }
  }
}
