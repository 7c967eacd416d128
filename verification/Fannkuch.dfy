/**
 fannkuchredux: the flips of a permutation, and the counting of all permutations by
 an odometer of prefix rotations.  C's ints are unbounded here.
 */
module Permutations {
  function Ident(n: nat): (p: seq<nat>)
    ensures |p| == n && forall i | 0 <= i < n :: p[i] == i
  {
    seq(n, i requires 0 <= i < n => i)
  }

  predicate Distinct(p: seq<nat>) { forall i, j | 0 <= i < j < |p| :: p[i] != p[j] }

  /** p is an arrangement of 0 .. |p|-1. */
  ghost predicate IsPerm(p: seq<nat>) {
    Distinct(p) && (forall i | 0 <= i < |p| :: p[i] < |p|) && forall v: nat | v < |p| :: v in p
  }

  // The first k + 1 elements in reverse.
  function Flipped(p: seq<nat>, k: nat): (q: seq<nat>)
    requires k < |p|
    ensures |q| == |p| && forall i | 0 <= i < |p| :: q[i] == if i <= k then p[k - i] else p[i]
  {
    seq(|p|, i requires 0 <= i < |p| => if i <= k then p[k - i] else p[i])
  }

  // x with its first r + 1 elements rotated left k times.
  function Rotated(x: seq<nat>, r: nat, k: nat): (y: seq<nat>)
    requires r < |x| && k <= r + 1
    ensures |y| == |x|
    ensures forall i | 0 <= i < |x| ::
      y[i] == if i > r then x[i] else if i + k <= r then x[i + k] else x[i + k - (r + 1)]
  {
    x[k..r + 1] + x[..k] + x[r + 1..]
  }

  // A rearrangement that undoes: y[i] == x[f(i)] for a bijection f.
  lemma FlippedIsPerm(p: seq<nat>, k: nat)
    requires IsPerm(p) && k < |p|
    ensures IsPerm(Flipped(p, k))
  {
    var q := Flipped(p, k);
    forall v: nat | v < |q| ensures v in q {
      assert v in p;
      var i :| 0 <= i < |p| && p[i] == v;
      assert q[if i <= k then k - i else i] == v;
    }
  }

  // Where the rotation takes its i-th element from, and where it puts the element i.
  function Source(r: nat, k: nat, i: nat): nat
    requires k <= r + 1
  {
    if i > r then i else if i + k <= r then i + k else i + k - (r + 1)
  }

  function Target(r: nat, k: nat, i: nat): nat
    requires k <= r + 1
  {
    if i > r then i else if i >= k then i - k else i + (r + 1) - k
  }

  lemma SourceOfTarget(r: nat, k: nat, i: nat, j: nat)
    requires k <= r + 1
    ensures Source(r, k, Target(r, k, i)) == i && (Source(r, k, i) == Source(r, k, j) ==> i == j)
    ensures i > r || Target(r, k, i) <= r
  {
  }

  lemma RotatedAt(x: seq<nat>, r: nat, k: nat)
    requires r < |x| && k <= r + 1
    ensures var y := Rotated(x, r, k);
      && |y| == |x| && (forall i | 0 <= i < |x| :: Source(r, k, i) < |x| && y[i] == x[Source(r, k, i)])
      && y[r + 1..] == x[r + 1..]
  {
    var y := Rotated(x, r, k);
    assert forall i | r < i < |x| :: y[i] == x[i];
  }

  lemma RotatedIsPerm(x: seq<nat>, r: nat, k: nat)
    requires IsPerm(x) && r < |x| && k <= r + 1
    ensures IsPerm(Rotated(x, r, k))
  {
    hide Rotated;
    var y := Rotated(x, r, k);
    RotatedAt(x, r, k);
    forall i, j | 0 <= i < j < |y| ensures y[i] != y[j] {
      SourceOfTarget(r, k, i, j);
      assert x[Source(r, k, i)] != x[Source(r, k, j)];
    }
    forall v: nat | v < |y| ensures v in y {
      assert v in x;
      var i :| 0 <= i < |x| && x[i] == v;
      SourceOfTarget(r, k, i, i);
      assert y[Target(r, k, i)] == v;
    }
  }

  // The element that ends up at place r tells how far was rotated.
  lemma RotationDecides(x: seq<nat>, r: nat, k: nat, l: nat)
    requires Distinct(x) && r < |x| && k <= r && l <= r
    requires Rotated(x, r, k)[r] == Rotated(x, r, l)[r]
    ensures k == l
  {
    assert Rotated(x, r, k)[r] == x[if k == 0 then r else k - 1];
    assert Rotated(x, r, l)[r] == x[if l == 0 then r else l - 1];
  }

  lemma RotateOnce(x: seq<nat>, r: nat, k: nat)
    requires r < |x| && k <= r
    ensures Rotated(Rotated(x, r, k), r, 1) == Rotated(x, r, k + 1)
  {
    var y, z := Rotated(Rotated(x, r, k), r, 1), Rotated(x, r, k + 1);
    assert forall i | 0 <= i < |x| :: y[i] == z[i];
  }

  lemma RotateFully(x: seq<nat>, r: nat)
    requires r < |x|
    ensures Rotated(x, r, r + 1) == x && Rotated(x, r, 0) == x
  {
  }
}

module Flips {
  import opened Permutations

  function Pow2(n: nat): nat { if n == 0 then 1 else 2 * Pow2(n - 1) }

  // The sum of 2^i over the places i from 1 to m - 1 that hold their own number.
  function Weight(p: seq<nat>, m: nat): nat
    requires m <= |p|
  {
    if m <= 1 then 0 else Weight(p, m - 1) + if p[m - 1] == m - 1 then Pow2(m - 1) else 0
  }

  lemma {:induction false} WeightBound(p: seq<nat>, m: nat)
    requires m <= |p|
    ensures Weight(p, m) < Pow2(m)
  {
    if m > 1 {
      WeightBound(p, m - 1);
    }
  }

  lemma {:induction false} WeightGrows(p: seq<nat>, k: nat, m: nat)
    requires IsPerm(p) && 0 < k < m <= |p| && p[0] == k
    ensures Weight(Flipped(p, k), m) > Weight(p, m)
    decreases m
  {
    if m == k + 1 {
      WeightBound(p, k);
    } else {
      WeightGrows(p, k, m - 1);
    }
  }

  /** The number of flips until 0 comes first.  Every flip puts the number k at place k
      and so raises the weight, whatever it disturbs below. */
  function FlipCount(p: seq<nat>): nat
    requires IsPerm(p) && p != []
    decreases Pow2(|p|) - Weight(p, |p|)
  {
    if p[0] == 0 then 0
    else
      FlippedIsPerm(p, p[0]);
      WeightGrows(p, p[0], |p|);
      WeightBound(p, |p|);
      WeightBound(Flipped(p, p[0]), |p|);
      1 + FlipCount(Flipped(p, p[0]))
  }

  // p after k flips, each of as many elements as the first one says.
  function FlippedTimes(p: seq<nat>, k: nat): (q: seq<nat>)
    requires IsPerm(p) && p != []
    ensures IsPerm(q) && |q| == |p|
  {
    if k == 0 then p
    else
      var q := FlippedTimes(p, k - 1);
      FlippedIsPerm(q, q[0]);
      Flipped(q, q[0])
  }

  function FirstAfter(p: seq<nat>, k: nat): nat
    requires IsPerm(p) && p != []
  {
    FlippedTimes(p, k)[0]
  }

  // It takes k flips to bring 0 to the front: no fewer do.
  ghost predicate FlipsTo(p: seq<nat>, k: nat)
    requires IsPerm(p) && p != []
  {
    FirstAfter(p, k) == 0 && forall j | 0 <= j < k :: FirstAfter(p, j) != 0
  }

  lemma {:induction false} FlipFirst(p: seq<nat>, k: nat)
    requires IsPerm(p) && p != []
    ensures IsPerm(Flipped(p, p[0])) && FlippedTimes(p, k + 1) == FlippedTimes(Flipped(p, p[0]), k)
  {
    FlippedIsPerm(p, p[0]);
    hide IsPerm;
    if k > 0 {
      FlipFirst(p, k - 1);
    } else {
      assert FlippedTimes(p, 0) == p;
    }
  }

  /** FlipCount counts the flips, each of them once. */
  lemma {:induction false} FlipCountExactly(p: seq<nat>, k: nat)
    requires IsPerm(p) && p != []
    ensures FlipCount(p) == k <==> FlipsTo(p, k)
    decreases Pow2(|p|) - Weight(p, |p|)
  {
    if p[0] == 0 {
      assert FirstAfter(p, 0) == 0;
    } else {
      FlippedIsPerm(p, p[0]);
      WeightGrows(p, p[0], |p|);
      WeightBound(p, |p|);
      WeightBound(Flipped(p, p[0]), |p|);
      if k > 0 {
        FlipCountExactly(Flipped(p, p[0]), k - 1);
        FlipsOneLess(p, k);
      }
    }
  }

  lemma FlipsOneLess(p: seq<nat>, k: nat)
    requires IsPerm(p) && p != [] && p[0] != 0 && k > 0
    ensures IsPerm(Flipped(p, p[0])) && (FlipsTo(p, k) <==> FlipsTo(Flipped(p, p[0]), k - 1))
  {
    hide FirstAfter;
    FirstOneLess(p, 0);
    var q := Flipped(p, p[0]);
    assert |q| == |p|;
    FirstIsFirst(p);
    forall j: nat ensures FirstAfter(p, j + 1) == FirstAfter(q, j) {
      FirstOneLess(p, j);
    }
    forall j | 0 <= j < k && FlipsTo(q, k - 1) ensures FirstAfter(p, j) != 0 {
      if j > 0 {
        assert FirstAfter(p, j - 1 + 1) == FirstAfter(q, j - 1);
      }
    }
    assert FirstAfter(p, k - 1 + 1) == FirstAfter(q, k - 1);
  }

  lemma FirstIsFirst(p: seq<nat>)
    requires IsPerm(p) && p != []
    ensures FirstAfter(p, 0) == p[0]
  {
  }

  lemma FirstOneLess(p: seq<nat>, j: nat)
    requires IsPerm(p) && p != []
    ensures IsPerm(Flipped(p, p[0])) && FirstAfter(p, j + 1) == FirstAfter(Flipped(p, p[0]), j)
  {
    FlipFirst(p, j);
  }

  /** The flip loop, in place. */
  method CountFlips(perm: array<nat>) returns (flipsCount: nat)
    requires perm.Length > 0 && IsPerm(perm[..])
    modifies perm
    ensures flipsCount == FlipCount(old(perm[..]))
  {
    flipsCount := 0;
    var k := perm[0];
    while k != 0
      invariant IsPerm(perm[..]) && k == perm[0]
      invariant FlipCount(old(perm[..])) == flipsCount + FlipCount(perm[..])
      decreases Pow2(perm.Length) - Weight(perm[..], perm.Length)
    {
      ghost var p := perm[..];
      FlippedIsPerm(p, k);
      WeightGrows(p, k, |p|);
      WeightBound(p, |p|);
      WeightBound(Flipped(p, k), |p|);
      FlipPrefix(perm, k);
      flipsCount := flipsCount + 1;
      k := perm[0];
    }
  }

  method FlipPrefix(perm: array<nat>, k: nat)
    requires k < perm.Length
    modifies perm
    ensures perm[..] == Flipped(old(perm[..]), k)
  {
    var k2, i := (k + 1) / 2, 0;
    ghost var was := perm[..];
    while i < k2
      invariant 0 <= i <= k2
      invariant forall j | 0 <= j < i :: perm[j] == was[k - j] && perm[k - j] == was[j]
      invariant forall j | i <= j <= k - i :: perm[j] == was[j]
      invariant forall j | k < j < perm.Length :: perm[j] == was[j]
    {
      perm[i], perm[k - i] := perm[k - i], perm[i];
      i := i + 1;
    }
    forall j | 0 <= j < perm.Length ensures perm[j] == Flipped(was, k)[j] {
      assert k - i < j <= k ==> perm[k - (k - j)] == was[k - j];
    }
  }
}

module Odometer {
  import opened Permutations

  function Fact(n: nat): (f: nat)
    ensures f >= 1
  {
    if n == 0 then 1 else n * Fact(n - 1)
  }

  // Digit i runs from 0 to i and counts Fact(i).
  predicate Digits(d: seq<nat>) { forall i | 0 <= i < |d| :: d[i] <= i }

  function Rank(d: seq<nat>): nat {
    if d == [] then 0 else Rank(d[..|d| - 1]) + d[|d| - 1] * Fact(|d| - 1)
  }

  lemma {:induction false} RankBound(d: seq<nat>)
    requires Digits(d)
    ensures Rank(d) < Fact(|d|)
  {
    if d != [] {
      var n := |d| - 1;
      RankBound(d[..n]);
      Times(d[n], n, Fact(n));
      FactStep(n);
    }
  }

  lemma FactStep(n: nat)
    ensures Fact(n + 1) == n * Fact(n) + Fact(n)
  {
  }

  lemma Times(a: nat, b: nat, m: nat)
    requires a <= b
    ensures a * m <= b * m
  {
  }

  lemma {:induction false} RankInjective(d: seq<nat>, e: seq<nat>)
    requires Digits(d) && Digits(e) && |d| == |e| && Rank(d) == Rank(e)
    ensures d == e
  {
    if d != [] {
      var n := |d| - 1;
      RankBound(d[..n]);
      RankBound(e[..n]);
      QuotientsAgree(d[n], e[n], Fact(n), Rank(d[..n]), Rank(e[..n]));
      RankInjective(d[..n], e[..n]);
      assert d == d[..n] + [d[n]] && e == e[..n] + [e[n]];
    }
  }

  lemma QuotientsAgree(a: nat, b: nat, m: nat, r: nat, s: nat)
    requires r < m && s < m && r + a * m == s + b * m
    ensures a == b && r == s
  {
    if a < b {
      Times(a + 1, b, m);
    } else if b < a {
      Times(b + 1, a, m);
    }
  }

  // The digits of k, for k < Fact(n).
  function DigitsOf(n: nat, k: nat): (d: seq<nat>)
    ensures |d| == n
  {
    if n == 0 then [] else DigitsOf(n - 1, k % Fact(n - 1)) + [k / Fact(n - 1)]
  }

  lemma Division(k: nat, m: nat, n: nat)
    requires m > 0 && k < n * m
    ensures k % m < m && k / m < n && k % m + k / m * m == k
  {
    if k / m >= n {
      Times(n, k / m, m);
    }
  }

  lemma {:induction false} DigitsOfRank(n: nat, k: nat)
    requires k < Fact(n)
    ensures Digits(DigitsOf(n, k)) && Rank(DigitsOf(n, k)) == k
  {
    if n > 0 {
      var m := Fact(n - 1);
      var d := DigitsOf(n, k);
      DigitsOfRank(n - 1, k % m);
      assert d[..n - 1] == DigitsOf(n - 1, k % m) && d[n - 1] == k / m;
      Division(k, m, n);
    }
  }

  // ---------------------------------------------------------------- digits as rotations

  // The arrangement after levels i and up have been turned as the digits say.
  function Turned(d: seq<nat>, i: nat): (p: seq<nat>)
    requires Digits(d) && 1 <= i && (i <= |d| || |d| == 0)
    ensures |p| == |d|
    decreases |d| - i
  {
    if i >= |d| then Ident(|d|) else Rotated(Turned(d, i + 1), i, d[i])
  }

  lemma {:induction false} TurnedIsPerm(d: seq<nat>, i: nat)
    requires Digits(d) && 1 <= i <= |d|
    ensures IsPerm(Turned(d, i))
    decreases |d| - i
  {
    if i < |d| {
      TurnedIsPerm(d, i + 1);
      RotatedIsPerm(Turned(d, i + 1), i, d[i]);
    } else {
      var p := Ident(|d|);
      forall v: nat | v < |p| ensures v in p { assert p[v] == v; }
    }
  }

  // The turns of lower levels do not reach place j.
  lemma {:induction false} PlaceSettled(d: seq<nat>, i: nat, j: nat)
    requires Digits(d) && 1 <= i <= j < |d|
    ensures Turned(d, i)[j] == Turned(d, j)[j]
    decreases j - i
  {
    hide Rotated;
    if i < j {
      RotatedAt(Turned(d, i + 1), i, d[i]);
      PlaceSettled(d, i + 1, j);
    }
  }

  lemma {:induction false} TurnedDependsAbove(d: seq<nat>, e: seq<nat>, i: nat)
    requires Digits(d) && Digits(e) && |d| == |e| && 1 <= i <= |d|
    requires forall j | i <= j < |d| :: d[j] == e[j]
    ensures Turned(d, i) == Turned(e, i)
    decreases |d| - i
  {
    if i < |d| {
      TurnedDependsAbove(d, e, i + 1);
    }
  }

  // Different digits at level i, on the same arrangement above, differ at place i.
  lemma {:induction false} SameDigits(d: seq<nat>, e: seq<nat>, i: nat)
    requires Digits(d) && Digits(e) && |d| == |e| && 1 <= i <= |d|
    requires Turned(d, 1) == Turned(e, 1)
    ensures forall j | i <= j < |d| :: d[j] == e[j]
    decreases |d| - i
  {
    hide Rotated;
    if i < |d| {
      SameDigits(d, e, i + 1);
      TurnedDependsAbove(d, e, i + 1);
      TurnedIsPerm(d, i + 1);
      PlaceSettled(d, 1, i);
      PlaceSettled(e, 1, i);
      RotationDecides(Turned(d, i + 1), i, d[i], e[i]);
    }
  }

  // The k-th arrangement.
  function Nth(n: nat, k: nat): seq<nat>
    requires n >= 1 && k < Fact(n)
  {
    DigitsOfRank(n, k);
    Turned(DigitsOf(n, k), 1)
  }

  lemma NthOfDigits(d: seq<nat>)
    requires Digits(d) && d != []
    ensures Rank(d) < Fact(|d|) && Nth(|d|, Rank(d)) == Turned(d, 1)
  {
    RankBound(d);
    DigitsOfRank(|d|, Rank(d));
    RankInjective(d, DigitsOf(|d|, Rank(d)));
  }

  /** No arrangement comes twice ... */
  lemma NthInjective(n: nat, k: nat, l: nat)
    requires n >= 1 && k < Fact(n) && l < Fact(n) && Nth(n, k) == Nth(n, l)
    ensures k == l
  {
    DigitsOfRank(n, k);
    DigitsOfRank(n, l);
    var d, e := DigitsOf(n, k), DigitsOf(n, l);
    SameDigits(d, e, 1);
    assert d == e by { assert d[0] == 0 && e[0] == 0; }
  }

  // Digits that put the elements of p in place, from place i on.
  lemma {:induction false} DigitsFor(p: seq<nat>, i: nat) returns (d: seq<nat>)
    requires IsPerm(p) && 1 <= i <= |p|
    ensures |d| == |p| && Digits(d) && Turned(d, i)[i..] == p[i..]
    decreases |p| - i
  {
    hide Rotated;
    if i == |p| {
      d := seq(|p|, _ => 0);
    } else {
      var e := DigitsFor(p, i + 1);
      var x := Turned(e, i + 1);
      TurnedIsPerm(e, i + 1);
      assert x[i + 1..] == p[i + 1..];
      var m := PlaceBelow(x, p, i);
      d := e[i := if m == i then 0 else m + 1];
      TurnedDependsAbove(d, e, i + 1);
      var y := Turned(d, i);
      assert y == Rotated(x, i, d[i]);
      RotatedAt(x, i, d[i]);
      assert y[i] == p[i] && y[i + 1..] == p[i + 1..];
      assert y[i..] == [y[i]] + y[i + 1..] && p[i..] == [p[i]] + p[i + 1..];
    }
  }

  // An arrangement that agrees with p from place i + 1 on holds p[i] below that.
  lemma PlaceBelow(x: seq<nat>, p: seq<nat>, i: nat) returns (m: nat)
    requires IsPerm(x) && IsPerm(p) && |x| == |p| && i < |p| && x[i + 1..] == p[i + 1..]
    ensures m <= i && x[m] == p[i]
  {
    assert p[i] in x;
    m :| 0 <= m < |x| && x[m] == p[i];
    assert forall j | i < j < |p| :: x[j] == x[i + 1..][j - (i + 1)] == p[i + 1..][j - (i + 1)] == p[j];
  }

  /** ... and every arrangement comes. */
  lemma NthOnto(p: seq<nat>) returns (k: nat)
    requires IsPerm(p) && p != []
    ensures k < Fact(|p|) && Nth(|p|, k) == p
  {
    var d := DigitsFor(p, 1);
    NthOfDigits(d);
    k := Rank(d);
    var x := Turned(d, 1);
    TurnedIsPerm(d, 1);
    SameButFirst(x, p);
  }

  lemma SameButFirst(x: seq<nat>, p: seq<nat>)
    requires IsPerm(x) && IsPerm(p) && |x| == |p| > 0 && x[1..] == p[1..]
    ensures x == p
  {
    assert p[0] in x;
    var m :| 0 <= m < |x| && x[m] == p[0];
    assert forall j | 0 < j < |x| :: x[j] == x[1..][j - 1] && p[j] == p[1..][j - 1];
    assert x == [x[0]] + x[1..] && p == [p[0]] + p[1..];
  }
}

module Fannkuch {
  import opened Permutations
  import opened Flips
  import opened Odometer

  function FlipsOfNth(n: nat, k: nat): nat
    requires n >= 1 && k < Fact(n)
  {
    NthIsPerm(n, k);
    FlipCount(Nth(n, k))
  }

  // The maximum and the alternating sum of the flips over the first k arrangements.
  function MaxFlips(n: nat, k: nat): (m: nat)
    requires n >= 1 && k <= Fact(n)
  {
    if k == 0 then 0 else Max(MaxFlips(n, k - 1), FlipsOfNth(n, k - 1))
  }

  function Max(a: nat, b: nat): nat { if a > b then a else b }

  function Checksum(n: nat, k: nat): int
    requires n >= 1 && k <= Fact(n)
  {
    if k == 0 then 0
    else
      var f: int := FlipsOfNth(n, k - 1);
      Checksum(n, k - 1) + if (k - 1) % 2 == 0 then f else -f
  }

  lemma NthIsPerm(n: nat, k: nat)
    requires n >= 1 && k < Fact(n)
    ensures IsPerm(Nth(n, k)) && |Nth(n, k)| == n
  {
    DigitsOfRank(n, k);
    TurnedIsPerm(DigitsOf(n, k), 1);
  }

  lemma {:induction false} MaxOfSeen(n: nat, k: nat)
    requires n >= 1 && k <= Fact(n)
    ensures forall j: nat | j < k :: FlipsOfNth(n, j) <= MaxFlips(n, k)
    ensures k > 0 ==> exists j: nat :: j < k && FlipsOfNth(n, j) == MaxFlips(n, k)
  {
    hide FlipsOfNth;
    if k > 0 {
      MaxOfSeen(n, k - 1);
      if k == 1 || MaxFlips(n, k - 1) <= FlipsOfNth(n, k - 1) {
        assert FlipsOfNth(n, k - 1) == MaxFlips(n, k);
      }
    }
  }

  /** The maximum over the counted arrangements is the maximum over all permutations. */
  lemma MaxOverAll(n: nat)
    requires n >= 1
    ensures forall p | |p| == n && IsPerm(p) :: FlipCount(p) <= MaxFlips(n, Fact(n))
    ensures exists p :: |p| == n && IsPerm(p) && FlipCount(p) == MaxFlips(n, Fact(n))
  {
    MaxOfSeen(n, Fact(n));
    forall p | |p| == n && IsPerm(p) ensures FlipCount(p) <= MaxFlips(n, Fact(n)) {
      var k := NthOnto(p);
      assert FlipsOfNth(n, k) == FlipCount(p);
    }
    var j: nat :| j < Fact(n) && FlipsOfNth(n, j) == MaxFlips(n, Fact(n));
    NthIsPerm(n, j);
    assert FlipCount(Nth(n, j)) == MaxFlips(n, Fact(n));
  }

  /** The same in flips. */
  lemma MaxInFlips(n: nat)
    requires n >= 1
    ensures forall p, k: nat | |p| == n && IsPerm(p) && FlipsTo(p, k) :: k <= MaxFlips(n, Fact(n))
    ensures exists p :: |p| == n && IsPerm(p) && FlipsTo(p, MaxFlips(n, Fact(n)))
  {
    hide FlipsTo, MaxFlips, FlipCount, IsPerm;
    MaxOverAll(n);
    forall p, k: nat | |p| == n && IsPerm(p) && FlipsTo(p, k) ensures k <= MaxFlips(n, Fact(n)) {
      FlipCountExactly(p, k);
    }
    var p :| |p| == n && IsPerm(p) && FlipCount(p) == MaxFlips(n, Fact(n));
    FlipCountExactly(p, MaxFlips(n, Fact(n)));
  }

  // The flips of the first k arrangements whose number leaves the remainder r modulo 2.
  function SumOfFlips(n: nat, k: nat, r: nat): nat
    requires n >= 1 && k <= Fact(n)
  {
    if k == 0 then 0 else SumOfFlips(n, k - 1, r) + if (k - 1) % 2 == r then FlipsOfNth(n, k - 1) else 0
  }

  /** The checksum adds the flips of the arrangements with even numbers, the first one being
      number 0, and subtracts those with odd ones. */
  lemma {:induction false} ChecksumAlternates(n: nat, k: nat)
    requires n >= 1 && k <= Fact(n)
    ensures Checksum(n, k) == SumOfFlips(n, k, 0) - SumOfFlips(n, k, 1)
  {
    hide FlipsOfNth;
    if k > 0 {
      ChecksumAlternates(n, k - 1);
    }
  }

  lemma {:induction false} RankUpdate(d: seq<nat>, i: nat, v: nat)
    requires i < |d|
    ensures Rank(d[i := v]) == Rank(d) + (v - d[i]) * Fact(i)
  {
    var n := |d| - 1;
    if i == n {
      assert d[i := v][..n] == d[..n];
      Difference(v, d[i], Fact(i));
    } else {
      RankUpdate(d[..n], i, v);
      assert d[i := v][..n] == d[..n][i := v];
    }
  }

  lemma Difference(a: int, b: int, m: int)
    ensures a * m == b * m + (a - b) * m
  {
  }

  lemma {:induction false} TurnedAbove(d: seq<nat>, i: nat, r: nat)
    requires Digits(d) && 1 <= i <= r <= |d| && forall j | i <= j < r :: d[j] == 0
    ensures Turned(d, i) == Turned(d, r)
    decreases r - i
  {
    hide Rotated;
    if i < r {
      TurnedAbove(d, i + 1, r);
      RotateFully(Turned(d, i + 1), i);
    }
  }

  lemma {:induction false} RankZero(d: seq<nat>)
    requires forall j | 0 <= j < |d| :: d[j] == 0
    ensures Rank(d) == 0
  {
    if d != [] {
      RankZero(d[..|d| - 1]);
    }
  }

  // What the loops keep: the digits d, of which those below r are zero, are told by the
  // counters from r on, and say how the arrangement was reached.
  ghost predicate Kept(n: nat, r: nat, count: seq<nat>, perm1: seq<nat>, d: seq<nat>) {
    && 1 <= r <= n == |count| == |perm1| == |d|
    && Digits(d) && (forall i | 0 <= i < r :: d[i] == 0)
    && (forall i | r <= i < n :: count[i] + d[i] == i + 1)
    && perm1 == Turned(d, 1)
  }

  lemma RankOneUp(d: seq<nat>, r: nat)
    requires r < |d|
    ensures Rank(d[r := d[r] + 1]) == Rank(d) + Fact(r)
  {
    hide Rank, Fact;
    RankUpdate(d, r, d[r] + 1);
  }

  lemma RankCarry(d: seq<nat>, r: nat)
    requires r < |d| && d[r] == r
    ensures Rank(d[r := 0]) + Fact(r + 1) == Rank(d) + Fact(r)
  {
    hide Rank, Fact;
    RankUpdate(d, r, 0);
    FactStep(r);
    Difference(0, r, Fact(r));
  }

  // One step of the odometer at level r: the digit goes up ...
  lemma StepUp(n: nat, r: nat, count: seq<nat>, perm1: seq<nat>, d: seq<nat>)
    requires Kept(n, r, count, perm1, d) && r < n && count[r] > 1
    ensures Kept(n, r, count[r := count[r] - 1], Rotated(perm1, r, 1), d[r := d[r] + 1])
    ensures Rank(d[r := d[r] + 1]) == Rank(d) + Fact(r)
  {
    hide Rotated, Rank, Fact;
    var x, e := Turned(d, r + 1), d[r := d[r] + 1];
    TurnedAbove(d, 1, r);
    RotateOnce(x, r, d[r]);
    RankOneUp(d, r);
    TurnedDependsAbove(d, e, r + 1);
    TurnedAbove(e, 1, r);
  }

  // ... or it is full, the level is back where it began, and the next one is to step.
  lemma StepOver(n: nat, r: nat, count: seq<nat>, perm1: seq<nat>, d: seq<nat>)
    requires Kept(n, r, count, perm1, d) && r < n && count[r] == 1
    ensures Kept(n, r + 1, count[r := 0], Rotated(perm1, r, 1), d[r := 0])
    ensures Rank(d[r := 0]) + Fact(r + 1) == Rank(d) + Fact(r)
  {
    hide Rotated, Rank, Fact;
    var x, e := Turned(d, r + 1), d[r := 0];
    TurnedAbove(d, 1, r);
    RotateOnce(x, r, d[r]);
    RotateFully(x, r);
    RankCarry(d, r);
    TurnedDependsAbove(d, e, r + 1);
    TurnedAbove(e, 1, r + 1);
  }

  // The rotation of perm1.
  method RotatePrefix(perm1: array<nat>, r: nat)
    requires r < perm1.Length
    modifies perm1
    ensures perm1[..] == Rotated(old(perm1[..]), r, 1)
  {
    var perm0, i := perm1[0], 0;
    ghost var was := perm1[..];
    while i < r
      invariant 0 <= i <= r
      invariant forall j | 0 <= j < i :: perm1[j] == was[j + 1]
      invariant forall j | i <= j < perm1.Length :: perm1[j] == was[j]
    {
      var j := i + 1;
      perm1[i] := perm1[j];
      i := j;
    }
    perm1[r] := perm0;
    assert forall j | 0 <= j < perm1.Length :: perm1[j] == Rotated(was, r, 1)[j];
  }

  // The counters below r are filled up again.
  method Refill(count: array<nat>, from: nat, ghost perm1: seq<nat>, ghost d: seq<nat>)
    requires Kept(count.Length, from, count[..], perm1, d)
    modifies count
    ensures Kept(count.Length, 1, count[..], perm1, d)
  {
    var r := from;
    while r != 1
      invariant Kept(count.Length, r, count[..], perm1, d)
    {
      count[r - 1] := r;
      r := r - 1;
    }
  }

  // The next arrangement, if there is one: r is the level that stepped up, or n.
  method Advance(n: nat, perm1: array<nat>, count: array<nat>, ghost d: seq<nat>) returns (r: nat, ghost d': seq<nat>)
    requires perm1 != count && perm1.Length == count.Length == n && Kept(n, 1, count[..], perm1[..], d)
    modifies perm1, count
    ensures Kept(n, r, count[..], perm1[..], d')
    ensures r < n ==> Rank(d') == Rank(d) + 1
    ensures r == n ==> Rank(d) + 1 == Fact(n)
  {
    r, d' := 1, d;
    while r != n
      invariant Kept(n, r, count[..], perm1[..], d') && Rank(d') + Fact(r) == Rank(d) + 1
      decreases n - r
    {
      ghost var c, p := count[..], perm1[..];
      RotatePrefix(perm1, r);
      count[r] := count[r] - 1;
      if count[r] > 0 {
        StepUp(n, r, c, p, d');
        d' := d'[r := d'[r] + 1];
        return;
      }
      StepOver(n, r, c, p, d');
      d' := d'[r := 0];
      r := r + 1;
    }
    RankZero(d');
  }

  /** fannkuchredux evaluates exactly n! arrangements, each permutation once, and
      returns the greatest number of flips any of them takes. */
  method Fannkuchredux(n: nat) returns (maxFlipsCount: nat, checksum: int, evaluated: nat)
    requires n >= 1
    ensures evaluated == Fact(n)
    ensures forall p, k: nat | |p| == n && IsPerm(p) && FlipsTo(p, k) :: k <= maxFlipsCount
    ensures exists p :: |p| == n && IsPerm(p) && FlipsTo(p, maxFlipsCount)
    ensures checksum == SumOfFlips(n, Fact(n), 0) - SumOfFlips(n, Fact(n), 1)
  {
    hide Kept, Rank, Turned, FlipCount, Nth, FlipsOfNth, MaxFlips, Checksum, Fact, IsPerm;
    var perm, perm1, count := new nat[n], new nat[n](i => i), new nat[n];
    maxFlipsCount, checksum := 0, 0;
    var permCount, r := 0, n;
    ghost var d: seq<nat> := seq(n, _ => 0);
    Beginning(n, count[..], perm1[..], d);
    OneMore(n, 0);
    while true
      invariant 1 <= r <= n && Kept(n, r, count[..], perm1[..], d) && Rank(d) == permCount < Fact(n)
      invariant maxFlipsCount == MaxFlips(n, permCount) && checksum == Checksum(n, permCount)
      decreases Fact(n) - permCount
    {
      Refill(count, r, perm1[..], d);
      ghost var p := perm1[..];
      KeptIsNth(n, 1, count[..], p, d);
      forall i | 0 <= i < n {
        perm[i] := perm1[i];
      }
      assert perm[..] == p;
      var flipsCount := CountFlips(perm);
      assert flipsCount == FlipsOfNth(n, permCount);
      OneMore(n, permCount);
      maxFlipsCount := Max(maxFlipsCount, flipsCount);
      var signed: int := flipsCount;
      checksum := checksum + if permCount % 2 == 0 then signed else -signed;
      assert perm1[..] == p;
      r, d := Advance(n, perm1, count, d);
      KeptIsNth(n, r, count[..], perm1[..], d);
      if r == n {
        MaxInFlips(n);
        ChecksumAlternates(n, Fact(n));
        return maxFlipsCount, checksum, permCount + 1;
      }
      permCount := permCount + 1;
    }
  }

  lemma Beginning(n: nat, count: seq<nat>, perm1: seq<nat>, d: seq<nat>)
    requires n >= 1 && |count| == n && |perm1| == n && |d| == n
    requires (forall i | 0 <= i < n :: perm1[i] == i) && forall i | 0 <= i < n :: d[i] == 0
    ensures Kept(n, n, count, perm1, d) && Rank(d) == 0
  {
    RankZero(d);
    TurnedAbove(d, 1, n);
    assert perm1 == Ident(n);
  }

  lemma KeptIsNth(n: nat, r: nat, count: seq<nat>, perm1: seq<nat>, d: seq<nat>)
    requires Kept(n, r, count, perm1, d)
    ensures 1 <= r <= n && Rank(d) < Fact(n) && IsPerm(perm1)
    ensures |perm1| == n && FlipsOfNth(n, Rank(d)) == FlipCount(perm1)
  {
    NthOfDigits(d);
    NthIsPerm(n, Rank(d));
  }

  lemma OneMore(n: nat, k: nat)
    requires n >= 1 && k < Fact(n)
    ensures MaxFlips(n, k + 1) == Max(MaxFlips(n, k), FlipsOfNth(n, k))
    ensures var f: int := FlipsOfNth(n, k); Checksum(n, k + 1) == Checksum(n, k) + if k % 2 == 0 then f else -f
    ensures MaxFlips(n, 0) == 0 && Checksum(n, 0) == 0
  {
    hide FlipsOfNth;
  }

  // The arrangement of three whose levels 1 and 2 were turned d1 and d2 times.
  function Three(d1: nat, d2: nat): seq<nat>
    requires d1 <= 1 && d2 <= 2
  {
    Rotated(Rotated([0, 1, 2], 2, d2), 1, d1)
  }

  /** The six arrangements of three, in the order the odometer brings them. */
  lemma ArrangementsOfThree()
    ensures Fact(3) == 6
    ensures Nth(3, 0) == [0, 1, 2] && Nth(3, 1) == [1, 0, 2] && Nth(3, 2) == [1, 2, 0]
    ensures Nth(3, 3) == [2, 1, 0] && Nth(3, 4) == [2, 0, 1] && Nth(3, 5) == [0, 2, 1]
  {
    hide Nth, Three, Fact;
    FromDigits(0, 0);
    FromDigits(1, 0);
    FromDigits(0, 1);
    FromDigits(1, 1);
    FromDigits(0, 2);
    FromDigits(1, 2);
    Turns();
  }

  lemma Turns()
    ensures Three(0, 0) == [0, 1, 2] && Three(1, 0) == [1, 0, 2] && Three(0, 1) == [1, 2, 0]
    ensures Three(1, 1) == [2, 1, 0] && Three(0, 2) == [2, 0, 1] && Three(1, 2) == [0, 2, 1]
  {
    var a: seq<nat>, b: seq<nat>, c: seq<nat> := [0, 1, 2], [1, 2, 0], [2, 0, 1];
    assert Rotated(a, 2, 0) == a && Rotated(a, 2, 1) == b && Rotated(a, 2, 2) == c;
    assert Rotated(a, 1, 0) == a && Rotated(b, 1, 0) == b && Rotated(c, 1, 0) == c;
    assert Rotated(a, 1, 1) == [1, 0, 2] && Rotated(b, 1, 1) == [2, 1, 0] && Rotated(c, 1, 1) == [0, 2, 1];
  }

  lemma FromDigits(d1: nat, d2: nat)
    requires d1 <= 1 && d2 <= 2
    ensures Fact(3) == 6 && Nth(3, d1 + 2 * d2) == Three(d1, d2)
  {
    var d := [0, d1, d2];
    assert Fact(3) == 3 * Fact(2) && Fact(2) == 2 * Fact(1) && Fact(1) == 1 * Fact(0);
    assert Ident(3) == [0, 1, 2];
    assert Turned(d, 3) == Ident(3) && Turned(d, 2) == Rotated([0, 1, 2], 2, d2) && Turned(d, 1) == Three(d1, d2);
    assert d[..2] == [0, d1] && [0, d1][..1] == [0];
    assert Rank([0]) == Rank([]) + 0 * Fact(0) by { assert [0][..0] == []; }
    assert Rank(d) == Rank([0, d1]) + d2 * Fact(2) && Rank([0, d1]) == Rank([0]) + d1 * Fact(1);
    NthOfDigits(d);
  }
}
