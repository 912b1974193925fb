/** Cyclic rotations of a block and the order in which both block sorters must leave them.
    A rotation is named by the index of its first byte. */
module Rotations {

  /** The index after i, wrapping at the end of an n-byte block. */
  function Next(n: nat, i: nat): (r: nat)
    requires i < n
    ensures r < n
  {
    if i + 1 == n then 0 else i + 1
  }

  /** The index before i. */
  function Prev(n: nat, i: nat): (r: nat)
    requires i < n
    ensures r < n && Next(n, r) == i
  {
    if i == 0 then n - 1 else i - 1
  }

  /** The index k places after i; k may be a whole turn but no more. */
  function Advance(n: nat, i: nat, k: nat): (r: nat)
    requires i < n && k <= n
    ensures r < n
  {
    if i + k < n then i + k else i + k - n
  }

  /** Three-way comparison of the first k bytes read cyclically from i and from j. */
  function Cmp(b: seq<int>, i: nat, j: nat, k: nat): (c: int)
    requires i < |b| && j < |b|
    ensures -1 <= c <= 1
    decreases k
  {
    if k == 0 then 0
    else if b[i] < b[j] then -1
    else if b[i] > b[j] then 1
    else Cmp(b, Next(|b|, i), Next(|b|, j), k - 1)
  }

  /** Comparison of whole rotations. */
  function CmpRotations(b: seq<int>, i: nat, j: nat): int
    requires i < |b| && j < |b|
  {
    Cmp(b, i, j, |b|)
  }

  lemma {:induction false} CmpSplit(b: seq<int>, i: nat, j: nat, h: nat, k: nat)
    requires i < |b| && j < |b| && h <= |b|
    ensures Cmp(b, i, j, h + k) ==
            if Cmp(b, i, j, h) != 0 then Cmp(b, i, j, h)
            else Cmp(b, Advance(|b|, i, h), Advance(|b|, j, h), k)
    decreases h
  {
    if h != 0 && b[i] == b[j] {
      CmpSplit(b, Next(|b|, i), Next(|b|, j), h - 1, k);
    }
  }

  lemma {:induction false} CmpAntisymmetric(b: seq<int>, i: nat, j: nat, k: nat)
    requires i < |b| && j < |b|
    ensures Cmp(b, i, j, k) == -Cmp(b, j, i, k)
    decreases k
  {
    if k != 0 && b[i] == b[j] {
      CmpAntisymmetric(b, Next(|b|, i), Next(|b|, j), k - 1);
    }
  }

  lemma {:induction false} CmpTransitive(b: seq<int>, i: nat, j: nat, l: nat, k: nat)
    requires i < |b| && j < |b| && l < |b|
    requires Cmp(b, i, j, k) <= 0 && Cmp(b, j, l, k) <= 0
    ensures Cmp(b, i, l, k) <= 0
    ensures Cmp(b, i, j, k) < 0 || Cmp(b, j, l, k) < 0 ==> Cmp(b, i, l, k) < 0
    decreases k
  {
    if k != 0 && b[i] == b[j] && b[j] == b[l] {
      CmpTransitive(b, Next(|b|, i), Next(|b|, j), Next(|b|, l), k - 1);
    }
  }

  /** A decision on a prefix is the decision on anything longer; a tie or an order on the
      longer string holds of the prefix. */
  lemma {:induction false} CmpPrefix(b: seq<int>, i: nat, j: nat, h: nat, k: nat)
    requires i < |b| && j < |b| && h <= k
    ensures Cmp(b, i, j, h) != 0 ==> Cmp(b, i, j, k) == Cmp(b, i, j, h)
    ensures Cmp(b, i, j, k) <= 0 ==> Cmp(b, i, j, h) <= 0
    ensures Cmp(b, i, j, k) >= 0 ==> Cmp(b, i, j, h) >= 0
    decreases h
  {
    if h != 0 && b[i] == b[j] {
      CmpPrefix(b, Next(|b|, i), Next(|b|, j), h - 1, k - 1);
    }
  }

  lemma {:induction false} CmpSelf(b: seq<int>, i: nat, k: nat)
    requires i < |b|
    ensures Cmp(b, i, i, k) == 0
    decreases k
  {
    if k != 0 {
      CmpSelf(b, Next(|b|, i), k - 1);
    }
  }

  /** Rotations equal over a whole turn are equal at every depth. */
  lemma {:induction false} EqualRotationsStayEqual(b: seq<int>, i: nat, j: nat, k: nat)
    requires i < |b| && j < |b| && CmpRotations(b, i, j) == 0
    ensures Cmp(b, i, j, k) == 0
    decreases k
  {
    if k <= |b| {
      CmpPrefix(b, i, j, k, |b|);
    } else {
      CmpSplit(b, i, j, |b|, k - |b|);
      EqualRotationsStayEqual(b, i, j, k - |b|);
    }
  }

  lemma EqualTransitive(b: seq<int>, i: nat, j: nat, l: nat)
    requires i < |b| && j < |b| && l < |b|
    requires CmpRotations(b, i, j) == 0 && CmpRotations(b, j, l) == 0
    ensures CmpRotations(b, i, l) == 0
  {
    hide Cmp;
    var k := |b|;
    CmpTransitive(b, i, j, l, k);
    CmpAntisymmetric(b, i, j, k);
    CmpAntisymmetric(b, j, l, k);
    CmpTransitive(b, l, j, i, k);
    CmpAntisymmetric(b, i, l, k);
  }

  /** Equal rotations are still equal one place on. */
  lemma EqualNext(b: seq<int>, i: nat, j: nat)
    requires i < |b| && j < |b| && CmpRotations(b, i, j) == 0
    ensures CmpRotations(b, Next(|b|, i), Next(|b|, j)) == 0
  {
    EqualRotationsStayEqual(b, i, j, |b| + 1);
  }

  /** The rotation itself, as a string. */
  function Rotation(b: seq<int>, i: nat): (r: seq<int>)
    requires i < |b|
    ensures |r| == |b|
    ensures forall k :: 0 <= k < |b| ==> r[k] == b[Advance(|b|, i, k)]
  {
    b[i..] + b[..i]
  }

  /** Lexicographic order on strings of equal length. */
  predicate LexLeq(s: seq<int>, t: seq<int>)
    requires |s| == |t|
    decreases |s|
  {
    s == [] || s[0] < t[0] || (s[0] == t[0] && LexLeq(s[1..], t[1..]))
  }

  lemma {:induction false} CmpIsLexFrom(b: seq<int>, i: nat, j: nat, k: nat)
    requires i < |b| && j < |b| && k <= |b|
    ensures LexLeq(Rotation(b, i)[k..], Rotation(b, j)[k..]) <==>
            Cmp(b, Advance(|b|, i, k), Advance(|b|, j, k), |b| - k) <= 0
    decreases |b| - k
  {
    if k < |b| {
      var s, t := Rotation(b, i)[k..], Rotation(b, j)[k..];
      assert s[1..] == Rotation(b, i)[k + 1..] && t[1..] == Rotation(b, j)[k + 1..];
      CmpIsLexFrom(b, i, j, k + 1);
    }
  }

  /** The comparison used throughout is lexicographic order on the rotation strings. */
  lemma CmpIsLexicographic(b: seq<int>, i: nat, j: nat)
    requires i < |b| && j < |b|
    ensures CmpRotations(b, i, j) <= 0 <==> LexLeq(Rotation(b, i), Rotation(b, j))
  {
    CmpIsLexFrom(b, i, j, 0);
    assert Rotation(b, i)[0..] == Rotation(b, i) && Rotation(b, j)[0..] == Rotation(b, j);
  }

  /** p lists every index below n exactly once. */
  ghost predicate IsPermutation(p: seq<int>, n: nat) {
    |p| == n &&
    (forall k :: 0 <= k < n ==> 0 <= p[k] < n) &&
    (forall j, k :: 0 <= j < k < n ==> p[j] != p[k])
  }

  /** p is a rotation order of b: every rotation once, never a greater before a smaller. */
  ghost predicate SortedRotations(b: seq<int>, p: seq<int>) {
    IsPermutation(p, |b|) &&
    forall j, k :: 0 <= j < k < |b| ==> CmpRotations(b, p[j], p[k]) <= 0
  }
}
