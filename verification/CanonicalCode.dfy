/** Canonical prefix codes from code lengths (length 0: symbol not used), as both libraries number
    them: section 3.2.2 of RFC 1951, and huffman.c. */
module CanonicalCode {
  import opened Counting
  import opened Bits

  /** The first code of length n: after all shorter ones, with zero bits appended. */
  ghost function First(lens: seq<int>, n: nat): (v: nat) {
    if n <= 1 then 0 else 2 * (First(lens, n - 1) + Count(lens, |lens|, n - 1))
  }

  /** One past the last code of length n. */
  ghost function End(lens: seq<int>, n: nat): (v: nat) {
    First(lens, n) + (if n == 0 then 0 else Count(lens, |lens|, n))
  }

  /** The code of symbol s: consecutive numbers in symbol order within a length. */
  ghost function Code(lens: seq<int>, s: nat): (v: nat)
    requires s < |lens| && lens[s] > 0
  {
    First(lens, lens[s]) + Count(lens, s, lens[s])
  }

  /** The code as it is sent. */
  ghost function CodeBits(lens: seq<int>, s: nat): (b: seq<int>)
    requires s < |lens| && lens[s] > 0
    ensures |b| == lens[s] && IsBits(b)
  {
    BitsOf(Code(lens, s), lens[s])
  }

  /** Lengths run from 0 to m. */
  ghost predicate Lengths(lens: seq<int>, m: nat) {
    forall i :: 0 <= i < |lens| ==> 0 <= lens[i] <= m
  }

  /** The share of the code space, in units of 2^-m, taken by the codes of the first k symbols
      that are no longer than n. */
  ghost function Space(lens: seq<int>, k: nat, n: nat, m: nat): (w: nat)
    requires k <= |lens| && n <= m
  {
    if k == 0 then 0
    else Space(lens, k - 1, n, m) + (if 0 < lens[k - 1] <= n then Pow2(m - lens[k - 1]) else 0)
  }

  /** Kraft's inequality. */
  ghost predicate Kraft(lens: seq<int>, m: nat) {
    Lengths(lens, m) && Space(lens, |lens|, m, m) <= Pow2(m)
  }

  lemma {:induction false} SpaceStep(lens: seq<int>, k: nat, n: nat, m: nat)
    requires k <= |lens| && 1 <= n <= m
    ensures Space(lens, k, n, m) == Space(lens, k, n - 1, m) + Count(lens, k, n) * Pow2(m - n)
    decreases k
  {
    if k > 0 {
      SpaceStep(lens, k - 1, n, m);
      if lens[k - 1] == n {
        Distribute(Count(lens, k - 1, n), Pow2(m - n));
      }
    }
  }

  lemma Distribute(a: nat, p: nat)
    ensures (a + 1) * p == a * p + p
  {
  }

  /** Kraft's equality: the codes leave no gap. */
  ghost predicate Complete(lens: seq<int>, m: nat) {
    Lengths(lens, m) && Space(lens, |lens|, m, m) == Pow2(m)
  }

  lemma {:induction false} SpaceFiner(lens: seq<int>, k: nat, m: nat)
    requires k <= |lens| && Lengths(lens, m)
    ensures Space(lens, k, m + 1, m + 1) == 2 * Space(lens, k, m, m)
    decreases k
  {
    if k > 0 {
      SpaceFiner(lens, k - 1, m);
      if lens[k - 1] > 0 { assert Pow2(m + 1 - lens[k - 1]) == 2 * Pow2(m - lens[k - 1]); }
    }
  }

  /** The unit does not matter. */
  lemma {:induction false} CompleteUnit(lens: seq<int>, m: nat, m': nat)
    requires Lengths(lens, m) && m <= m'
    ensures Complete(lens, m) <==> Complete(lens, m')
    decreases m'
  {
    if m < m' {
      CompleteUnit(lens, m, m' - 1);
      SpaceFiner(lens, |lens|, m' - 1);
    }
  }

  lemma {:induction false} SpaceMonotone(lens: seq<int>, k: nat, n: nat, n': nat, m: nat)
    requires k <= |lens| && n <= n' <= m
    ensures Space(lens, k, n, m) <= Space(lens, k, n', m)
    decreases k
  {
    if k > 0 { SpaceMonotone(lens, k - 1, n, n', m); }
  }

  lemma {:induction false} SpaceZero(lens: seq<int>, k: nat, m: nat)
    requires k <= |lens|
    ensures Space(lens, k, 0, m) == 0
    decreases k
  {
    if k > 0 { SpaceZero(lens, k - 1, m); }
  }

  /** The codes of length n end exactly where the space taken so far ends. */
  lemma {:induction false} EndIsSpace(lens: seq<int>, n: nat, m: nat)
    requires n <= m
    ensures End(lens, n) * Pow2(m - n) == Space(lens, |lens|, n, m)
    decreases n
  {
    if n == 0 {
      SpaceZero(lens, |lens|, m);
    } else {
      EndIsSpace(lens, n - 1, m);
      SpaceStep(lens, |lens|, n, m);
      var e, c, p := End(lens, n - 1), Count(lens, |lens|, n), Pow2(m - n);
      assert Pow2(m - (n - 1)) == 2 * p;
      assert First(lens, n) == 2 * e;
      EndStep(e, c, p);
    }
  }

  lemma EndStep(e: nat, c: nat, p: nat)
    ensures (2 * e + c) * p == e * (2 * p) + c * p
  {
  }

  /** Under Kraft's inequality every code fits its length. */
  lemma EndFits(lens: seq<int>, n: nat, m: nat)
    requires Kraft(lens, m) && n <= m
    ensures End(lens, n) <= Pow2(n)
  {
    EndIsSpace(lens, n, m);
    SpaceMonotone(lens, |lens|, n, m, m);
    Pow2Sum(n, m - n);
    CancelFactor(End(lens, n), Pow2(n), Pow2(m - n));
  }

  lemma CancelFactor(a: nat, b: nat, p: nat)
    requires a * p <= b * p && p >= 1
    ensures a <= b
  {
    if a > b {
      MulSplit(a, b, p);
      MulAtLeast(a - b, p);
    }
  }

  lemma CodeInRange(lens: seq<int>, s: nat)
    requires s < |lens| && lens[s] > 0
    ensures First(lens, lens[s]) <= Code(lens, s) < End(lens, lens[s])
  {
    CountPositive(lens, s);
  }

  lemma CodeFits(lens: seq<int>, s: nat, m: nat)
    requires s < |lens| && lens[s] > 0 && Kraft(lens, m)
    ensures Code(lens, s) < Pow2(lens[s]) && Value(CodeBits(lens, s)) == Code(lens, s)
  {
    CodeInRange(lens, s);
    EndFits(lens, lens[s], m);
    ValueOfBits(Code(lens, s), lens[s]);
  }

  /** Codes of length n' start after everything under the codes of a shorter length n. */
  lemma {:induction false} FirstAfter(lens: seq<int>, n: nat, n': nat)
    requires 1 <= n < n'
    ensures First(lens, n') >= End(lens, n) * Pow2(n' - n)
    decreases n'
  {
    if n' == n + 1 {
      assert Pow2(1) == 2;
    } else {
      FirstAfter(lens, n, n' - 1);
      Regroup(End(lens, n), Pow2(n' - 1 - n));
    }
  }

  lemma Regroup(a: nat, p: nat)
    ensures 2 * (a * p) == a * (2 * p)
  {
  }

  /** A proper prefix of a code is a number past every code of the prefix's length: so no code is
      a prefix of another, and a reader extending bit by bit stops at the right length. */
  lemma PrefixPast(lens: seq<int>, s: nat, n: nat, m: nat)
    requires s < |lens| && Kraft(lens, m) && 1 <= n < lens[s]
    ensures Value(CodeBits(lens, s)[..n]) >= End(lens, n)
  {
    CodeFits(lens, s, m);
    CodeInRange(lens, s);
    ValuePrefix(CodeBits(lens, s), n);
    FirstAfter(lens, n, lens[s]);
    QuotientAtLeast(Code(lens, s), End(lens, n), Pow2(lens[s] - n));
  }

  lemma QuotientAtLeast(v: nat, q: nat, d: nat)
    requires d >= 1 && v >= q * d
    ensures v / d >= q
  {
    var r := v % d;
    assert v == (v / d) * d + r;
    if v / d < q {
      MulSplit(q, v / d, d);
      MulAtLeast(q - v / d, d);
    }
  }
}
