/** Numbers as big-endian bit strings. */
module Bits {

  ghost predicate IsBits(s: seq<int>) {
    forall i :: 0 <= i < |s| ==> s[i] == 0 || s[i] == 1
  }

  function Pow2(k: nat): (p: nat)
    ensures p >= 1
  {
    if k == 0 then 1 else 2 * Pow2(k - 1)
  }

  lemma {:induction false} Pow2Sum(j: nat, k: nat)
    ensures Pow2(j + k) == Pow2(j) * Pow2(k)
    decreases j
  {
    if j > 0 {
      Pow2Sum(j - 1, k);
    }
  }

  lemma {:induction false} Pow2Monotone(j: nat, k: nat)
    requires j <= k
    ensures Pow2(j) <= Pow2(k)
    decreases k
  {
    if j < k {
      Pow2Monotone(j, k - 1);
    }
  }

  lemma Pow2Constants()
    ensures Pow2(8) == 0x100 && Pow2(16) == 0x1_0000 && Pow2(24) == 0x100_0000 && Pow2(32) == 0x1_0000_0000
  {
    assert Pow2(8) == 0x100;
    Pow2Sum(8, 8);
    Pow2Sum(16, 8);
    Pow2Sum(24, 8);
  }

  /** The number a bit string stands for. */
  ghost function Value(s: seq<int>): (v: nat)
    requires IsBits(s)
    ensures v < Pow2(|s|)
  {
    if s == [] then 0 else 2 * Value(s[..|s| - 1]) + s[|s| - 1]
  }

  /** The low n bits of v. */
  ghost function BitsOf(v: nat, n: nat): (s: seq<int>)
    ensures |s| == n && IsBits(s)
  {
    if n == 0 then [] else BitsOf(v / 2, n - 1) + [v % 2]
  }

  lemma {:induction false} ValueOfBits(v: nat, n: nat)
    requires v < Pow2(n)
    ensures Value(BitsOf(v, n)) == v
    decreases n
  {
    if n > 0 {
      ValueOfBits(v / 2, n - 1);
      assert BitsOf(v, n)[..n - 1] == BitsOf(v / 2, n - 1);
    }
  }

  lemma {:induction false} BitsOfValue(s: seq<int>)
    requires IsBits(s)
    ensures BitsOf(Value(s), |s|) == s
    decreases |s|
  {
    if s != [] {
      var t := s[..|s| - 1];
      BitsOfValue(t);
      assert Value(s) / 2 == Value(t) && Value(s) % 2 == s[|s| - 1];
      assert t + [s[|s| - 1]] == s;
    }
  }

  lemma ValueAppend(s: seq<int>, b: int)
    requires IsBits(s) && (b == 0 || b == 1)
    ensures IsBits(s + [b]) && Value(s + [b]) == 2 * Value(s) + b
  {
    assert (s + [b])[..|s|] == s;
  }

  /** The first j bits of an n-bit number are its quotient. */
  lemma {:induction false} ValuePrefix(s: seq<int>, j: nat)
    requires IsBits(s) && j <= |s|
    ensures Value(s[..j]) == Value(s) / Pow2(|s| - j)
    decreases |s| - j
  {
    if j == |s| {
      assert s[..j] == s;
    } else {
      ValuePrefix(s, j + 1);
      assert s[..j + 1][..j] == s[..j];
      var q := Value(s) / Pow2(|s| - j - 1);
      assert q == 2 * Value(s[..j]) + s[j];
      DivTwice(Value(s), Pow2(|s| - j - 1));
    }
  }

  lemma DivTwice(v: nat, p: nat)
    requires p >= 1
    ensures v / p / 2 == v / (2 * p)
  {
    var q, r := v / p, v % p;
    assert v == q * p + r;
    var q2, r2 := q / 2, q % 2;
    assert v == q2 * (2 * p) + (r2 * p + r);
    assert 0 <= r2 * p + r < 2 * p by {
      if r2 == 1 { assert r2 * p == p; } else { assert r2 * p == 0; }
    }
    QuotientIs(v, 2 * p, q2, r2 * p + r);
  }

  lemma MulAtLeast(a: int, d: int)
    requires a >= 1 && d >= 0
    ensures a * d >= d
  {
  }

  lemma MulNonNegative(a: int, d: int)
    requires a >= 0 && d >= 0
    ensures a * d >= 0
  {
  }

  lemma MulSplit(a: int, c: int, d: int)
    ensures (a - c) * d == a * d - c * d
  {
  }

  lemma QuotientIs(v: int, d: int, q: int, r: int)
    requires d > 0 && v == q * d + r && 0 <= r < d
    ensures v / d == q && v % d == r
  {
    var q', r' := v / d, v % d;
    assert v == q' * d + r' && 0 <= r' < d;
    if q > q' {
      MulSplit(q, q', d);
      MulAtLeast(q - q', d);
    } else if q < q' {
      MulSplit(q', q, d);
      MulAtLeast(q' - q, d);
    }
  }

  lemma QuotientLess(v: nat, q: nat, p: nat)
    requires p >= 1 && v < q * p
    ensures v / p < q
  {
    var x, r := v / p, v % p;
    assert v == x * p + r;
    if x >= q {
      MulSplit(x, q, p);
      MulNonNegative(x - q, p);
    }
  }

  /* ---------- low bits ---------- */

  lemma HalveMod(y: nat, p: nat)
    requires p >= 1
    ensures (y % (2 * p)) % 2 == y % 2 && (y % (2 * p)) / 2 == (y / 2) % p
  {
    var q, r := y / 2, y % 2;
    var a, c := q / p, q % p;
    assert y == 2 * q + r && q == a * p + c;
    Scale(a, p, c, r);
    QuotientIs(y, 2 * p, a, 2 * c + r);
  }

  lemma Scale(a: int, p: int, c: int, r: int)
    ensures 2 * (a * p + c) + r == a * (2 * p) + (2 * c + r)
  {
  }

  lemma {:induction false} BitsOfMod(y: nat, j: nat, m: nat)
    requires j <= m
    ensures BitsOf(y % Pow2(m), j) == BitsOf(y, j)
    decreases j
  {
    if j > 0 {
      HalveMod(y, Pow2(m - 1));
      BitsOfMod(y / 2, j - 1, m - 1);
    }
  }

  lemma ValueOfLow(y: nat, n: nat)
    ensures Value(BitsOf(y, n)) == y % Pow2(n)
  {
    BitsOfMod(y, n, n);
    ValueOfBits(y % Pow2(n), n);
  }

  lemma {:induction false} BitsAppend(x: nat, k: nat, c: nat, i: nat)
    requires c < Pow2(i)
    ensures BitsOf(x * Pow2(i) + c, k + i) == BitsOf(x, k) + BitsOf(c, i)
    decreases i
  {
    if i == 0 {
      assert BitsOf(x, k) + [] == BitsOf(x, k);
    } else {
      var p := Pow2(i - 1);
      Scale(x, p, c / 2, c % 2);
      assert x * Pow2(i) + c == 2 * (x * p + c / 2) + c % 2;
      BitsAppend(x, k, c / 2, i - 1);
      assert BitsOf(x, k) + (BitsOf(c / 2, i - 1) + [c % 2]) == BitsOf(x, k) + BitsOf(c / 2, i - 1) + [c % 2];
    }
  }

  /** The first n of the low k bits, and the rest. */
  lemma BitsSplit(x: nat, k: nat, n: nat)
    requires n <= k
    ensures BitsOf(x, k)[..n] == BitsOf(x / Pow2(k - n), n)
    ensures BitsOf(x, k)[n..] == BitsOf(x, k - n)
  {
    hide BitsOf;
    hide Pow2;
    var p := Pow2(k - n);
    DivMod(x, p);
    BitsAppend(x / p, n, x % p, k - n);
    BitsOfMod(x, k - n, k - n);
    assert n + (k - n) == k;
  }

  lemma DivMod(x: nat, p: nat)
    requires p >= 1
    ensures x == (x / p) * p + x % p && 0 <= x % p < p && x / p >= 0
  {
  }

  /** The bits of a byte string. */
  ghost function BytesBits(s: seq<int>): (b: seq<int>)
    requires forall i :: 0 <= i < |s| ==> 0 <= s[i] < 256
    ensures |b| == 8 * |s| && IsBits(b)
  {
    if s == [] then [] else BytesBits(s[..|s| - 1]) + BitsOf(s[|s| - 1], 8)
  }

  lemma {:induction false} BytesConcat(s: seq<int>, t: seq<int>)
    requires (forall i :: 0 <= i < |s| ==> 0 <= s[i] < 256) && forall i :: 0 <= i < |t| ==> 0 <= t[i] < 256
    ensures BytesBits(s + t) == BytesBits(s) + BytesBits(t)
    decreases |t|
  {
    if t == [] {
      assert s + t == s && BytesBits(s) + [] == BytesBits(s);
    } else {
      var u, c := t[..|t| - 1], BitsOf(t[|t| - 1], 8);
      hide BitsOf;
      assert (s + t)[..|s + t| - 1] == s + u;
      BytesConcat(s, u);
      assert BytesBits(s) + (BytesBits(u) + c) == BytesBits(s) + BytesBits(u) + c;
    }
  }

  lemma BytesFirst(s: seq<int>)
    requires |s| > 0 && forall i :: 0 <= i < |s| ==> 0 <= s[i] < 256
    ensures BytesBits(s) == BitsOf(s[0], 8) + BytesBits(s[1..])
  {
    assert s == [s[0]] + s[1..];
    BytesConcat([s[0]], s[1..]);
    assert [s[0]][..0] == [];
    assert BytesBits([s[0]]) == BytesBits([]) + BitsOf(s[0], 8) == BitsOf(s[0], 8);
  }
}
