/** Deflate stores the bits of a Huffman code backwards: the first bit of a code is the lowest bit of
    its table index. */
module ReversedBits {
  import opened Bits

  /** The n low bits of v in opposite order. */
  ghost function Rev(v: nat, n: nat): (r: nat) {
    if n == 0 then 0 else v % 2 * Pow2(n - 1) + Rev(v / 2, n - 1)
  }

  lemma {:induction false} RevBound(v: nat, n: nat)
    ensures Rev(v, n) < Pow2(n)
    decreases n
  {
    if n > 0 {
      RevBound(v / 2, n - 1);
      if v % 2 == 0 { assert v % 2 * Pow2(n - 1) == 0; } else { assert v % 2 * Pow2(n - 1) == Pow2(n - 1); }
    }
  }

  /** The top bit is the lowest bit of v; the others are its other bits reversed. */
  lemma RevTop(v: nat, n: nat)
    requires n > 0
    ensures Rev(v, n) / Pow2(n - 1) == v % 2 && Rev(v, n) % Pow2(n - 1) == Rev(v / 2, n - 1)
  {
    RevBound(v / 2, n - 1);
    QuotientIs(Rev(v, n), Pow2(n - 1), v % 2, Rev(v / 2, n - 1));
  }

  /** Zeros at the end of v are zeros above the rest. */
  lemma {:induction false} RevZeros(v: nat, n: nat, k: nat)
    ensures Rev(v * Pow2(k), n + k) == Rev(v, n)
    decreases k
  {
    if k > 0 {
      Twice(v, Pow2(k - 1));
      assert v * Pow2(k) == 2 * (v * Pow2(k - 1));
      RevZeros(v, n, k - 1);
      RevEven(v * Pow2(k - 1), n + k);
    } else {
      assert v * Pow2(0) == v;
    }
  }

  lemma Twice(v: nat, p: nat)
    ensures v * (2 * p) == 2 * (v * p)
  {
  }

  lemma RevEven(w: nat, n: nat)
    requires n > 0
    ensures Rev(2 * w, n) == Rev(w, n - 1)
  {
    assert (2 * w) % 2 == 0 && 2 * w / 2 == w;
    assert 0 * Pow2(n - 1) == 0;
  }

  lemma LowOfLow(x: nat, p: nat, q: nat)
    requires p >= 1 && q >= 1
    ensures p * q >= 1 && x % (p * q) % p == x % p && x % (p * q) / p == x / p % q
  {
    var a, r := x / p, x % p;
    var b, s := a / q, a % q;
    assert x == a * p + r && a == b * q + s;
    Spread(b, q, s, p, r);
    Smaller(s, q, p, r);
    QuotientIs(x, p * q, b, s * p + r);
    QuotientIs(s * p + r, p, s, r);
  }

  lemma Spread(b: int, q: int, s: int, p: int, r: int)
    ensures (b * q + s) * p + r == b * (p * q) + (s * p + r)
  {
  }

  lemma Smaller(s: int, q: int, p: int, r: int)
    requires 0 <= s < q && 0 <= r < p
    ensures 0 <= s * p + r < p * q
  {
    MulSplit(q, s, p);
    MulAtLeast(q - s, p);
    MulNonNegative(s, p);
  }

  /** x modulo 2^n, then modulo 2^j; and its quotient. */
  lemma LowBits(x: nat, j: nat, n: nat)
    requires j <= n
    ensures x % Pow2(n) % Pow2(j) == x % Pow2(j) && x % Pow2(n) / Pow2(j) == x / Pow2(j) % Pow2(n - j)
  {
    Pow2Sum(j, n - j);
    LowOfLow(x, Pow2(j), Pow2(n - j));
  }

  /** The low bits of a reversed number are its high bits reversed. */
  lemma {:induction false} RevPrefix(v: nat, n: nat, j: nat)
    requires j <= n
    ensures Rev(v, n) % Pow2(j) == Rev(v / Pow2(n - j), j)
    decreases n
  {
    RevBound(v, n);
    if j == n {
      assert v / Pow2(0) == v;
      QuotientIs(Rev(v, n), Pow2(n), 0, Rev(v, n));
    } else {
      RevPrefix(v / 2, n - 1, j);
      RevTop(v, n);
      LowBits(Rev(v, n), j, n - 1);
      HalfThenShift(v, Pow2(n - 1 - j));
    }
  }

  lemma HalfThenShift(v: nat, p: nat)
    requires p >= 1
    ensures v / 2 / p == v / (2 * p)
  {
    var a, r := v / 2, v % 2;
    var b, s := a / p, a % p;
    assert v == 2 * a + r && a == b * p + s;
    Scale(b, p, s, r);
    QuotientIs(v, 2 * p, b, 2 * s + r);
  }

  lemma {:induction false} RevInjective(u: nat, v: nat, n: nat)
    requires u < Pow2(n) && v < Pow2(n) && Rev(u, n) == Rev(v, n)
    ensures u == v
    decreases n
  {
    if n > 0 {
      RevTop(u, n);
      RevTop(v, n);
      RevInjective(u / 2, v / 2, n - 1);
    }
  }

  /** The lowest bit is the top bit of v. */
  lemma {:induction false} RevLow(v: nat, n: nat)
    requires n > 0 && v < Pow2(n)
    ensures Rev(v, n) == 2 * Rev(v % Pow2(n - 1), n - 1) + v / Pow2(n - 1)
    decreases n
  {
    if n == 1 {
      assert Pow2(0) == 1 && Rev(v / 2, 0) == 0 && Rev(v % 1, 0) == 0 && v / 1 == v;
      assert v % 2 * 1 == v;
    } else {
      var p := Pow2(n - 2);
      assert Pow2(n - 1) == 2 * p;
      RevLow(v / 2, n - 1);
      HalveMod(v, p);
      HalfThenShift(v, p);
      var w := v % (2 * p);
      assert w % 2 == v % 2 && w / 2 == v / 2 % p;
      assert Rev(w, n - 1) == w % 2 * p + Rev(w / 2, n - 2);
      Twice(v % 2, p);
    }
  }

  lemma {:induction false} RevRev(v: nat, n: nat)
    requires v < Pow2(n)
    ensures Rev(Rev(v, n), n) == v
    decreases n
  {
    if n > 0 {
      var p := Pow2(n - 1);
      DivMod(v, p);
      RevRev(v % p, n - 1);
      RevLow(v, n);
      var w := Rev(v, n);
      assert v / p < 2 by { QuotientLess(v, 2, p); }
      assert w % 2 == v / p && w / 2 == Rev(v % p, n - 1);
    }
  }

  /* ---------- the backward increment ---------- */

  /** Reversed, the successor. */
  ghost function RevNext(c: nat, n: nat): (r: nat)
    requires c < Pow2(n)
  {
    if c + 1 < Pow2(n) then Rev(c + 1, n) else 0
  }

  lemma {:induction false} RevAll(n: nat)
    ensures Rev(Pow2(n), n) == 0
    decreases n
  {
    if n > 0 { RevAll(n - 1); }
  }

  lemma RevNextIs(c: nat, n: nat)
    requires c < Pow2(n)
    ensures RevNext(c, n) == Rev(c + 1, n)
  {
    if c + 1 == Pow2(n) { RevAll(n); }
  }

  /** The ones from the top bit down are cleared and the first zero is set. */
  method Increment(huff0: nat, len: nat, ghost c: nat) returns (huff: nat)
    requires 1 <= len && c < Pow2(len) && huff0 == Rev(c, len)
    ensures huff == RevNext(c, len)
  {
    hide *;
    huff := huff0;
    var incr := Pow2(len - 1);
    ghost var j: nat := len;
    ghost var d: nat := c;
    DivMod(huff0, incr);
    IncrementStart(c, len);
    while incr != 0 && huff / incr % 2 != 0
      invariant incr == if j == 0 then 0 else Pow2(j - 1)
      invariant j <= len && d < Pow2(j) && huff == huff0 && HighOnes(huff, c, len, d, j)
      decreases incr
    {
      IncrementStep(huff, c, len, d, j);
      incr := incr / 2;
      j, d := j - 1, d / 2;
    }
    IncrementEnd(huff, c, len, d, j);
    if incr != 0 {
      huff := huff % incr;
      huff := huff + incr;
    } else {
      huff := 0;
    }
  }

  /** The bits above the j lowest have been found to be ones: the successor is found in the low j. */
  ghost predicate HighOnes(huff: nat, c: nat, len: nat, d: nat, j: nat) {
    j <= len && huff % Pow2(j) == Rev(d, j) && Rev(c + 1, len) == Rev(d + 1, j)
  }

  lemma IncrementStart(c: nat, len: nat)
    requires c < Pow2(len)
    ensures HighOnes(Rev(c, len), c, len, c, len)
  {
    RevBound(c, len);
    QuotientIs(Rev(c, len), Pow2(len), 0, Rev(c, len));
  }

  lemma TopBit(huff: nat, d: nat, j: nat)
    requires j > 0 && huff % Pow2(j) == Rev(d, j)
    ensures huff / Pow2(j - 1) % 2 == d % 2 && huff % Pow2(j - 1) == Rev(d / 2, j - 1)
  {
    LowBits(huff, j - 1, j);
    RevTop(d, j);
    assert Pow2(1) == 2;
  }

  lemma IncrementStep(huff: nat, c: nat, len: nat, d: nat, j: nat)
    requires HighOnes(huff, c, len, d, j) && j > 0 && d < Pow2(j) && huff / Pow2(j - 1) % 2 != 0
    ensures HighOnes(huff, c, len, d / 2, j - 1) && d / 2 < Pow2(j - 1)
    ensures Pow2(j - 1) / 2 == if j - 1 == 0 then 0 else Pow2(j - 2)
  {
    TopBit(huff, d, j);
    assert (d + 1) % 2 == 0 && (d + 1) / 2 == d / 2 + 1;
    RevEven(d / 2 + 1, j);
    assert 2 * (d / 2 + 1) == d + 1;
    assert Pow2(0) == 1;
  }

  lemma IncrementEnd(huff: nat, c: nat, len: nat, d: nat, j: nat)
    requires HighOnes(huff, c, len, d, j) && d < Pow2(j) && c < Pow2(len) && (j > 0 ==> huff / Pow2(j - 1) % 2 == 0)
    ensures j > 0 ==> huff % Pow2(j - 1) + Pow2(j - 1) == RevNext(c, len) && Pow2(j - 1) > 0
    ensures j == 0 ==> RevNext(c, len) == 0
  {
    RevNextIs(c, len);
    if j > 0 {
      TopBit(huff, d, j);
      assert (d + 1) % 2 == 1 && (d + 1) / 2 == d / 2;
      assert 1 * Pow2(j - 1) == Pow2(j - 1);
    }
  }
}
