/** adler32.c: the Adler-32 checksum of RFC 1950, section 2.2, with the reductions put off as long as
    32 bits allow, and the checksum of two pieces of data from the checksums of each. */
module Adler32 {
  import opened ByteSeq
  import Bits

  const BASE: nat := 65521
  const NMAX: nat := 5552

  ghost predicate Prime(n: nat) {
    n >= 2 && forall d :: 2 <= d < n ==> n % d != 0
  }

  /** No number from 2 to d divides n. */
  ghost predicate NoneUpTo(n: nat, d: nat) {
    d < 2 || (n % d != 0 && NoneUpTo(n, d - 1))
  }

  lemma {:induction false} NoneDivides(n: nat, d: nat, e: nat)
    requires NoneUpTo(n, d) && 2 <= e <= d
    ensures n % e != 0
    decreases d
  {
    if e < d { NoneDivides(n, d - 1, e); }
  }

  /** The modulus is the largest prime that fits in 16 bits. */
  lemma BaseIsPrime(n: nat)
    ensures Prime(BASE) && BASE < 65536 && (Prime(n) && n < 65536 ==> n <= BASE)
  {
    SmallDivisors();
    forall d | 2 <= d < BASE ensures BASE % d != 0 {
      if d < 256 {
        NoneDivides(BASE, 255, d);
      } else if BASE % d == 0 {
        var q := BASE / d;
        Factor(BASE, d, q);
        NoneDivides(BASE, 255, q);
      }
    }
    if BASE < n < 65536 && Prime(n) { Composite(n); }
  }

  lemma Factor(n: nat, d: nat, q: nat)
    requires 256 <= d < n < 65536 && n % d == 0 && q == n / d
    ensures 2 <= q < 256 && n % q == 0
  {
    assert n == d * q;
    Bits.QuotientIs(n, q, d, 0);
  }

  lemma SmallDivisors()
    ensures NoneUpTo(BASE, 255)
  {
    assert NoneUpTo(65521, 8);
    assert NoneUpTo(65521, 16);
    assert NoneUpTo(65521, 24);
    assert NoneUpTo(65521, 32);
    assert NoneUpTo(65521, 40);
    assert NoneUpTo(65521, 48);
    assert NoneUpTo(65521, 56);
    assert NoneUpTo(65521, 64);
    assert NoneUpTo(65521, 72);
    assert NoneUpTo(65521, 80);
    assert NoneUpTo(65521, 88);
    assert NoneUpTo(65521, 96);
    assert NoneUpTo(65521, 104);
    assert NoneUpTo(65521, 112);
    assert NoneUpTo(65521, 120);
    assert NoneUpTo(65521, 128);
    assert NoneUpTo(65521, 136);
    assert NoneUpTo(65521, 144);
    assert NoneUpTo(65521, 152);
    assert NoneUpTo(65521, 160);
    assert NoneUpTo(65521, 168);
    assert NoneUpTo(65521, 176);
    assert NoneUpTo(65521, 184);
    assert NoneUpTo(65521, 192);
    assert NoneUpTo(65521, 200);
    assert NoneUpTo(65521, 208);
    assert NoneUpTo(65521, 216);
    assert NoneUpTo(65521, 224);
    assert NoneUpTo(65521, 232);
    assert NoneUpTo(65521, 240);
    assert NoneUpTo(65521, 248);
  }

  lemma Composite(n: nat)
    requires 65521 < n < 65536
    ensures !Prime(n)
  {
    assert n % 2 == 0 || n % 3 == 0 || n % 5 == 0 || n % 7 == 0 || n % 13 == 0 || n % 19 == 0;
  }

  /* ---------- the definition, without reductions ---------- */

  ghost function SumA(a: nat, s: seq<int>): (r: nat)
    requires AreBytes(s)
    decreases |s|
  {
    if s == [] then a else SumA(a, s[..|s| - 1]) + s[|s| - 1]
  }

  ghost function SumB(a: nat, b: nat, s: seq<int>): (r: nat)
    requires AreBytes(s)
    decreases |s|
  {
    if s == [] then b else SumB(a, b, s[..|s| - 1]) + SumA(a, s)
  }

  /** The two sums as one word. */
  function Packed(a: nat, b: nat): nat { a + 65536 * b }

  function LowHalf(adler: nat): nat { adler % 65536 }

  function HighHalf(adler: nat): nat { adler / 65536 % 65536 }

  /** The checksum adler of what came before, brought up to date with s. */
  ghost function Updated(adler: nat, s: seq<int>): nat
    requires AreBytes(s)
  {
    Packed(SumA(LowHalf(adler), s) % BASE, SumB(LowHalf(adler), HighHalf(adler), s) % BASE)
  }

  /** Both halves are reduced. */
  predicate Reduced(adler: nat) {
    LowHalf(adler) < BASE && HighHalf(adler) < BASE && adler < 0x1_0000_0000
  }

  lemma PackedHalves(a: nat, b: nat)
    requires a < 65536 && b < 65536
    ensures LowHalf(Packed(a, b)) == a && HighHalf(Packed(a, b)) == b && Packed(a, b) < 0x1_0000_0000
  {
  }

  lemma UpdatedReduced(adler: nat, s: seq<int>)
    requires AreBytes(s)
    ensures Reduced(Updated(adler, s))
    ensures LowHalf(Updated(adler, s)) == SumA(LowHalf(adler), s) % BASE
    ensures HighHalf(Updated(adler, s)) == SumB(LowHalf(adler), HighHalf(adler), s) % BASE
  {
    PackedHalves(SumA(LowHalf(adler), s) % BASE, SumB(LowHalf(adler), HighHalf(adler), s) % BASE);
  }

  /* ---------- how large the sums grow ---------- */

  /** The most the second sum can be after n bytes. */
  ghost function Peak(n: nat): nat
    decreases n
  {
    if n == 0 then 65535 else Peak(n - 1) + 65535 + 255 * n
  }

  lemma {:induction false} PeakIs(n: nat)
    ensures 2 * Peak(n) == (n + 1) * (2 * 65535 + 255 * n)
    decreases n
  {
    if n > 0 { PeakIs(n - 1); }
  }

  lemma {:induction false} PeakGrows(n: nat, m: nat)
    requires n <= m
    ensures Peak(n) <= Peak(m)
    decreases m
  {
    if n < m { PeakGrows(n, m - 1); }
  }

  /** NMAX bytes never overflow 32 bits, whatever the halves were before; one more could, even
      starting from reduced halves. */
  lemma NmaxFits()
    ensures Peak(NMAX) < 0x1_0000_0000
    ensures (BASE - 1) * (NMAX + 2) + 255 * (NMAX + 1) * (NMAX + 2) / 2 >= 0x1_0000_0000
  {
    PeakIs(NMAX);
  }

  lemma {:induction false} SumsBounded(a: nat, b: nat, s: seq<int>)
    requires AreBytes(s) && a <= 65535 && b <= 65535
    ensures SumA(a, s) <= 65535 + 255 * |s| && SumB(a, b, s) <= Peak(|s|)
    decreases |s|
  {
    if s != [] { SumsBounded(a, b, s[..|s| - 1]); }
  }

  /* ---------- reductions ---------- */

  /** The macro CHOP: the high half counts fifteen times, as 65536 is 15 more than BASE. */
  function Chop(a: nat): (r: nat)
    ensures r % BASE == a % BASE
  {
    var tmp := a / 65536;
    assert a == 65536 * tmp + a % 65536;
    SameMod(a % 65536 + 15 * tmp, tmp);
    a % 65536 + (16 * tmp - tmp)
  }

  lemma SameMod(r: int, k: int)
    ensures (r + BASE * k) % BASE == r % BASE
  {
    var q := r / BASE;
    assert r + BASE * k == BASE * (q + k) + r % BASE;
    Bits.QuotientIs(r + BASE * k, BASE, q + k, r % BASE);
  }

  /** The macro MOD28, on numbers below 2^28. */
  method Mod28(a: nat, noDivide: bool) returns (r: nat)
    requires a < 0x1000_0000
    ensures r == a % BASE
  {
    if noDivide {
      r := Chop(a);
      if r >= BASE { r := r - BASE; }
    } else {
      r := a % BASE;
    }
  }

  /** The macro MOD, on 32-bit numbers. */
  method Mod(a: nat, noDivide: bool) returns (r: nat)
    requires a < 0x1_0000_0000
    ensures r == a % BASE
  {
    if noDivide {
      r := Chop(a);
      r := Mod28(r, noDivide);
    } else {
      r := a % BASE;
    }
  }

  /** The macro MOD63, on numbers below 2^63: 2^32 is 225 more than a multiple of BASE. */
  method Mod63(a: nat, noDivide: bool) returns (r: nat)
    requires a < 0x8000_0000_0000_0000
    ensures r == a % BASE
  {
    if noDivide {
      var tmp := a / 0x1_0000_0000;
      r := a % 0x1_0000_0000 + (256 * tmp - 32 * tmp + tmp);
      SameMod(r, 65551 * tmp);
      r := Chop(r);
      r := Chop(r);
      if r >= BASE { r := r - BASE; }
    } else {
      r := a % BASE;
    }
  }

  /* ---------- the loops ---------- */

  /** Addition in 32 bits. */
  function Add(a: nat, b: nat): nat { (a + b) % 0x1_0000_0000 }

  /** adler and sum2 are the sums over buf from from to i, starting from a0 and b0; no more than NMAX bytes. */
  ghost predicate Summed(buf: seq<int>, from: nat, i: nat, a0: nat, b0: nat, adler: nat, sum2: nat) {
    AreBytes(buf) && a0 <= 65535 && b0 <= 65535 && from <= i <= |buf| && i <= from + NMAX &&
    adler == SumA(a0, buf[from..i]) && sum2 == SumB(a0, b0, buf[from..i])
  }

  lemma SummedStart(buf: seq<int>, from: nat, a0: nat, b0: nat)
    requires AreBytes(buf) && a0 <= 65535 && b0 <= 65535 && from <= |buf|
    ensures Summed(buf, from, from, a0, b0, a0, b0)
  {
  }

  lemma SummedFits(buf: seq<int>, from: nat, i: nat, a0: nat, b0: nat, adler: nat, sum2: nat)
    requires Summed(buf, from, i, a0, b0, adler, sum2)
    ensures adler < 0x1_0000_0000 && sum2 <= Peak(i - from) < 0x1_0000_0000 && adler <= 65535 + 255 * (i - from)
  {
    hide Peak;
    SumsBounded(a0, b0, buf[from..i]);
    PeakGrows(i - from, NMAX);
    NmaxFits();
  }

  lemma SummedNext(buf: seq<int>, from: nat, i: nat, a0: nat, b0: nat, adler: nat, sum2: nat)
    requires Summed(buf, from, i, a0, b0, adler, sum2) && i < |buf| && i < from + NMAX
    ensures Summed(buf, from, i + 1, a0, b0, adler + buf[i], sum2 + (adler + buf[i]))
  {
    assert buf[from..i + 1][..i - from] == buf[from..i];
  }

  /** The macro DO1. */
  method Do1(buf: seq<int>, i: nat, adler: nat, sum2: nat, ghost from: nat, ghost a0: nat, ghost b0: nat)
    returns (adler': nat, sum2': nat)
    requires Summed(buf, from, i, a0, b0, adler, sum2) && i < |buf| && i < from + NMAX && 0 <= buf[i] < 256
    ensures Summed(buf, from, i + 1, a0, b0, adler', sum2')
  {
    hide *;
    SummedNext(buf, from, i, a0, b0, adler, sum2);
    SummedFits(buf, from, i + 1, a0, b0, adler + buf[i], sum2 + (adler + buf[i]));
    NoWrap(adler, buf[i]);
    adler' := Add(adler, buf[i]);
    NoWrap(sum2, adler');
    sum2' := Add(sum2, adler');
  }

  lemma NoWrap(a: nat, b: nat)
    requires a + b < 0x1_0000_0000
    ensures Add(a, b) == a + b
  {
  }

  /** Any number of bytes up to NMAX, one by one. */
  method Do(buf: seq<int>, i: nat, count: nat, adler: nat, sum2: nat, ghost from: nat, ghost a0: nat, ghost b0: nat)
    returns (adler': nat, sum2': nat)
    requires Summed(buf, from, i, a0, b0, adler, sum2) && i + count <= |buf| && i + count <= from + NMAX
    ensures Summed(buf, from, i + count, a0, b0, adler', sum2')
  {
    hide *;
    adler', sum2' := adler, sum2;
    SummedBytes(buf, from, i, a0, b0, adler, sum2);
    var k := 0;
    while k < count
      invariant 0 <= k <= count && Summed(buf, from, i + k, a0, b0, adler', sum2')
    {
      adler', sum2' := Do1(buf, i + k, adler', sum2', from, a0, b0);
      k := k + 1;
    }
  }

  lemma SummedBytes(buf: seq<int>, from: nat, i: nat, a0: nat, b0: nat, adler: nat, sum2: nat)
    requires Summed(buf, from, i, a0, b0, adler, sum2)
    ensures forall k :: 0 <= k < |buf| ==> 0 <= buf[k] < 256
  {
  }

  /** The sums so far are those from the start, up to multiples of BASE. */
  ghost predicate Reduces(buf: seq<int>, i: nat, a0: nat, b0: nat, adler: nat, sum2: nat) {
    AreBytes(buf) && i <= |buf| && adler % BASE == SumA(a0, buf[..i]) % BASE &&
    sum2 % BASE == SumB(a0, b0, buf[..i]) % BASE
  }

  lemma {:induction false} SumsConcat(a: nat, b: nat, s: seq<int>, t: seq<int>)
    requires AreBytes(s) && AreBytes(t)
    ensures AreBytes(s + t) && SumA(a, s + t) == SumA(SumA(a, s), t)
    ensures SumB(a, b, s + t) == SumB(SumA(a, s), SumB(a, b, s), t)
    decreases |t|
  {
    if t == [] {
      assert s + t == s;
    } else {
      SumsConcat(a, b, s, t[..|t| - 1]);
      assert (s + t)[..|s + t| - 1] == s + t[..|t| - 1];
    }
  }

  /** The sums from other starting values. */
  lemma {:induction false} SumsShift(a: nat, b: nat, s: seq<int>)
    requires AreBytes(s)
    ensures SumA(a, s) == a + SumA(0, s) && SumB(a, b, s) == b + a * |s| + SumB(0, 0, s)
    decreases |s|
  {
    if s != [] {
      SumsShift(a, b, s[..|s| - 1]);
      assert a * |s| == a * |s[..|s| - 1]| + a;
    }
  }

  /** Starting values that differ by multiples of BASE give sums that do. */
  lemma SumsMod(a: nat, b: nat, a': nat, b': nat, s: seq<int>)
    requires AreBytes(s) && a % BASE == a' % BASE && b % BASE == b' % BASE
    ensures SumA(a, s) % BASE == SumA(a', s) % BASE && SumB(a, b, s) % BASE == SumB(a', b', s) % BASE
  {
    hide SumA;
    hide SumB;
    SumsShift(a, b, s);
    SumsShift(a', b', s);
    var p, q := a / BASE - a' / BASE, b / BASE - b' / BASE;
    assert a == a' + BASE * p && b == b' + BASE * q;
    SameMod(a' + SumA(0, s), p);
    assert a * |s| == a' * |s| + BASE * (p * |s|) by { Distribute(a', p, |s|); }
    SameMod(b' + a' * |s| + SumB(0, 0, s), q + p * |s|);
  }

  lemma Distribute(a: int, p: int, n: int)
    ensures (a + BASE * p) * n == a * n + BASE * (p * n)
  {
  }

  /* ---------- adler32 ---------- */

  /** A stretch of at most NMAX bytes, summed and then reduced. */
  method Block(buf: seq<int>, i: nat, count: nat, adler: nat, sum2: nat, noDivide: bool, ghost a0: nat, ghost b0: nat)
    returns (adler': nat, sum2': nat)
    requires Reduces(buf, i, a0, b0, adler, sum2) && adler <= 65535 && sum2 <= 65535 && i + count <= |buf| &&
      count <= NMAX
    ensures Reduces(buf, i + count, a0, b0, adler', sum2') && adler' < BASE && sum2' < BASE
  {
    hide *;
    ReducesParts(buf, i, a0, b0, adler, sum2);
    SummedStart(buf, i, adler, sum2);
    adler', sum2' := adler, sum2;
    var n := count;
    var at := i;
    while n >= 16
      invariant 0 <= n <= count && at == i + count - n && Summed(buf, i, at, adler, sum2, adler', sum2')
    {
      adler', sum2' := Do(buf, at, 16, adler', sum2', i, adler, sum2);
      at := at + 16;
      n := n - 16;
    }
    adler', sum2' := Do(buf, at, n, adler', sum2', i, adler, sum2);
    SummedFits(buf, i, i + count, adler, sum2, adler', sum2');
    ReducesMore(buf, i, i + count, a0, b0, adler, sum2, adler', sum2');
    adler' := Mod(adler', noDivide);
    sum2' := Mod(sum2', noDivide);
  }

  lemma ReducesParts(buf: seq<int>, i: nat, a0: nat, b0: nat, adler: nat, sum2: nat)
    requires Reduces(buf, i, a0, b0, adler, sum2)
    ensures AreBytes(buf) && i <= |buf| && NMAX == 5552 && BASE == 65521
  {
  }

  lemma ReducesMore(buf: seq<int>, i: nat, j: nat, a0: nat, b0: nat, adler: nat, sum2: nat, a: nat, b: nat)
    requires Reduces(buf, i, a0, b0, adler, sum2) && Summed(buf, i, j, adler, sum2, a, b)
    ensures Reduces(buf, j, a0, b0, a % BASE, b % BASE)
  {
    hide SumA;
    hide SumB;
    var s, t := buf[..i], buf[i..j];
    SumsConcat(a0, b0, s, t);
    SumsMod(adler, sum2, SumA(a0, s), SumB(a0, b0, s), t);
    assert s + t == buf[..j];
  }

  lemma ReducesStart(buf: seq<int>, a0: nat, b0: nat)
    requires AreBytes(buf)
    ensures Reduces(buf, 0, a0, b0, a0, b0)
  {
  }

  lemma ReducesAll(buf: seq<int>, adler0: nat, adler: nat, sum2: nat)
    requires AreBytes(buf) && Reduces(buf, |buf|, LowHalf(adler0), HighHalf(adler0), adler, sum2) && adler < BASE &&
      sum2 < BASE
    ensures Updated(adler0, buf) == Packed(adler, sum2)
  {
    hide SumA;
    hide SumB;
    assert buf[..|buf|] == buf;
    Bits.QuotientIs(adler, BASE, 0, adler);
    Bits.QuotientIs(sum2, BASE, 0, sum2);
  }

  lemma HalvesSmall(adler: nat)
    ensures LowHalf(adler) <= 65535 && HighHalf(adler) <= 65535
  {
  }

  /** The bytes to sum, if any are given. */
  datatype Buffer = Null | Data(bytes: seq<int>)

  /** One byte after a checksum whose halves need not be reduced leaves the high half as it should be. */
  ghost predicate OneReduces(adler: nat, bytes: seq<int>)
    requires AreBytes(bytes)
  {
    |bytes| == 1 ==> HighHalf(adler) + SumA(LowHalf(adler), bytes) % BASE < 2 * BASE
  }

  /** adler32. With one byte only one multiple of BASE is taken off the high half, which is enough
      exactly if OneReduces; it is for every checksum with reduced halves. */
  method Adler32(adler0: nat, buf: Buffer, noDivide: bool) returns (r: nat)
    requires buf.Data? ==> AreBytes(buf.bytes)
    ensures buf.Null? ==> r == 1
    ensures buf.Data? ==> (r == Updated(adler0, buf.bytes) <==> OneReduces(adler0, buf.bytes))
    ensures buf.Data? ==> r == Updated(adler0, buf.bytes) + (if OneReduces(adler0, buf.bytes) then 0 else 65536 * BASE)
  {
    hide *;
    var sum2: nat := HighHalf(adler0);
    var adler: nat := LowHalf(adler0);
    HalvesSmall(adler0);
    if buf.Data? && |buf.bytes| == 1 {
      OnlyByte(buf.bytes);
      r := OneByte(adler0, buf.bytes[0], adler, sum2, buf.bytes);
      return;
    }
    if buf.Null? { return 1; }
    ghost var a0, b0 := adler, sum2;
    var s := buf.bytes;
    NotOne(adler0, s);
    ReducesStart(s, a0, b0);
    ReducesParts(s, 0, a0, b0, a0, b0);
    if |s| < 16 {
      SummedStart(s, 0, a0, b0);
      adler, sum2 := Do(s, 0, |s|, adler, sum2, 0, a0, b0);
      SummedFits(s, 0, |s|, a0, b0, adler, sum2);
      FewFit(|s|);
      ReducesMore(s, 0, |s|, a0, b0, a0, b0, adler, sum2);
      SubtractOnce(adler);
      if adler >= BASE { adler := adler - BASE; }
      sum2 := Mod28(sum2, noDivide);
      ReducesAll(s, adler0, adler, sum2);
      return Packed(adler, sum2);
    }
    var i := 0;
    while |s| - i >= NMAX
      invariant 0 <= i <= |s| && Reduces(s, i, a0, b0, adler, sum2) && adler <= 65535 && sum2 <= 65535
      invariant i > 0 ==> adler < BASE && sum2 < BASE
    {
      adler, sum2 := Block(s, i, NMAX, adler, sum2, noDivide, a0, b0);
      i := i + NMAX;
    }
    if i < |s| {
      adler, sum2 := Block(s, i, |s| - i, adler, sum2, noDivide, a0, b0);
    }
    ReducesAll(s, adler0, adler, sum2);
    r := Packed(adler, sum2);
  }

  lemma OnlyByte(s: seq<int>)
    requires AreBytes(s) && |s| == 1
    ensures s == [s[0]] && 0 <= s[0] < 256
  {
  }

  lemma NotOne(adler: nat, s: seq<int>)
    requires AreBytes(s) && |s| != 1
    ensures OneReduces(adler, s)
  {
  }

  lemma FewFit(n: nat)
    requires n < 16
    ensures Peak(n) < 0x1000_0000
  {
    PeakIs(n);
  }

  lemma SubtractOnce(a: nat)
    requires a <= 65535 + 255 * 15
    ensures a % BASE == if a >= BASE then a - BASE else a
  {
  }

  /** The fast path for one byte. */
  method OneByte(ghost adler0: nat, x: int, low: nat, high: nat, ghost s: seq<int>) returns (r: nat)
    requires AreBytes(s) && s == [x] && low == LowHalf(adler0) && high == HighHalf(adler0) && low <= 65535 &&
      high <= 65535 && 0 <= x < 256
    ensures r == Updated(adler0, s) <==> OneReduces(adler0, s)
    ensures r == Updated(adler0, s) + (if OneReduces(adler0, s) then 0 else 65536 * BASE)
  {
    var adler, sum2 := low, high;
    assert s[..0] == [];
    assert SumA(low, s) == low + x && SumB(low, high, s) == high + SumA(low, s);
    adler := adler + x;
    if adler >= BASE { adler := adler - BASE; }
    assert adler == SumA(low, s) % BASE;
    sum2 := sum2 + adler;
    SameMod(high + adler, (low + x) / BASE);
    assert sum2 % BASE == SumB(low, high, s) % BASE;
    if sum2 >= BASE { sum2 := sum2 - BASE; }
    r := Packed(adler, sum2);
  }

  /** A checksum with a high half that is not reduced, and a byte that shows it. */
  lemma OneByteFails()
    ensures !OneReduces(0xfffe_0000 + 65520, [0]) && OneReduces(1, [0])
  {
    assert [0][..0] == [];
  }

  lemma ReducedOnes(adler: nat, s: seq<int>)
    requires Reduced(adler) && AreBytes(s)
    ensures OneReduces(adler, s)
  {
  }

  /* ---------- combining ---------- */

  /** adler32_combine_, for a length below 2^63. A negative length gives all ones. */
  method Combine(adler1: nat, adler2: nat, len2: int, noDivide: bool) returns (r: nat)
    requires Reduced(adler1) && Reduced(adler2) && len2 < 0x8000_0000_0000_0000
    ensures r == Combined(adler1, adler2, len2)
  {
    if len2 < 0 { return 0xffff_ffff; }
    var rem := Mod63(len2, noDivide);
    var sum1 := LowHalf(adler1);
    ProductFits(rem, sum1);
    var sum2 := Times(rem, sum1);
    sum2 := Mod(sum2, noDivide);
    sum1 := sum1 + LowHalf(adler2) + BASE - 1;
    sum2 := sum2 + HighHalf(adler1) + HighHalf(adler2) + BASE - rem;
    CombinedIs(adler1, adler2, len2, rem, sum1, sum2);
    Subtracted(sum1, sum2);
    if sum1 >= BASE { sum1 := sum1 - BASE; }
    if sum1 >= BASE { sum1 := sum1 - BASE; }
    if sum2 >= 2 * BASE { sum2 := sum2 - 2 * BASE; }
    if sum2 >= BASE { sum2 := sum2 - BASE; }
    r := Packed(sum1, sum2);
  }

  lemma Subtracted(x: nat, y: nat)
    requires x < 3 * BASE && y < 4 * BASE
    ensures x % BASE == if x < BASE then x else if x < 2 * BASE then x - BASE else x - 2 * BASE
    ensures y % BASE ==
      (if y < BASE then y else if y < 2 * BASE then y - BASE else if y < 3 * BASE then y - 2 * BASE else y - 3 * BASE)
  {
  }

  /** Multiplication in 32 bits. */
  function Times(a: nat, b: nat): nat { a * b % 0x1_0000_0000 }

  lemma ProductFits(a: nat, b: nat)
    requires a <= 65535 && b <= 65535
    ensures Times(a, b) == a * b
  {
    Bits.MulNonNegative(65535 - a, b);
    Bits.MulSplit(65535, a, b);
  }

  /** The checksum of two pieces, from the checksum of each. */
  ghost function Combined(adler1: nat, adler2: nat, len2: int): nat {
    if len2 < 0 then 0xffff_ffff
    else Packed((LowHalf(adler1) + LowHalf(adler2) - 1) % BASE,
                (HighHalf(adler1) + HighHalf(adler2) + len2 * (LowHalf(adler1) - 1)) % BASE)
  }

  lemma CombinedIs(adler1: nat, adler2: nat, len2: nat, rem: nat, first: int, second: int)
    requires rem == len2 % BASE && first == LowHalf(adler1) + LowHalf(adler2) + BASE - 1
    requires second == rem * LowHalf(adler1) % BASE + HighHalf(adler1) + HighHalf(adler2) + BASE - rem
    ensures Combined(adler1, adler2, len2) == Packed(first % BASE, second % BASE)
  {
    hide LowHalf;
    hide HighHalf;
    var a, h, q := LowHalf(adler1), HighHalf(adler1) + HighHalf(adler2), len2 / BASE;
    SameMod(LowHalf(adler1) + LowHalf(adler2) - 1, 1);
    var k := rem * a / BASE;
    assert len2 == BASE * q + rem;
    Distribute(rem, q, a - 1);
    assert rem * (a - 1) == rem * a - rem;
    assert rem * a == BASE * k + rem * a % BASE;
    SameMod(second, q * (a - 1) + k - 1);
  }

  lemma ConcatSums(s: seq<int>, t: seq<int>)
    requires AreBytes(s) && AreBytes(t)
    ensures AreBytes(s + t) && SumA(1, s + t) == SumA(1, s) + SumA(1, t) - 1
    ensures SumB(1, 0, s + t) == SumB(1, 0, s) + SumB(1, 0, t) + SumA(1, s) * |t| - |t|
  {
    hide *;
    SumsConcat(1, 0, s, t);
    SumsShift(1, 0, t);
    SumsShift(SumA(1, s), SumB(1, 0, s), t);
  }

  lemma CombinedAt(adler1: nat, adler2: nat, n: nat, a1: int, b1: int, a2: int, b2: int)
    requires a1 == LowHalf(adler1) && b1 == HighHalf(adler1) && a2 == LowHalf(adler2) && b2 == HighHalf(adler2)
    ensures Combined(adler1, adler2, n) == Packed((a1 + a2 - 1) % BASE, (b1 + b2 + n * (a1 - 1)) % BASE)
  {
    hide LowHalf;
    hide HighHalf;
  }

  lemma BaseIs()
    ensures BASE == 65521
  {
  }

  lemma UpdatedFromOne(s: seq<int>)
    requires AreBytes(s)
    ensures Updated(1, s) == Packed(SumA(1, s) % BASE, SumB(1, 0, s) % BASE)
    ensures LowHalf(Updated(1, s)) == SumA(1, s) % BASE && HighHalf(Updated(1, s)) == SumB(1, 0, s) % BASE
  {
    hide SumA;
    hide SumB;
    One();
    UpdatedReduced(1, s);
  }

  /** Combining the checksums of two pieces gives the checksum of one after the other. */
  lemma CombinedConcat(s: seq<int>, t: seq<int>)
    requires AreBytes(s) && AreBytes(t)
    ensures AreBytes(s + t) && Combined(Updated(1, s), Updated(1, t), |t|) == Updated(1, s + t)
  {
    hide *;
    BaseIs();
    ConcatSums(s, t);
    UpdatedFromOne(s);
    UpdatedFromOne(t);
    UpdatedFromOne(s + t);
    var a1, b1, a2, b2 := SumA(1, s), SumB(1, 0, s), SumA(1, t), SumB(1, 0, t);
    CombinedAt(Updated(1, s), Updated(1, t), |t|, a1 % BASE, b1 % BASE, a2 % BASE, b2 % BASE);
    Joined(a1, b1, a2, b2, |t|);
  }

  lemma Joined(a1: nat, b1: nat, a2: nat, b2: nat, n: nat)
    ensures (a1 % BASE + a2 % BASE - 1) % BASE == (a1 + a2 - 1) % BASE
    ensures (b1 % BASE + b2 % BASE + n * (a1 % BASE - 1)) % BASE == (b1 + b2 + a1 * n - n) % BASE
  {
    JoinedParts(a1 / BASE, a1 % BASE, b1 / BASE, b1 % BASE, a2 / BASE, a2 % BASE, b2 / BASE, b2 % BASE, n);
  }

  lemma JoinedParts(p1: int, a1: int, q1: int, b1: int, p2: int, a2: int, q2: int, b2: int, n: int)
    ensures (a1 + a2 - 1) % BASE == (BASE * p1 + a1 + (BASE * p2 + a2) - 1) % BASE
    ensures (b1 + b2 + n * (a1 - 1)) % BASE == (BASE * q1 + b1 + (BASE * q2 + b2) + (BASE * p1 + a1) * n - n) % BASE
  {
    SameMod(a1 + a2 - 1, p1 + p2);
    Distribute(a1, p1, n);
    Bits.MulSplit(a1, 1, n);
    SameMod(b1 + b2 + n * (a1 - 1), q1 + q2 + p1 * n);
  }

  lemma One()
    ensures LowHalf(1) == 1 && HighHalf(1) == 0
  {
  }
}
