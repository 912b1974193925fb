/** deflate.c, UPDATE_HASH: the rolling hash of three bytes. m is hash_mask, s is hash_shift. */
module DeflateHash {
  import opened Bits
  import opened Words32

  /** What deflateInit2 makes of 8 to 16 hash bits: the shift is a third of them, rounded up. */
  predicate Proper(m: bv32, s: bv32) {
    (m == 0xff && s == 3) || (m == 0x1ff && s == 3) || (m == 0x3ff && s == 4) || (m == 0x7ff && s == 4) ||
    (m == 0xfff && s == 4) || (m == 0x1fff && s == 5) || (m == 0x3fff && s == 5) || (m == 0x7fff && s == 5) ||
    (m == 0xffff && s == 6)
  }

  /** One more bit at the low end. */
  function Push(x: bv32, bit: bool): bv32 { (x << 1) | (if bit then 1 else 0) }

  /** A byte as a word, bit by bit. */
  function Word(b: int): bv32
    requires 0 <= b < 256
    decreases b
  {
    if b == 0 then 0 else Push(Word(b / 2), b % 2 == 1)
  }

  ghost function Ones(k: nat): bv32 { if k == 0 then 0 else Push(Ones(k - 1), true) }

  predicate AtMost(x: bv32, y: bv32) { x <= y }

  lemma PushGrows(x: bv32, y: bv32, bit: bool)
    requires AtMost(x, y) && AtMost(y, 0x7fff_ffff)
    ensures AtMost(Push(x, bit), Push(y, true))
  {
    hide *;
    assert bit == true || bit == false;
    PushGrowsOne(x, y);
    PushGrowsZero(x, y);
  }

  lemma PushGrowsOne(x: bv32, y: bv32)
    requires AtMost(x, y) && AtMost(y, 0x7fff_ffff)
    ensures AtMost(Push(x, true), Push(y, true))
  {
  }

  lemma PushGrowsZero(x: bv32, y: bv32)
    requires AtMost(x, y) && AtMost(y, 0x7fff_ffff)
    ensures AtMost(Push(x, false), Push(y, true))
  {
  }

  lemma PushInjective(x: bv32, y: bv32, p: bool, q: bool)
    requires x <= 0xff && y <= 0xff && Push(x, p) == Push(y, q)
    ensures x == y && p == q
  {
  }

  lemma OnesUpTo8()
    ensures Ones(0) == 0 && Ones(1) == 1 && Ones(2) == 3 && Ones(3) == 7 && Ones(4) == 0xf && Ones(5) == 0x1f
    ensures Ones(6) == 0x3f && Ones(7) == 0x7f && Ones(8) == 0xff
  {
  }

  lemma OnesSmall(k: nat)
    requires k <= 8
    ensures AtMost(Ones(k), 0x7fff_ffff) && AtMost(0, Ones(k))
  {
    hide Ones;
    OnesUpTo8();
  }

  lemma OnesIs(k: nat)
    requires k > 0
    ensures Ones(k) == Push(Ones(k - 1), true)
  {
    hide Push;
  }

  lemma {:induction false} WordWithin(b: int, k: nat)
    requires 0 <= b < 256 && b < Pow2(k) && k <= 8
    ensures AtMost(Word(b), Ones(k))
    decreases k
  {
    hide *;
    OnesSmall(k);
    HalfBelow(b, k);
    if b == 0 {
      WordZero();
    } else {
      OnesSmall(k - 1);
      OnesIs(k);
      WordIs(b);
      WordWithin(b / 2, k - 1);
      PushGrows(Word(b / 2), Ones(k - 1), b % 2 == 1);
    }
  }

  lemma HalfBelow(b: int, k: nat)
    requires 0 <= b < Pow2(k)
    ensures b > 0 ==> k > 0 && b / 2 < Pow2(k - 1)
  {
  }

  lemma WordZero()
    ensures Word(0) == 0
  {
  }

  lemma WordSmall(b: int)
    requires 0 <= b < 256
    ensures Word(b) <= 0xff
  {
    hide Word;
    hide Ones;
    assert Pow2(8) == 256;
    OnesUpTo8();
    WordWithin(b, 8);
  }

  lemma {:induction false} WordInjective(a: int, b: int)
    requires 0 <= a < 256 && 0 <= b < 256 && Word(a) == Word(b)
    ensures a == b
    decreases a + b
  {
    hide Push;
    if a != 0 || b != 0 {
      WordIs(a);
      WordIs(b);
      WordSmall(a / 2);
      WordSmall(b / 2);
      PushInjective(Word(a / 2), Word(b / 2), a % 2 == 1, b % 2 == 1);
      WordInjective(a / 2, b / 2);
    }
  }

  lemma WordIs(b: int)
    requires 0 <= b < 256
    ensures Word(b) == Push(Word(b / 2), b % 2 == 1)
  {
  }

  function Shl(a: bv32, s: bv32): bv32
    requires s <= 32
  {
    a << s
  }

  function And(a: bv32, m: bv32): bv32 { a & m }

  /** UPDATE_HASH */
  function Update(m: bv32, s: bv32, h: bv32, c: bv32): bv32
    requires Proper(m, s)
  {
    And(Xor(Shl(h, s), c), m)
  }

  /** A hash as a cell of the head table. */
  function Index(h: bv32): nat { h as nat }

  function Size(m: bv32): nat { Index(m) + 1 }

  lemma AndFits(x: bv32, m: bv32, s: bv32)
    requires Proper(m, s)
    ensures Index(And(x, m)) <= Index(m)
  {
    MaskedNat(x, m);
  }

  lemma MaskedNat(x: bv32, m: bv32)
    requires m == 0xff || m == 0x1ff || m == 0x3ff || m == 0x7ff || m == 0xfff || m == 0x1fff || m == 0x3fff ||
      m == 0x7fff || m == 0xffff
    ensures (x & m) as nat <= m as nat
  {
    if m == 0xff || m == 0x1ff || m == 0x3ff || m == 0x7ff { MaskedUpTo11(x); } else { MaskedFrom12(x); }
  }

  lemma MaskedUpTo11(x: bv32)
    ensures (x & 0xff) as nat <= 0xff && (x & 0x1ff) as nat <= 0x1ff && (x & 0x3ff) as nat <= 0x3ff &&
      (x & 0x7ff) as nat <= 0x7ff
  {
  }

  lemma MaskedFrom12(x: bv32)
    ensures (x & 0xfff) as nat <= 0xfff && (x & 0x1fff) as nat <= 0x1fff && (x & 0x3fff) as nat <= 0x3fff &&
      (x & 0x7fff) as nat <= 0x7fff && (x & 0xffff) as nat <= 0xffff
  {
  }

  lemma UpdateFits(m: bv32, s: bv32, h: bv32, c: bv32)
    requires Proper(m, s)
    ensures Index(Update(m, s, h, c)) < Size(m)
  {
    hide And;
    hide Xor;
    hide Shl;
    hide Index;
    ShiftSmall(m, s);
    AndFits(Xor(Shl(h, s), c), m, s);
  }

  lemma ShiftSmall(m: bv32, s: bv32)
    requires Proper(m, s)
    ensures 3 <= s <= 6 && s <= 32
  {
  }

  lemma ShlIs(a: bv32, s: bv32)
    requires 3 <= s <= 6
    ensures Shl(a, s) == if s == 3 then a << 3 else if s == 4 then a << 4 else if s == 5 then a << 5 else a << 6
  {
    ShiftIs(s);
  }

  lemma ShiftIs(s: bv32)
    requires 3 <= s <= 6
    ensures s == 3 || s == 4 || s == 5 || s == 6
  {
  }

  lemma XorIs(a: bv32, b: bv32)
    ensures Xor(a, b) == a ^ b
  {
  }

  lemma UpThree(a: bv32, b: bv32)
    ensures (a ^ b) << 3 == (a << 3) ^ (b << 3)
  {
  }

  lemma UpThreeXor(a: bv32, b: bv32)
    ensures Xor(a, b) << 3 == Xor(a << 3, b << 3)
  {
    hide Xor;
    XorIs(a, b);
    XorIs(a << 3, b << 3);
    UpThree(a, b);
  }

  lemma UpFour(a: bv32, b: bv32)
    ensures (a ^ b) << 4 == (a << 4) ^ (b << 4)
  {
  }

  lemma UpFourXor(a: bv32, b: bv32)
    ensures Xor(a, b) << 4 == Xor(a << 4, b << 4)
  {
    hide Xor;
    XorIs(a, b);
    XorIs(a << 4, b << 4);
    UpFour(a, b);
  }

  lemma UpFive(a: bv32, b: bv32)
    ensures (a ^ b) << 5 == (a << 5) ^ (b << 5)
  {
  }

  lemma UpFiveXor(a: bv32, b: bv32)
    ensures Xor(a, b) << 5 == Xor(a << 5, b << 5)
  {
    hide Xor;
    XorIs(a, b);
    XorIs(a << 5, b << 5);
    UpFive(a, b);
  }

  lemma UpSix(a: bv32, b: bv32)
    ensures (a ^ b) << 6 == (a << 6) ^ (b << 6)
  {
  }

  lemma UpSixXor(a: bv32, b: bv32)
    ensures Xor(a, b) << 6 == Xor(a << 6, b << 6)
  {
    hide Xor;
    XorIs(a, b);
    XorIs(a << 6, b << 6);
    UpSix(a, b);
  }

  lemma ShlXor(a: bv32, b: bv32, s: bv32)
    requires 3 <= s <= 6
    ensures Shl(Xor(a, b), s) == Xor(Shl(a, s), Shl(b, s))
  {
    hide Shl;
    hide Xor;
    ShlIs(a, s);
    ShlIs(b, s);
    ShlIs(Xor(a, b), s);
    UpThreeXor(a, b);
    UpFourXor(a, b);
    UpFiveXor(a, b);
    UpSixXor(a, b);
  }

  lemma AndXor(a: bv32, b: bv32, m: bv32)
    ensures And(Xor(a, b), m) == Xor(And(a, m), And(b, m))
  {
    hide Xor;
    XorIs(a, b);
    XorIs(a & m, b & m);
    Spread(a, b, m);
  }

  lemma Spread(a: bv32, b: bv32, m: bv32)
    ensures (a ^ b) & m == (a & m) ^ (b & m)
  {
  }

  lemma AndShl(x: bv32, m: bv32, s: bv32)
    requires Proper(m, s)
    ensures And(Shl(And(x, m), s), m) == And(Shl(x, s), m)
  {
    hide Shl;
    ShlIs(x, s);
    ShlIs(And(x, m), s);
  }

  /** A bit moved up three times is above the mask. */
  lemma Gone(x: bv32, m: bv32, s: bv32)
    requires Proper(m, s)
    ensures And(Shl(Shl(Shl(x, s), s), s), m) == 0
  {
  }

  /** What differs before an update differs, moved up, after it. */
  lemma Difference(m: bv32, s: bv32, h: bv32, d: bv32, c: bv32)
    requires Proper(m, s) && s <= 32
    ensures Update(m, s, Xor(h, d), c) == Xor(Update(m, s, h, c), And(Shl(d, s), m))
  {
    hide And;
    hide Xor;
    hide Shl;
    hide Proper;
    ShiftSmall(m, s);
    ShlXor(h, d, s);
    Associates(Shl(h, s), Shl(d, s), c);
    Commutes(Shl(d, s), c);
    Associates(Shl(h, s), c, Shl(d, s));
    AndXor(Xor(Shl(h, s), c), Shl(d, s), m);
  }

  function Two(m: bv32, s: bv32, h: bv32, a: bv32, b: bv32): bv32
    requires Proper(m, s)
  {
    Update(m, s, Update(m, s, h, a), b)
  }

  /** After three bytes nothing of what was there before is left. */
  lemma Forgets(m: bv32, s: bv32, x: bv32, y: bv32, a: bv32, b: bv32, c: bv32)
    requires Proper(m, s)
    ensures Update(m, s, Two(m, s, x, a, b), c) == Update(m, s, Two(m, s, y, a, b), c)
  {
    hide And;
    hide Xor;
    hide Shl;
    hide Proper;
    hide Update;
    ShiftSmall(m, s);
    var d := Xor(x, y);
    Associates(x, x, y);
    Cancels(x);
    Zero(y);
    var x1, d1 := Update(m, s, x, a), And(Shl(d, s), m);
    Difference(m, s, x, d, a);
    var x2, d2 := Update(m, s, x1, b), And(Shl(d1, s), m);
    Difference(m, s, x1, d1, b);
    Difference(m, s, x2, d2, c);
    AndShl(Shl(d, s), m, s);
    AndShl(Shl(Shl(d, s), s), m, s);
    Gone(d, m, s);
    Zero(Update(m, s, x2, c));
  }

  /** With at least eight bits, the third byte is determined by the hash and the first two. */
  lemma LastByte(m: bv32, s: bv32, x: bv32, c: bv32, d: bv32)
    requires Proper(m, s) && c <= 0xff && d <= 0xff && Update(m, s, x, c) == Update(m, s, x, d)
    ensures c == d
  {
    hide Xor;
    hide And;
    hide Shl;
    ShiftSmall(m, s);
    var h := Shl(x, s);
    AndXor(h, c, m);
    AndXor(h, d, m);
    MaskWide(m, s);
    Kept(c, m);
    Kept(d, m);
    Associates(And(h, m), And(h, m), c);
    Associates(And(h, m), And(h, m), d);
    Cancels(And(h, m));
    Zero(c);
    Zero(d);
  }

  lemma Kept(c: bv32, m: bv32)
    requires c <= 0xff && And(0xff, m) == 0xff
    ensures And(c, m) == c
  {
  }

  lemma MaskWide(m: bv32, s: bv32)
    requires Proper(m, s)
    ensures And(0xff, m) == 0xff
  {
  }

  lemma IndexInjective(g: bv32, h: bv32)
    requires Index(g) == Index(h)
    ensures g == h
  {
    assert (g as nat) as bv32 == g;
    assert (h as nat) as bv32 == h;
  }
}
