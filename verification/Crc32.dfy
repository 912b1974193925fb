/** crc32.c: the CRC-32 of RFC 1952, section 8, a bit at a time, and the tables, the byte loop and the two
    word-at-a-time loops that compute it faster. */
module Crc32 {
  import opened Words32

  /* ---------- the definition: a reflected shift register ---------- */

  const POLY: bv32 := 0xedb8_8320

  predicate Odd(c: bv32) { c & 1 != 0 }

  function Half(c: bv32): bv32 { c >> 1 }

  /** The register takes one zero bit: it is multiplied by x, modulo the polynomial. */
  function Shift(c: bv32): bv32 {
    if Odd(c) then Xor(POLY, Half(c)) else Half(c)
  }

  function Shifts(c: bv32, n: nat): bv32
    decreases n
  {
    if n == 0 then c else Shifts(Shift(c), n - 1)
  }

  function Word(b: bv8): bv32 { b as bv32 }

  /** The register takes a byte, lowest bit first. */
  ghost function Feed(c: bv32, b: bv8): bv32 {
    Shifts(Xor(c, Word(b)), 8)
  }

  ghost function Fed(c: bv32, s: seq<bv8>): bv32
    decreases |s|
  {
    if s == [] then c else Fed(Feed(c, s[0]), s[1..])
  }

  function Not(c: bv32): bv32 { c ^ 0xffff_ffff }

  /** The checksum crc of what came before, brought up to date with s. */
  ghost function Updated(crc: bv32, s: seq<bv8>): bv32 {
    Not(Fed(Not(crc), s))
  }

  /* ---------- the register is linear ---------- */

  lemma HalfXor(a: bv32, b: bv32)
    ensures Half(Xor(a, b)) == Xor(Half(a), Half(b)) && (Odd(Xor(a, b)) <==> Odd(a) != Odd(b))
  {
  }

  lemma ShiftLinear(a: bv32, b: bv32)
    ensures Shift(Xor(a, b)) == Xor(Shift(a), Shift(b))
  {
    hide Xor;
    hide Half;
    hide Odd;
    HalfXor(a, b);
    var x, y := Half(a), Half(b);
    Regroup(POLY, x, POLY, y);
    Cancels(POLY);
    Zero(Xor(x, y));
    Associates(POLY, x, y);
    Associates(x, POLY, y);
    Commutes(x, POLY);
  }

  lemma {:induction false} ShiftsLinear(a: bv32, b: bv32, n: nat)
    ensures Shifts(Xor(a, b), n) == Xor(Shifts(a, n), Shifts(b, n))
    decreases n
  {
    hide Xor;
    hide Shift;
    if n > 0 {
      ShiftLinear(a, b);
      ShiftsLinear(Shift(a), Shift(b), n - 1);
    }
  }

  lemma {:induction false} ShiftsMore(c: bv32, n: nat, m: nat)
    ensures Shifts(Shifts(c, n), m) == Shifts(c, n + m)
    decreases n
  {
    hide Shift;
    if n > 0 { ShiftsMore(Shift(c), n - 1, m); }
  }

  lemma EvenShift(c: bv32, n: nat)
    requires n > 0 && !Odd(c)
    ensures Shifts(c, n) == Shifts(Half(c), n - 1)
  {
    hide Xor;
    hide Half;
    hide Odd;
  }

  ghost function High(c: bv32): bv32 { c & 0xffff_ff00 }

  function Low(c: bv32): bv8 { (c & 0xff) as bv8 }

  function Down8(c: bv32): bv32 { c >> 8 }

  lemma Halvings(c: bv32)
    ensures var d := High(c);
      var d1 := Half(d); var d2 := Half(d1); var d3 := Half(d2); var d4 := Half(d3);
      var d5 := Half(d4); var d6 := Half(d5); var d7 := Half(d6);
      !Odd(d) && !Odd(d1) && !Odd(d2) && !Odd(d3) && !Odd(d4) && !Odd(d5) && !Odd(d6) && !Odd(d7) &&
      Half(d7) == Down8(c)
  {
  }

  /** Eight shifts move three bytes down. */
  lemma HighMoves(c: bv32)
    ensures Shifts(High(c), 8) == Down8(c)
  {
    hide *;
    Halvings(c);
    var d := High(c);
    var d1 := Half(d);
    var d2 := Half(d1);
    var d3 := Half(d2);
    var d4 := Half(d3);
    var d5 := Half(d4);
    var d6 := Half(d5);
    var d7 := Half(d6);
    EvenShift(d, 8);
    EvenShift(d1, 7);
    EvenShift(d2, 6);
    EvenShift(d3, 5);
    EvenShift(d4, 4);
    EvenShift(d5, 3);
    EvenShift(d6, 2);
    EvenShift(d7, 1);
    NoShifts(Half(d7));
  }

  lemma NoShifts(c: bv32)
    ensures Shifts(c, 0) == c
  {
  }

  lemma SplitLow(c: bv32)
    ensures c == Xor(Word(Low(c)), High(c))
  {
  }

  lemma FeedSplits(c: bv32, b: bv8)
    ensures Low(Xor(c, Word(b))) == Low(c) ^ b && Down8(Xor(c, Word(b))) == Down8(c)
  {
  }

  /** What eight shifts do, by the byte shifted out. */
  lemma ShiftsByte(c: bv32)
    ensures Shifts(c, 8) == Xor(Shifts(Word(Low(c)), 8), Down8(c))
  {
    hide *;
    SplitLow(c);
    ShiftsLinear(Word(Low(c)), High(c), 8);
    HighMoves(c);
  }

  /** The byte step of the macro DO1, given the table entry for the byte. */
  lemma FeedByTable(c: bv32, b: bv8)
    ensures Feed(c, b) == Xor(Shifts(Word(Low(c) ^ b), 8), Down8(c))
  {
    hide Xor;
    hide Shifts;
    hide Low;
    hide Word;
    hide Down8;
    ShiftsByte(Xor(c, Word(b)));
    FeedSplits(c, b);
  }

  /* ---------- four bytes at a time ---------- */

  function Byte1(c: bv32): bv8 { ((c >> 8) & 0xff) as bv8 }

  function Byte2(c: bv32): bv8 { ((c >> 16) & 0xff) as bv8 }

  function Byte3(c: bv32): bv8 { (c >> 24) as bv8 }

  function Up8(b: bv8): bv32 { Word(b) << 8 }

  function Up16(b: bv8): bv32 { Word(b) << 16 }

  function Up24(b: bv8): bv32 { Word(b) << 24 }

  /** The word a little-endian machine loads from four bytes. */
  function Little(b0: bv8, b1: bv8, b2: bv8, b3: bv8): bv32 {
    (b0 as bv32) | ((b1 as bv32) << 8) | ((b2 as bv32) << 16) | ((b3 as bv32) << 24)
  }

  /** The word a big-endian machine loads from four bytes. */
  function Big(b0: bv8, b1: bv8, b2: bv8, b3: bv8): bv32 {
    ((b0 as bv32) << 24) | ((b1 as bv32) << 16) | ((b2 as bv32) << 8) | (b3 as bv32)
  }

  /** Bytes in different places add without carries. */
  lemma Places(b0: bv8, b1: bv8, b2: bv8, b3: bv8)
    ensures (b0 as bv32) | ((b1 as bv32) << 8) | ((b2 as bv32) << 16) | ((b3 as bv32) << 24) ==
      (b0 as bv32) ^ ((b1 as bv32) << 8) ^ ((b2 as bv32) << 16) ^ ((b3 as bv32) << 24)
  {
  }

  lemma LittleIsSum(b0: bv8, b1: bv8, b2: bv8, b3: bv8)
    ensures Little(b0, b1, b2, b3) == Xor(Xor(Xor(Word(b0), Up8(b1)), Up16(b2)), Up24(b3))
  {
    Places(b0, b1, b2, b3);
  }

  lemma Bytes(c: bv32)
    ensures c == Xor(Xor(Xor(Word(Low(c)), Up8(Byte1(c))), Up16(Byte2(c))), Up24(Byte3(c)))
  {
  }

  lemma UpFacts(b: bv8)
    ensures Low(Up8(b)) == 0 && Down8(Up8(b)) == Word(b) && Low(Up16(b)) == 0 && Down8(Up16(b)) == Up8(b)
    ensures Low(Up24(b)) == 0 && Down8(Up24(b)) == Up16(b) && Word(0) == 0
  {
  }

  lemma {:induction false} ZeroShifts(n: nat)
    ensures Shifts(0, n) == 0
    decreases n
  {
    if n > 0 { ZeroShifts(n - 1); }
  }

  /** A byte that stands higher in the register comes down unchanged. */
  lemma ComeDown(b: bv8)
    ensures Shifts(Up8(b), 8) == Word(b) && Shifts(Up16(b), 16) == Word(b) && Shifts(Up24(b), 24) == Word(b)
  {
    hide *;
    UpFacts(b);
    ZeroShifts(8);
    ShiftsByte(Up8(b));
    ShiftsByte(Up16(b));
    ShiftsByte(Up24(b));
    Zero(Word(b));
    Zero(Up8(b));
    Zero(Up16(b));
    ShiftsMore(Up16(b), 8, 8);
    ShiftsMore(Up24(b), 8, 16);
  }

  /** A byte fed after n shifts is one added n places up before them. */
  lemma FeedLater(y: bv32, u: bv32, b: bv8, n: nat)
    requires Shifts(u, n) == Word(b)
    ensures Feed(Shifts(y, n), b) == Shifts(Xor(y, u), n + 8)
  {
    hide Shifts;
    hide Xor;
    hide Word;
    ShiftsLinear(y, u, n);
    ShiftsMore(Xor(y, u), n, 8);
  }

  ghost function FourFed(c: bv32, b0: bv8, b1: bv8, b2: bv8, b3: bv8): bv32 {
    Feed(Feed(Feed(Feed(c, b0), b1), b2), b3)
  }

  /** Four bytes are fed by adding them as a word and shifting by thirty-two. */
  lemma FourAtOnce(c: bv32, b0: bv8, b1: bv8, b2: bv8, b3: bv8)
    ensures FourFed(c, b0, b1, b2, b3) == Shifts(Xor(c, Little(b0, b1, b2, b3)), 32)
  {
    hide *;
    FourFedIs(c, b0, b1, b2, b3);
    ComeDown(b1);
    ComeDown(b2);
    ComeDown(b3);
    var x0, x1, x2, x3 := Word(b0), Up8(b1), Up16(b2), Up24(b3);
    FeedIs(c, b0);
    FeedLater(Xor(c, x0), x1, b1, 8);
    FeedLater(Xor(Xor(c, x0), x1), x2, b2, 16);
    FeedLater(Xor(Xor(Xor(c, x0), x1), x2), x3, b3, 24);
    LittleIsSum(b0, b1, b2, b3);
    Associates(c, x0, x1);
    Associates(c, Xor(x0, x1), x2);
    Associates(c, Xor(Xor(x0, x1), x2), x3);
  }

  lemma FourFedIs(c: bv32, b0: bv8, b1: bv8, b2: bv8, b3: bv8)
    ensures FourFed(c, b0, b1, b2, b3) == Feed(Feed(Feed(Feed(c, b0), b1), b2), b3)
  {
    hide Feed;
  }

  lemma FeedIs(c: bv32, b: bv8)
    ensures Feed(c, b) == Shifts(Xor(c, Word(b)), 8)
  {
  }

  /** Row k of the table: a byte followed by k zero bytes. */
  ghost function Row(k: nat, b: bv8): bv32 { Shifts(Word(b), 8 * k + 8) }

  ghost function Looked(x: bv32): bv32 {
    Xor(Xor(Xor(Row(3, Low(x)), Row(2, Byte1(x))), Row(1, Byte2(x))), Row(0, Byte3(x)))
  }

  /** The step of the macro DOLIT4: four table entries for thirty-two shifts. */
  lemma ShiftsWord(x: bv32)
    ensures Shifts(x, 32) == Looked(x)
  {
    hide *;
    LookedIs(x);
    Bytes(x);
    var x0, x1, x2, x3 := Word(Low(x)), Up8(Byte1(x)), Up16(Byte2(x)), Up24(Byte3(x));
    ShiftsLinear(Xor(Xor(x0, x1), x2), x3, 32);
    ShiftsLinear(Xor(x0, x1), x2, 32);
    ShiftsLinear(x0, x1, 32);
    ComeDown(Byte1(x));
    ComeDown(Byte2(x));
    ComeDown(Byte3(x));
    ShiftsMore(x1, 8, 24);
    ShiftsMore(x2, 16, 16);
    ShiftsMore(x3, 24, 8);
  }

  lemma LookedIs(x: bv32)
    ensures Looked(x) ==
      Xor(Xor(Xor(Shifts(Word(Low(x)), 32), Shifts(Word(Byte1(x)), 24)), Shifts(Word(Byte2(x)), 16)),
      Shifts(Word(Byte3(x)), 8))
  {
    hide Xor;
    hide Shifts;
    hide Word;
  }

  /* ---------- registers the other way round ---------- */

  /** ZSWAP32 */
  function Swap(c: bv32): bv32 {
    ((c >> 24) & 0xff) + ((c >> 8) & 0xff00) + ((c & 0xff00) << 8) + ((c & 0xff) << 24)
  }

  function Push8(c: bv32): bv32 { c << 8 }

  ghost function Turned(c: bv32): bv32 {
    (c >> 24) | ((c >> 8) & 0xff00) | ((c & 0xff00) << 8) | (c << 24)
  }

  lemma SwapIsTurned(c: bv32)
    ensures Swap(c) == Turned(c)
  {
  }

  lemma TurnedXor(a: bv32, b: bv32)
    ensures Turned(Xor(a, b)) == Xor(Turned(a), Turned(b))
  {
  }

  lemma TurnedTwice(a: bv32)
    ensures Turned(Turned(a)) == a
  {
  }

  lemma SwapXor(a: bv32, b: bv32)
    ensures Swap(Xor(a, b)) == Xor(Swap(a), Swap(b)) && Swap(Swap(a)) == a && Swap(Not(a)) == Not(Swap(a))
  {
    hide *;
    SwapIsTurned(a);
    SwapIsTurned(b);
    SwapIsTurned(Xor(a, b));
    SwapIsTurned(Turned(a));
    TurnedXor(a, b);
    TurnedTwice(a);
    SwapNot(a);
  }

  lemma SwapNot(a: bv32)
    ensures Swap(Not(a)) == Not(Swap(a))
  {
    hide Turned;
    hide Swap;
    TurnedXor(a, 0xffff_ffff);
    SwapIsTurned(a);
    SwapIsTurned(Not(a));
    SwapIsTurned(0xffff_ffff);
    assert Swap(0xffff_ffff) == 0xffff_ffff by { AllOnes(); }
  }

  lemma AllOnes()
    ensures Swap(0xffff_ffff) == 0xffff_ffff
  {
  }

  lemma SwapBytes(c: bv32)
    ensures Byte3(Swap(c)) == Low(c) && Byte2(Swap(c)) == Byte1(c) && Byte1(Swap(c)) == Byte2(c) &&
      Low(Swap(c)) == Byte3(c)
    ensures Swap(Down8(c)) == Push8(Swap(c))
  {
  }

  lemma SwapWord(b0: bv8, b1: bv8, b2: bv8, b3: bv8)
    ensures Big(b0, b1, b2, b3) == Swap(Little(b0, b1, b2, b3))
  {
  }

  lemma SwapFeed(c: bv32, b: bv8)
    ensures Swap(Feed(c, b)) == Xor(Swap(Row(0, Byte3(Swap(c)) ^ b)), Push8(Swap(c)))
  {
    hide *;
    FeedByTable(c, b);
    SwapBytes(c);
    RowIs(0, Low(c) ^ b);
    SwapXor(Row(0, Low(c) ^ b), Down8(c));
  }

  lemma RowIs(k: nat, b: bv8)
    ensures Row(k, b) == Shifts(Word(b), 8 * k + 8)
  {
  }

  ghost function LookedSwapped(y: bv32): bv32 {
    Xor(Xor(Xor(Swap(Row(0, Low(y))), Swap(Row(1, Byte1(y)))), Swap(Row(2, Byte2(y)))), Swap(Row(3, Byte3(y))))
  }

  /** The step of the macro DOBIG4, on the register as it stands in a big-endian machine. */
  lemma SwapLooked(x: bv32)
    ensures Swap(Looked(x)) == LookedSwapped(Swap(x))
  {
    hide *;
    SwapBytes(x);
    LookedParts(x);
    LookedSwappedParts(Swap(x));
    var r0, r1, r2, r3 := Row(0, Byte3(x)), Row(1, Byte2(x)), Row(2, Byte1(x)), Row(3, Low(x));
    SwapXor(Xor(Xor(r3, r2), r1), r0);
    SwapXor(Xor(r3, r2), r1);
    SwapXor(r3, r2);
    Reversed(Swap(r3), Swap(r2), Swap(r1), Swap(r0));
  }

  lemma LookedParts(x: bv32)
    ensures Looked(x) == Xor(Xor(Xor(Row(3, Low(x)), Row(2, Byte1(x))), Row(1, Byte2(x))), Row(0, Byte3(x)))
  {
    hide Row;
    hide Xor;
  }

  lemma LookedSwappedParts(y: bv32)
    ensures LookedSwapped(y) ==
      Xor(Xor(Xor(Swap(Row(0, Low(y))), Swap(Row(1, Byte1(y)))), Swap(Row(2, Byte2(y)))), Swap(Row(3, Byte3(y))))
  {
    hide Row;
    hide Xor;
    hide Swap;
  }

  lemma Reversed(a: bv32, b: bv32, c: bv32, d: bv32)
    ensures Xor(Xor(Xor(a, b), c), d) == Xor(Xor(Xor(d, c), b), a)
  {
    hide Xor;
    Commutes(Xor(Xor(a, b), c), d);
    Commutes(Xor(a, b), c);
    Commutes(a, b);
    Associates(d, c, Xor(b, a));
    Associates(Xor(d, c), b, a);
  }

  /* ---------- the tables ---------- */

  /** The pattern made of the terms of the polynomial, x^32 left out. */
  const TERMS: seq<bv8> := [0, 1, 2, 4, 5, 7, 8, 10, 11, 12, 16, 22, 23, 26]

  function Byte(n: nat): bv8
    requires n < 256
  {
    n as bv8
  }

  lemma ByteBack(b: bv8)
    ensures 0 <= b as int < 256 && Byte(b as int) == b
  {
  }

  /** Rows 4 to 7 are rows 0 to 3 with the bytes reversed. */
  ghost function Cell(k: nat, n: nat): bv32
    requires n < 256
  {
    if k < 4 then Row(k, Byte(n)) else Swap(Row(k - 4, Byte(n)))
  }

  /** The eight tables: bytes followed by up to three zero bytes, and the same with the bytes reversed. */
  ghost predicate Tables(t: array2<bv32>)
    reads t
  {
    t.Length0 == 8 && t.Length1 == 256 && forall k: nat, n: nat :: k < 8 && n < 256 ==> t[k, n] == Cell(k, n)
  }

  /** The first table only. */
  ghost predicate First(t: array2<bv32>, m: nat)
    requires t.Length0 == 8 && t.Length1 == 256 && m <= 256
    reads t
  {
    forall n: nat :: n < m ==> t[0, n] == Cell(0, n)
  }

  /** The loop over the bits of the polynomial. */
  method MakePoly() returns (poly: bv32)
    ensures poly == POLY
  {
    hide *;
    SumIsPoly();
    SumNext(0);
    poly := 0;
    var n := 0;
    while n < |TERMS|
      invariant 0 <= n <= |TERMS| && poly == Sum(TERMS, n)
    {
      SumNext(n);
      poly := poly | Term(TERMS[n]);
      n := n + 1;
    }
  }

  function Term(k: bv8): bv32 { if k < 32 then 1 << (31 - k) else 0 }

  ghost function Sum(terms: seq<bv8>, n: nat): bv32
    requires n <= |terms|
  {
    if n == 0 then 0 else Sum(terms, n - 1) | Term(terms[n - 1])
  }

  lemma SumNext(n: nat)
    requires n < |TERMS|
    ensures Sum(TERMS, n + 1) == Sum(TERMS, n) | Term(TERMS[n]) && Sum(TERMS, 0) == 0
  {
    hide Term;
  }

  lemma SumIsPoly()
    ensures Sum(TERMS, 14) == POLY && |TERMS| == 14
  {
    assert Sum(TERMS, 4) == 0xe800_0000;
    assert Sum(TERMS, 8) == 0xeda0_0000;
    assert Sum(TERMS, 11) == 0xedb8_8000;
  }

  lemma {:induction false} ShiftsLast(c: bv32, n: nat)
    ensures Shifts(c, n + 1) == Shift(Shifts(c, n)) && Shifts(c, 0) == c
    decreases n
  {
    hide Shift;
    if n > 0 { ShiftsLast(Shift(c), n - 1); }
  }

  /** What one byte of zeros does to the entry before, from the first table. */
  lemma RowNext(k: nat, b: bv8)
    ensures Row(k + 1, b) == Xor(Row(0, Low(Row(k, b))), Down8(Row(k, b)))
  {
    hide *;
    RowIs(k, b);
    RowIs(k + 1, b);
    RowIs(0, Low(Row(k, b)));
    ShiftsMore(Word(b), 8 * k + 8, 8);
    ShiftsByte(Row(k, b));
  }

  /** make_crc_table, first part: every byte value shifted out bit by bit. */
  method MakeFirst(t: array2<bv32>)
    requires t.Length0 == 8 && t.Length1 == 256
    modifies t
    ensures First(t, 256)
  {
    hide Xor;
    hide Half;
    hide Odd;
    hide Row;
    hide Swap;
    hide Shifts;
    hide Word;
    hide Byte;
    hide Low;
    hide Down8;
    var poly := MakePoly();
    var n := 0;
    while n < 256
      invariant 0 <= n <= 256 && First(t, n)
    {
      var c := Word(Byte(n));
      var k := 0;
      ShiftsLast(c, 0);
      while k < 8
        invariant 0 <= k <= 8 && c == Shifts(Word(Byte(n)), k) && First(t, n)
      {
        ShiftsLast(Word(Byte(n)), k);
        ShiftIs(c);
        c := if Odd(c) then Xor(poly, Half(c)) else Half(c);
        k := k + 1;
      }
      RowIs(0, Byte(n));
      t[0, n] := c;

      n := n + 1;
    }
  }

  lemma ShiftIs(c: bv32)
    ensures Shift(c) == if Odd(c) then Xor(POLY, Half(c)) else Half(c)
  {
  }

  ghost predicate Rest(t: array2<bv32>, m: nat)
    requires t.Length0 == 8 && t.Length1 == 256 && m <= 256
    reads t
  {
    forall k: nat, n: nat :: k < 8 && n < m ==> t[k, n] == Cell(k, n)
  }

  /** The inner loop of make_crc_table: one byte value, followed by one, two and three zeros. */
  method FillColumn(t: array2<bv32>, n: nat)
    requires t.Length0 == 8 && t.Length1 == 256 && n < 256 && First(t, 256) && Rest(t, n)
    modifies t
    ensures First(t, 256) && Rest(t, n + 1)
  {
    hide Xor;
    hide Row;
    hide Swap;
    hide Byte;
    hide Low;
    hide Down8;
    var c := t[0, n];
    t[4, n] := Swap(c);
    var k := 1;
    while k < 4
      invariant 1 <= k <= 4 && First(t, 256) && Rest(t, n) && c == Row(k - 1, Byte(n))
      invariant forall j: nat :: j < k || 4 <= j < 4 + k ==> t[j, n] == Cell(j, n)
    {
      ByteBack(Low(c));
      RowNext(k - 1, Byte(n));
      c := Xor(t[0, Low(c) as int], Down8(c));
      t[k, n] := c;
      t[k + 4, n] := Swap(c);
      k := k + 1;
    }
  }

  /** make_crc_table */
  method MakeCrcTable() returns (t: array2<bv32>)
    ensures fresh(t) && Tables(t)
  {
    hide Row;
    hide Swap;
    t := new bv32[8, 256];
    MakeFirst(t);
    var n := 0;
    while n < 256
      invariant 0 <= n <= 256 && First(t, 256) && Rest(t, n)
    {
      FillColumn(t, n);
      n := n + 1;
    }
  }

  /* ---------- the loops ---------- */

  /** One table entry. */
  method Look(t: array2<bv32>, k: nat, b: bv8) returns (c: bv32)
    requires Tables(t) && k < 8
    ensures k < 4 ==> c == Row(k, b)
    ensures k >= 4 ==> c == Swap(Row(k - 4, b))
  {
    hide Row;
    hide Swap;
    hide Byte;
    ByteBack(b);
    c := t[k, b as int];
  }

  /** The macro DO1. */
  method OneByte(t: array2<bv32>, c: bv32, b: bv8) returns (d: bv32)
    requires Tables(t)
    ensures d == Feed(c, b)
  {
    hide *;
    FeedByTable(c, b);
    RowIs(0, Low(c) ^ b);
    var e := Look(t, 0, Low(c) ^ b);
    d := Xor(e, Down8(c));
  }

  /** The macro DOLIT4. */
  method FourLittle(t: array2<bv32>, c: bv32, buf: seq<bv8>, i: nat) returns (d: bv32)
    requires Tables(t) && i + 4 <= |buf|
    ensures d == FourFed(c, buf[i], buf[i + 1], buf[i + 2], buf[i + 3])
  {
    hide *;
    var x := Xor(c, Little(buf[i], buf[i + 1], buf[i + 2], buf[i + 3]));
    FourAtOnce(c, buf[i], buf[i + 1], buf[i + 2], buf[i + 3]);
    ShiftsWord(x);
    LookedParts(x);
    var e3 := Look(t, 3, Low(x));
    var e2 := Look(t, 2, Byte1(x));
    var e1 := Look(t, 1, Byte2(x));
    var e0 := Look(t, 0, Byte3(x));
    d := Xor(Xor(Xor(e3, e2), e1), e0);
  }

  /** The byte step of crc32_big. */
  method OneByteBig(t: array2<bv32>, c: bv32, b: bv8, ghost x: bv32) returns (d: bv32)
    requires Tables(t) && c == Swap(x)
    ensures d == Swap(Feed(x, b))
  {
    hide *;
    SwapFeed(x, b);
    var e := Look(t, 4, Byte3(c) ^ b);
    d := Xor(e, Push8(c));
  }

  /** The macro DOBIG4. */
  method FourBig(t: array2<bv32>, c: bv32, buf: seq<bv8>, i: nat, ghost x: bv32) returns (d: bv32)
    requires Tables(t) && i + 4 <= |buf| && c == Swap(x)
    ensures d == Swap(FourFed(x, buf[i], buf[i + 1], buf[i + 2], buf[i + 3]))
  {
    hide *;
    ghost var w := Little(buf[i], buf[i + 1], buf[i + 2], buf[i + 3]);
    SwapWord(buf[i], buf[i + 1], buf[i + 2], buf[i + 3]);
    SwapXor(x, w);
    FourAtOnce(x, buf[i], buf[i + 1], buf[i + 2], buf[i + 3]);
    ShiftsWord(Xor(x, w));
    SwapLooked(Xor(x, w));
    var y := Xor(c, Big(buf[i], buf[i + 1], buf[i + 2], buf[i + 3]));
    LookedSwappedParts(y);
    var e4 := Look(t, 4, Low(y));
    var e5 := Look(t, 5, Byte1(y));
    var e6 := Look(t, 6, Byte2(y));
    var e7 := Look(t, 7, Byte3(y));
    d := Xor(Xor(Xor(e4, e5), e6), e7);
  }

  lemma {:induction false} FedMore(c: bv32, s: seq<bv8>, i: nat)
    requires i < |s|
    ensures Fed(c, s[..i + 1]) == Feed(Fed(c, s[..i]), s[i]) && Fed(c, []) == c
    decreases i
  {
    hide Feed;
    if i > 0 {
      FedMore(Feed(c, s[0]), s[1..], i - 1);
      assert s[..i + 1][1..] == s[1..][..i] && s[..i][1..] == s[1..][..i - 1];
    }
  }

  lemma FedFour(c: bv32, s: seq<bv8>, i: nat)
    requires i + 4 <= |s|
    ensures Fed(c, s[..i + 4]) == FourFed(Fed(c, s[..i]), s[i], s[i + 1], s[i + 2], s[i + 3])
  {
    hide Fed;
    hide Feed;
    FedMore(c, s, i);
    FedMore(c, s, i + 1);
    FedMore(c, s, i + 2);
    FedMore(c, s, i + 3);
  }

  lemma FedNone(c: bv32, s: seq<bv8>)
    ensures Fed(c, s[..0]) == c && s[..|s|] == s
  {
  }

  /** crc32 where a word is not four bytes: eight bytes to a turn, then one. */
  method Crc32Bytes(t: array2<bv32>, crc0: bv32, buf: seq<bv8>) returns (crc: bv32)
    requires Tables(t)
    ensures crc == Updated(crc0, buf)
  {
    hide *;
    UpdatedIs(crc0, buf);
    FedNone(Not(crc0), buf);
    crc := Not(crc0);
    var i := 0;
    while |buf| - i >= 8
      invariant 0 <= i <= |buf| && crc == Fed(Not(crc0), buf[..i])
    {
      ghost var at := i;
      for k := 0 to 8
        invariant i == at + k && crc == Fed(Not(crc0), buf[..i])
      {
        FedMore(Not(crc0), buf, i);
        crc := OneByte(t, crc, buf[i]);
        i := i + 1;
      }
    }
    crc := RestOfBytes(t, crc0, buf, i, crc);
  }

  lemma UpdatedIs(crc: bv32, s: seq<bv8>)
    ensures Updated(crc, s) == Not(Fed(Not(crc), s))
  {
    hide Fed;
    hide Not;
  }

  /** The bytes left over, one by one. */
  method RestOfBytes(t: array2<bv32>, ghost crc0: bv32, buf: seq<bv8>, from: nat, c: bv32) returns (crc: bv32)
    requires Tables(t) && from <= |buf| && c == Fed(Not(crc0), buf[..from])
    ensures crc == Updated(crc0, buf)
  {
    hide *;
    UpdatedIs(crc0, buf);
    FedNone(Not(crc0), buf);
    crc := c;
    var i := from;
    while i < |buf|
      invariant from <= i <= |buf| && crc == Fed(Not(crc0), buf[..i])
    {
      FedMore(Not(crc0), buf, i);
      crc := OneByte(t, crc, buf[i]);
      i := i + 1;
    }
    crc := Not(crc);
  }

  /** crc32_little: bytes until the address is a multiple of four, then words, then bytes. */
  method Crc32Little(t: array2<bv32>, crc0: bv32, address: nat, buf: seq<bv8>) returns (crc: bv32)
    requires Tables(t)
    ensures crc == Updated(crc0, buf)
  {
    hide *;
    FedNone(Not(crc0), buf);
    var c := Not(crc0);
    var i := 0;
    while i < |buf| && (address + i) % 4 != 0
      invariant 0 <= i <= |buf| && c == Fed(Not(crc0), buf[..i])
    {
      FedMore(Not(crc0), buf, i);
      c := OneByte(t, c, buf[i]);
      i := i + 1;
    }
    while |buf| - i >= 32
      invariant 0 <= i <= |buf| && c == Fed(Not(crc0), buf[..i])
    {
      ghost var at := i;
      for k := 0 to 8
        invariant i == at + 4 * k && c == Fed(Not(crc0), buf[..i])
      {
        FedFour(Not(crc0), buf, i);
        c := FourLittle(t, c, buf, i);
        i := i + 4;
      }
    }
    while |buf| - i >= 4
      invariant 0 <= i <= |buf| && c == Fed(Not(crc0), buf[..i])
    {
      FedFour(Not(crc0), buf, i);
      c := FourLittle(t, c, buf, i);
      i := i + 4;
    }
    crc := RestOfBytes(t, crc0, buf, i, c);
  }

  /** crc32_big: the same on the register with its bytes reversed. */
  method Crc32Big(t: array2<bv32>, crc0: bv32, address: nat, buf: seq<bv8>) returns (crc: bv32)
    requires Tables(t)
    ensures crc == Updated(crc0, buf)
  {
    hide *;
    FedNone(Not(crc0), buf);
    SwapXor(crc0, crc0);
    var c := Not(Swap(crc0));
    var i := 0;
    while i < |buf| && (address + i) % 4 != 0
      invariant 0 <= i <= |buf| && c == Swap(Fed(Not(crc0), buf[..i]))
    {
      FedMore(Not(crc0), buf, i);
      c := OneByteBig(t, c, buf[i], Fed(Not(crc0), buf[..i]));
      i := i + 1;
    }
    while |buf| - i >= 32
      invariant 0 <= i <= |buf| && c == Swap(Fed(Not(crc0), buf[..i]))
    {
      ghost var at := i;
      for k := 0 to 8
        invariant i == at + 4 * k && c == Swap(Fed(Not(crc0), buf[..i]))
      {
        FedFour(Not(crc0), buf, i);
        c := FourBig(t, c, buf, i, Fed(Not(crc0), buf[..i]));
        i := i + 4;
      }
    }
    while |buf| - i >= 4
      invariant 0 <= i <= |buf| && c == Swap(Fed(Not(crc0), buf[..i]))
    {
      FedFour(Not(crc0), buf, i);
      c := FourBig(t, c, buf, i, Fed(Not(crc0), buf[..i]));
      i := i + 4;
    }
    while i < |buf|
      invariant 0 <= i <= |buf| && c == Swap(Fed(Not(crc0), buf[..i]))
    {
      FedMore(Not(crc0), buf, i);
      c := OneByteBig(t, c, buf[i], Fed(Not(crc0), buf[..i]));
      i := i + 1;
    }
    UpdatedIs(crc0, buf);
    SwapXor(Fed(Not(crc0), buf), 0);
    SwapXor(Not(Fed(Not(crc0), buf)), 0);
    crc := Swap(Not(c));
  }

  /** Where the bytes are, if anywhere. */
  datatype Pointer = Null | At(address: nat, bytes: seq<bv8>)

  /** crc32, on whatever machine. */
  method Crc32(t: array2<bv32>, crc0: bv32, buf: Pointer, byFour: bool, littleEndian: bool) returns (crc: bv32)
    requires Tables(t)
    ensures crc == if buf.Null? then 0 else Updated(crc0, buf.bytes)
  {
    hide *;
    if buf.Null? { return 0; }
    if byFour {
      if littleEndian {
        crc := Crc32Little(t, crc0, buf.address, buf.bytes);
      } else {
        crc := Crc32Big(t, crc0, buf.address, buf.bytes);
      }
    } else {
      crc := Crc32Bytes(t, crc0, buf.bytes);
    }
  }

  /** The nine digits, whose checksum is known from other implementations of this CRC. */
  lemma CheckValue()
    ensures Updated(0, [0x31, 0x32, 0x33, 0x34, 0x35, 0x36, 0x37, 0x38, 0x39]) == 0xcbf4_3926
  {
    hide Fed;
    hide Feed;
    Digits();
    var s: seq<bv8> := [0x31, 0x32, 0x33, 0x34, 0x35, 0x36, 0x37, 0x38, 0x39];
    FedOne(0xffff_ffff, s[0..]);
    assert s[0..][1..] == s[1..];
    FedOne(0x7c23_1048, s[1..]);
    assert s[1..][1..] == s[2..];
    FedOne(0xb0ac_bb32, s[2..]);
    assert s[2..][1..] == s[3..];
    FedOne(0x77b7_9c2d, s[3..]);
    assert s[3..][1..] == s[4..];
    FedOne(0x641c_1f5c, s[4..]);
    assert s[4..][1..] == s[5..];
    FedOne(0x340a_c5e3, s[5..]);
    assert s[5..][1..] == s[6..];
    FedOne(0xf68d_2c9e, s[6..]);
    assert s[6..][1..] == s[7..];
    FedOne(0xaffc_9660, s[7..]);
    assert s[7..][1..] == s[8..];
    FedOne(0x651f_2550, s[8..]);
    assert s[8..][1..] == s[9..];
    FedNone(0x340b_c6d9, s[9..]);
    assert s[0..] == s && s[9..] == [];
  }

  lemma FedOne(c: bv32, s: seq<bv8>)
    requires s != []
    ensures Fed(c, s) == Fed(Feed(c, s[0]), s[1..])
  {
    hide Feed;
  }

  lemma Digits()
    ensures Feed(0xffff_ffff, 0x31) == 0x7c23_1048
    ensures Feed(0x7c23_1048, 0x32) == 0xb0ac_bb32
    ensures Feed(0xb0ac_bb32, 0x33) == 0x77b7_9c2d
    ensures Feed(0x77b7_9c2d, 0x34) == 0x641c_1f5c
    ensures Feed(0x641c_1f5c, 0x35) == 0x340a_c5e3
    ensures Feed(0x340a_c5e3, 0x36) == 0xf68d_2c9e
    ensures Feed(0xf68d_2c9e, 0x37) == 0xaffc_9660
    ensures Feed(0xaffc_9660, 0x38) == 0x651f_2550
    ensures Feed(0x651f_2550, 0x39) == 0x340b_c6d9
  {
  }
}
