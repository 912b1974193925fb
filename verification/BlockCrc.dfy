/** The checksums of bzip2: a 32-bit CRC, most significant bit first, over the data of a block, and
    the combination of the block checksums by rotation and exclusive or. */
module BlockCrc {
  import opened Words32
  import Crc32

  const POLY: bv32 := 0x04c1_1db7

  function Double(c: bv32): bv32 { c << 1 }

  predicate Top(c: bv32) { c & 0x8000_0000 != 0 }

  /** The shift register takes one zero bit. */
  function Shift(c: bv32): bv32 {
    if Top(c) then Xor(Double(c), POLY) else Double(c)
  }

  function Shifts(c: bv32, n: nat): bv32
    decreases n
  {
    if n == 0 then c else Shifts(Shift(c), n - 1)
  }

  function InTop(b: bv32): bv32 { b << 24 }

  function TopByte(c: bv32): bv32 { c >> 24 }

  function PushByte(c: bv32): bv32 { c << 8 }

  /** By definition: the byte is added at the top and eight bits are shifted out. */
  ghost function Feed(crc: bv32, ch: bv32): bv32 {
    Shifts(Xor(crc, InTop(ch)), 8)
  }

  /** The table BZ2_crc32Table: what each top byte shifts to. */
  function TableEntry(i: bv32): bv32 {
    Shifts(InTop(i), 8)
  }

  /** BZ_UPDATE_CRC: one table access for eight shifts. */
  function Update(crc: bv32, ch: bv32): bv32 {
    Xor(PushByte(crc), TableEntry(Xor(TopByte(crc), ch)))
  }

  /* ---------- single bits ---------- */

  lemma DoubleXor(a: bv32, b: bv32)
    ensures Double(Xor(a, b)) == Xor(Double(a), Double(b))
  {
  }

  lemma TopXor(a: bv32, b: bv32)
    ensures Top(Xor(a, b)) <==> Top(a) != Top(b)
  {
  }

  ghost function Low(c: bv32): bv32 { c & 0x00ff_ffff }

  /** The low three bytes and the top byte. */
  lemma SplitTop(crc: bv32, ch: bv32)
    requires ch <= 0xff
    ensures Xor(crc, InTop(ch)) == Xor(Low(crc), InTop(Xor(TopByte(crc), ch)))
  {
  }

  /** Eight doublings of three bytes carry nothing out. */
  lemma Doublings(c: bv32)
    ensures var d := Low(c);
      var d1 := Double(d); var d2 := Double(d1); var d3 := Double(d2); var d4 := Double(d3);
      var d5 := Double(d4); var d6 := Double(d5); var d7 := Double(d6);
      !Top(d) && !Top(d1) && !Top(d2) && !Top(d3) && !Top(d4) && !Top(d5) && !Top(d6) && !Top(d7) &&
      Double(d7) == PushByte(c)
  {
  }

  /* ---------- the register is linear ---------- */

  lemma ShiftLinear(a: bv32, b: bv32)
    ensures Shift(Xor(a, b)) == Xor(Shift(a), Shift(b))
  {
    hide Xor;
    hide Double;
    hide Top;
    DoubleXor(a, b);
    TopXor(a, b);
    var x, y := Double(a), Double(b);
    Regroup(x, POLY, y, POLY);
    Cancels(POLY);
    Zero(Xor(x, y));
    Associates(x, y, POLY);
    Associates(x, POLY, y);
    Commutes(y, POLY);
  }

  lemma {:induction false} ShiftsLinear(a: bv32, b: bv32, n: nat)
    ensures Shifts(Xor(a, b), n) == Xor(Shifts(a, n), Shifts(b, n))
    decreases n
  {
    hide Xor;
    hide Shift;
    if n > 0 {
      ShiftLinear(a, b);
      ShiftsLinear(Shift(a), Shift(b), n - 1);
    }
  }

  lemma NoCarry(d: bv32, n: nat)
    requires n > 0 && !Top(d)
    ensures Shifts(d, n) == Shifts(Double(d), n - 1)
  {
    hide Double;
    hide Top;
    hide Xor;
  }

  /** The low three bytes just move up. */
  lemma LowMoves(c: bv32)
    ensures Shifts(Low(c), 8) == PushByte(c)
  {
    hide *;
    Doublings(c);
    var d := Low(c);
    var d1 := Double(d);
    var d2 := Double(d1);
    var d3 := Double(d2);
    var d4 := Double(d3);
    var d5 := Double(d4);
    var d6 := Double(d5);
    var d7 := Double(d6);
    NoCarry(d, 8);
    NoCarry(d1, 7);
    NoCarry(d2, 6);
    NoCarry(d3, 5);
    NoCarry(d4, 4);
    NoCarry(d5, 3);
    NoCarry(d6, 2);
    NoCarry(d7, 1);
    NoShifts(Double(d7));
  }

  lemma NoShifts(d: bv32)
    ensures Shifts(d, 0) == d
  {
  }

  /** The table-driven update is the definition. */
  lemma UpdateIsFeed(crc: bv32, ch: bv32)
    requires ch <= 0xff
    ensures Update(crc, ch) == Feed(crc, ch)
  {
    hide Xor;
    hide InTop;
    hide TopByte;
    hide PushByte;
    hide Shifts;
    hide Low;
    SplitTop(crc, ch);
    ShiftsLinear(Low(crc), InTop(Xor(TopByte(crc), ch)), 8);
    LowMoves(crc);
  }

  /* ---------- whole blocks ---------- */

  /** BZ_INITIALISE_CRC */
  const INITIAL: bv32 := 0xffff_ffff

  function ByteWord(ch: int): (w: bv32)
    requires 0 <= ch < 256
    ensures w <= 0xff
  {
    (ch as bv8) as bv32
  }

  /** The register after the bytes s. */
  ghost function Over(crc: bv32, s: seq<int>): (c: bv32)
    requires forall i :: 0 <= i < |s| ==> 0 <= s[i] < 256
  {
    if s == [] then crc else Update(Over(crc, s[..|s| - 1]), ByteWord(s[|s| - 1]))
  }

  ghost function Fed(crc: bv32, s: seq<int>): (c: bv32)
    requires forall i :: 0 <= i < |s| ==> 0 <= s[i] < 256
  {
    if s == [] then crc else Feed(Fed(crc, s[..|s| - 1]), ByteWord(s[|s| - 1]))
  }

  lemma {:induction false} OverIsFed(crc: bv32, s: seq<int>)
    requires forall i :: 0 <= i < |s| ==> 0 <= s[i] < 256
    ensures Over(crc, s) == Fed(crc, s)
    decreases |s|
  {
    hide Update;
    hide Feed;
    hide ByteWord;
    if s != [] {
      OverIsFed(crc, s[..|s| - 1]);
      UpdateIsFeed(Over(crc, s[..|s| - 1]), ByteWord(s[|s| - 1]));
    }
  }

  lemma {:induction false} OverConcat(crc: bv32, s: seq<int>, t: seq<int>)
    requires (forall i :: 0 <= i < |s| ==> 0 <= s[i] < 256) && forall i :: 0 <= i < |t| ==> 0 <= t[i] < 256
    ensures Over(crc, s + t) == Over(Over(crc, s), t)
    decreases |t|
  {
    hide Update;
    hide ByteWord;
    if t == [] {
      assert s + t == s;
    } else {
      assert (s + t)[..|s + t| - 1] == s + t[..|t| - 1];
      OverConcat(crc, s, t[..|t| - 1]);
    }
  }

  lemma OverOne(crc: bv32, s: seq<int>, ch: int)
    requires (forall i :: 0 <= i < |s| ==> 0 <= s[i] < 256) && 0 <= ch < 256
    ensures Over(crc, s + [ch]) == Update(Over(crc, s), ByteWord(ch)) && Over(crc, []) == crc
  {
    hide Update;
    hide ByteWord;
    assert (s + [ch])[..|s|] == s;
  }

  /** BZ_FINALISE_CRC */
  function Finalise(crc: bv32): bv32 { !crc }

  /** The combined checksum rotates before it takes in the next block's. */
  function Combine(combined: bv32, crc: bv32): bv32 {
    ((combined << 1) | (combined >> 31)) ^ crc
  }

  /** Rotated left n places. */
  ghost function Turned(c: bv32, n: nat): bv32 {
    if n == 0 then c else Turned(c, n - 1).RotateLeft(1)
  }

  /** The first i of n checksums: checksum j is rotated once for each of the n - 1 - j that follow it. */
  ghost function Mixed(crcs: seq<bv32>, i: nat, n: nat): (c: bv32)
    requires i <= |crcs| && i <= n
  {
    if i == 0 then 0 else Xor(Mixed(crcs, i - 1, n), Turned(crcs[i - 1], n - i))
  }

  /** The combined checksum of a stream, by definition. */
  ghost function Combined(crcs: seq<bv32>): (c: bv32) {
    Mixed(crcs, |crcs|, |crcs|)
  }

  ghost function Carry(c: bv32): bv32 { c >> 31 }

  lemma TurnParts(c: bv32)
    ensures c.RotateLeft(1) == Xor(Double(c), Carry(c))
  {
  }

  lemma CarryXor(a: bv32, b: bv32)
    ensures Carry(Xor(a, b)) == Xor(Carry(a), Carry(b))
  {
  }

  lemma TurnedXor(a: bv32, b: bv32)
    ensures Xor(a, b).RotateLeft(1) == Xor(a.RotateLeft(1), b.RotateLeft(1))
  {
    hide *;
    TurnParts(a);
    TurnParts(b);
    TurnParts(Xor(a, b));
    DoubleXor(a, b);
    CarryXor(a, b);
    Regroup(Double(a), Double(b), Carry(a), Carry(b));
  }

  lemma ZeroTurned()
    ensures (0 as bv32).RotateLeft(1) == 0
  {
  }

  lemma CombineIs(a: bv32, b: bv32)
    ensures Combine(a, b) == Xor(a.RotateLeft(1), b)
  {
  }

  /** One more block turns them all. */
  lemma {:induction false} MixedNext(crcs: seq<bv32>, i: nat, n: nat, c: bv32)
    requires i <= |crcs| && i <= n
    ensures Mixed(crcs + [c], i, n + 1) == Mixed(crcs, i, n).RotateLeft(1)
  {
    hide Xor;
    if i == 0 {
      ZeroTurned();
    } else {
      MixedNext(crcs, i - 1, n, c);
      TurnedXor(Mixed(crcs, i - 1, n), Turned(crcs[i - 1], n - i));
    }
  }

  lemma CombinedNext(crcs: seq<bv32>, c: bv32)
    ensures Combined(crcs + [c]) == Combine(Combined(crcs), c)
  {
    hide Combine;
    hide Xor;
    MixedNext(crcs, |crcs|, |crcs|, c);
    CombineIs(Combined(crcs), c);
  }

  lemma CombinedNone()
    ensures Combined([]) == 0
  {
  }

  /** The register as a number. */
  function Number(c: bv32): (n: nat)
    ensures n < 0x1_0000_0000
  {
    c as nat
  }

  /** The number's 32 bits are the register. */
  lemma NumberIs(c: bv32)
    ensures Number(c) as bv32 == c
  {
  }

  /** The polynomial is the sum of its terms below x^32, the lowest in the lowest bit. */
  ghost function Terms(n: nat): bv32
    requires n <= |Crc32.TERMS|
  {
    if n == 0 then 0 else Xor(Terms(n - 1), 1 << Crc32.TERMS[n - 1])
  }

  lemma PolyIsTerms()
    ensures |Crc32.TERMS| == 14 && Terms(14) == POLY
  {
    assert Terms(4) == 0x17;
    assert Terms(8) == 0x5b7;
    assert Terms(11) == 0x1_1db7;
  }

  /** The nine digits, whose checksum is known from other implementations of this CRC. */
  lemma CheckValue()
    ensures Finalise(Over(INITIAL, [0x31, 0x32, 0x33, 0x34, 0x35, 0x36, 0x37, 0x38, 0x39])) == 0xfc89_1918
  {
    hide Over;
    hide Fed;
    hide Feed;
    hide ByteWord;
    Digits();
    DigitWords();
    var s: seq<int> := [0x31, 0x32, 0x33, 0x34, 0x35, 0x36, 0x37, 0x38, 0x39];
    OverIsFed(INITIAL, s);
    FedNone(INITIAL, s);
    FedNext(INITIAL, s, 0);
    FedNext(INITIAL, s, 1);
    FedNext(INITIAL, s, 2);
    FedNext(INITIAL, s, 3);
    FedNext(INITIAL, s, 4);
    FedNext(INITIAL, s, 5);
    FedNext(INITIAL, s, 6);
    FedNext(INITIAL, s, 7);
    FedNext(INITIAL, s, 8);
  }

  lemma FedNone(crc: bv32, s: seq<int>)
    ensures Fed(crc, s[..0]) == crc && s[..|s|] == s
  {
  }

  lemma FedNext(crc: bv32, s: seq<int>, i: nat)
    requires (forall j :: 0 <= j < |s| ==> 0 <= s[j] < 256) && i < |s|
    ensures Fed(crc, s[..i + 1]) == Feed(Fed(crc, s[..i]), ByteWord(s[i]))
  {
    hide Feed;
    hide ByteWord;
    assert s[..i + 1][..i] == s[..i];
  }

  lemma Digits()
    ensures Feed(0xffff_ffff, 0x31) == 0x9efb_cf93
    ensures Feed(0x9efb_cf93, 0x32) == 0x3fec_5e6a
    ensures Feed(0x3fec_5e6a, 0x33) == 0xd952_f164
    ensures Feed(0xd952_f164, 0x34) == 0xa695_c4aa
    ensures Feed(0xa695_c4aa, 0x35) == 0xbd9a_b747
    ensures Feed(0xbd9a_b747, 0x36) == 0xd8f0_6c8f
    ensures Feed(0xd8f0_6c8f, 0x37) == 0x0d8a_14c4
    ensures Feed(0x0d8a_14c4, 0x38) == 0x49e3_c2fb
    ensures Feed(0x49e3_c2fb, 0x39) == 0x0376_e6e7
  {
  }

  lemma DigitWords()
    ensures ByteWord(0x31) == 0x31
    ensures ByteWord(0x32) == 0x32
    ensures ByteWord(0x33) == 0x33
    ensures ByteWord(0x34) == 0x34
    ensures ByteWord(0x35) == 0x35
    ensures ByteWord(0x36) == 0x36
    ensures ByteWord(0x37) == 0x37
    ensures ByteWord(0x38) == 0x38
    ensures ByteWord(0x39) == 0x39
  {
  }
}
