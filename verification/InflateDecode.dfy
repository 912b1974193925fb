/** inflate.c, from the bits of a block to its tokens: the bit buffer, and the states LEN to DISTEXT. */
module InflateDecode {
  import opened Bits
  import opened Counting
  import opened ByteSeq
  import opened InflateCodes
  import opened InflateTable
  import opened ReversedBits
  import opened CodeOrder
  import opened CanonicalCode

  /* ---------- streams of bits, the first the lowest ---------- */

  /** n bits, as a number. */
  datatype Stream = Stream(x: nat, n: nat)

  /** The n low bits of v, and then the rest. */
  ghost function Then(v: nat, n: nat, rest: Stream): Stream { Stream(v + Pow2(n) * rest.x, n + rest.n) }

  /** A stream without its first n bits. */
  ghost function Without(st: Stream, n: nat): Stream
    requires n <= st.n
  {
    Stream(High(st.x, n), st.n - n)
  }

  lemma ThenWithout(v: nat, n: nat, rest: Stream)
    requires v < Pow2(n)
    ensures Without(Then(v, n, rest), n) == rest && Low(Then(v, n, rest).x, n) == v
  {
    QuotientIs(v + Pow2(n) * rest.x, Pow2(n), rest.x, v);
  }

  /** Bytes as bits, the lowest of the first byte first. */
  ghost function LittleEnd(s: seq<int>): (x: nat)
    requires AreBytes(s)
  {
    if s == [] then 0 else s[0] + 256 * LittleEnd(s[1..])
  }

  /** hold, bits and the input. */
  class BitSource {
    var hold: nat
    var bits: nat
    var input: seq<int>

    ghost predicate Valid()
      reads this
    {
      AreBytes(input) && hold < Pow2(bits) && bits <= 32
    }

    ghost function Ahead(): Stream
      requires Valid()
      reads this
    {
      Then(hold, bits, Stream(LittleEnd(input), 8 * |input|))
    }

    constructor (input: seq<int>)
      requires AreBytes(input)
      ensures Valid() && Ahead() == Stream(LittleEnd(input), 8 * |input|) && bits == 0
    {
      hold, bits, this.input := 0, 0, input;
    }

    /** PULLBYTE */
    method PullByte() returns (ok: bool)
      requires Valid() && bits <= 24
      modifies this
      ensures Valid() && Ahead() == old(Ahead())
      ensures ok == (old(input) != []) && bits == old(bits) + (if ok then 8 else 0) &&
        |input| == |old(input)| - (if ok then 1 else 0)
    {
      if input == [] { return false; }
      PullIs(hold, bits, input);
      hold := hold + input[0] * Pow2(bits);
      bits := bits + 8;
      input := input[1..];
      ok := true;
    }

    /** BITS */
    function Peek(n: nat): nat
      reads this
    {
      hold % Pow2(n)
    }

    /** DROPBITS */
    method DropBits(n: nat)
      requires Valid() && n <= bits
      modifies this
      ensures Valid() && n <= old(Ahead()).n && Ahead() == Without(old(Ahead()), n) && bits == old(bits) - n &&
        input == old(input)
    {
      hide *;
      Parts();
      DropStream(hold, bits, n, Stream(LittleEnd(input), 8 * |input|));
      hold := High(hold, n);
      bits := bits - n;
      Intro();
    }

    lemma Parts()
      requires Valid()
      ensures AreBytes(input) && hold < Pow2(bits) && bits <= 32 &&
        Ahead() == Then(hold, bits, Stream(LittleEnd(input), 8 * |input|))
    {
    }

    lemma Intro()
      requires AreBytes(input) && hold < Pow2(bits) && bits <= 32
      ensures Valid() && Ahead() == Then(hold, bits, Stream(LittleEnd(input), 8 * |input|))
    {
    }

    /** The bits at hand are the first of the stream; without more input they are all of it. */
    lemma HoldIs()
      requires Valid()
      ensures hold == Low(Ahead().x, bits) && bits <= Ahead().n && bits <= 32 &&
        (input == [] ==> Ahead() == Stream(hold, bits))
      ensures AreBytes(input) && hold < Pow2(bits)
    {
      hide Pow2;
      hide LittleEnd;
      QuotientIs(hold + Pow2(bits) * LittleEnd(input), Pow2(bits), LittleEnd(input), hold);
      if input == [] { NoBytes(); }
    }

    lemma PeekIs(n: nat)
      requires Valid() && n <= bits
      ensures Peek(n) == Low(Ahead().x, n)
    {
      LowOfSum(hold, bits, n, LittleEnd(input));
    }
  }

  lemma NoBytes()
    ensures AreBytes([]) && LittleEnd([]) == 0
  {
  }

  lemma PullIs(hold: nat, bits: nat, input: seq<int>)
    requires AreBytes(input) && input != [] && hold < Pow2(bits)
    ensures AreBytes(input[1..]) && hold + input[0] * Pow2(bits) < Pow2(bits + 8)
    ensures hold + Pow2(bits) * LittleEnd(input) ==
      hold + input[0] * Pow2(bits) + Pow2(bits + 8) * LittleEnd(input[1..])
  {
    Pow2Sum(bits, 8);
    assert Pow2(8) == 256;
    var p, b, r := Pow2(bits), input[0], LittleEnd(input[1..]);
    Distribute3(p, b, 256 * r);
    Regroup3(p, 256, r);
    BelowTop(hold, b, p);
  }

  lemma Distribute3(p: int, a: int, b: int)
    ensures p * (a + b) == a * p + p * b
  {
  }

  lemma Regroup3(p: int, a: int, b: int)
    ensures p * (a * b) == p * a * b
  {
  }

  lemma BelowTop(h: nat, b: nat, p: nat)
    requires h < p && b < 256
    ensures h + b * p < p * 256
  {
    assert (255 - b) * p >= 0;
    assert (255 - b) * p == 255 * p - b * p;
  }

  lemma DropIs(hold: nat, bits: nat, n: nat, r: nat)
    requires n <= bits && hold < Pow2(bits)
    ensures hold / Pow2(n) < Pow2(bits - n)
    ensures (hold + Pow2(bits) * r) / Pow2(n) == hold / Pow2(n) + Pow2(bits - n) * r
  {
    Pow2Sum(n, bits - n);
    var p, q := Pow2(n), Pow2(bits - n);
    DivMod(hold, p);
    QuotientLess(hold, q, p);
    Regroup3(p, q, r);
    Gather(hold / p, p, q * r, hold % p);
    QuotientIs(hold + p * q * r, p, hold / p + q * r, hold % p);
  }

  lemma Gather(a: int, p: int, b: int, m: int)
    ensures a * p + m + p * b == (a + b) * p + m
  {
  }

  lemma DropStream(hold: nat, bits: nat, n: nat, rest: Stream)
    requires n <= bits && hold < Pow2(bits)
    ensures High(hold, n) < Pow2(bits - n) && Then(hold, bits, rest).n >= n
    ensures Without(Then(hold, bits, rest), n) == Then(High(hold, n), bits - n, rest)
  {
    hide Pow2;
    DropIs(hold, bits, n, rest.x);
  }

  lemma LowOfSum(hold: nat, bits: nat, n: nat, r: nat)
    requires n <= bits
    ensures (hold + Pow2(bits) * r) % Pow2(n) == hold % Pow2(n)
  {
    Pow2Sum(n, bits - n);
    var p, q := Pow2(n), Pow2(bits - n);
    DivMod(hold, p);
    Regroup3(p, q, r);
    Gather(hold / p, p, q * r, hold % p);
    QuotientIs(hold + p * q * r, p, hold / p + q * r, hold % p);
  }

  /* ---------- the tables ---------- */

  /** The code is complete, or it is a single code of one bit, and the slot for the other bit is marked. */
  ghost predicate Whole(t: seq<Entry>, lens: seq<int>, root: nat) {
    Taken(lens) == Pow2(MAXBITS) ||
    (Taken(lens) < Pow2(MAXBITS) && root == 1 && 2 <= |t| && t[1] == Invalid(1) && forall i ::
    0 <= i < |lens| ==> lens[i] <= 1)
  }

  /** What a call of inflate_table that returns 0 leaves behind. */
  ghost predicate Built(t: seq<Entry>, typ: CodeType, lens: seq<int>, root: nat, used: nat) {
    1 <= root <= 15 && Pow2(root) <= used <= |t| && AllLens(lens, typ) &&
    (NoCode(t, lens, root) || (Total(lens) > 0 && Decodes(t, typ, lens, root, used) && Whole(t, lens, root)))
  }

  /** The tables for no code at all. */
  ghost predicate NoCode(t: seq<Entry>, lens: seq<int>, root: nat) {
    Total(lens) == 0 && root == 1 && 2 <= |t| && t[0] == Invalid(1) && t[1] == Invalid(1)
  }

  /** Reading the tables by h is safe. */
  ghost predicate Safe(t: seq<Entry>, root: nat, h: nat) {
    Pow2(root) <= |t| && SafeAt(t, t[Low(h, root)])
  }

  ghost predicate SafeAt(t: seq<Entry>, e: Entry) {
    1 <= e.op <= 15 ==> 0 <= e.bits && 0 <= e.val && e.val + Pow2(e.op) <= |t|
  }

  /** By h, the tables give symbol s and the length of its code. */
  ghost predicate Gives(t: seq<Entry>, typ: CodeType, lens: seq<int>, root: nat, h: nat, s: nat) {
    Safe(t, root, h) && s < |lens| && s < Symbols(typ) && Lookup(t, root, h).bits == lens[s] &&
    Lookup(t, root, h).here == EntryOf(typ, s, Lookup(t, root, h).here.bits)
  }

  lemma BuiltParts(t: seq<Entry>, typ: CodeType, lens: seq<int>, root: nat, used: nat)
    requires Built(t, typ, lens, root, used)
    ensures 1 <= root <= 15 && Pow2(root) <= used <= |t| && AllLens(lens, typ)
    ensures Total(lens) > 0 ==> Decodes(t, typ, lens, root, used) && Whole(t, lens, root)
    ensures Total(lens) == 0 ==> NoCode(t, lens, root)
  {
    hide Decodes;
    hide Whole;
    hide Total;
    hide AllLens;
    hide Pow2;
  }

  lemma GivesCode(t: seq<Entry>, typ: CodeType, lens: seq<int>, root: nat, used: nat, h: nat, s: nat)
    requires Built(t, typ, lens, root, used) && StartsWith(lens, s, h) && s < Symbols(typ) && lens[s] <= MAXBITS
    ensures Gives(t, typ, lens, root, h, s)
  {
    hide *;
    BuiltParts(t, typ, lens, root, used);
    HasCode(lens, s, h);
    SomeTotal(lens, s);
    TablesDecode(t, typ, lens, root, used, s, h);
    GivesIntro(t, typ, lens, root, h, s);
  }

  lemma SomeTotal(lens: seq<int>, s: nat)
    requires s < |lens| && 1 <= lens[s] <= MAXBITS
    ensures Total(lens) > 0
  {
    hide *;
    TotalIs(lens);
    var k := OrderHas(lens, MAXBITS, s);
  }

  lemma NoneOf(lens: seq<int>, typ: CodeType)
    requires Total(lens) == 0 && AllLens(lens, typ)
    ensures forall i :: 0 <= i < |lens| ==> lens[i] <= 1
  {
    hide *;
    forall i | 0 <= i < |lens| ensures lens[i] <= 1 {
      LengthSmall(lens, typ, i);
      if lens[i] >= 1 { SomeTotal(lens, i); }
    }
  }

  lemma NoCodeAt(t: seq<Entry>, lens: seq<int>, root: nat, h: nat)
    requires NoCode(t, lens, root)
    ensures Safe(t, root, h) && Pow2(root) <= |t| && t[Low(h, root)] == Invalid(1) &&
      Lookup(t, root, h) == Hit(Invalid(1), 1)
  {
    assert Pow2(1) == 2;
    OneBitOf(h);
  }

  lemma GivesIntro(t: seq<Entry>, typ: CodeType, lens: seq<int>, root: nat, h: nat, s: nat)
    requires Pow2(root) <= |t| && s < |lens| && s < Symbols(typ)
    requires var e := t[Low(h, root)]; 1 <= e.op <= 15 ==> 0 <= e.bits && 0 <= e.val && e.val + Pow2(e.op) <= |t|
    requires var r := Lookup(t, root, h); r.bits == lens[s] && r.here == EntryOf(typ, s, r.here.bits)
    ensures Gives(t, typ, lens, root, h, s)
  {
    hide Pow2;
    hide Lookup;
    hide EntryOf;
  }

  /** With one code of one bit, that bit is 0. */
  lemma OneCode(lens: seq<int>)
    requires Total(lens) > 0 && (forall i :: 0 <= i < |lens| ==> lens[i] <= 1)
    ensures Size(lens, 0) == 1 && Huff(lens, 0) == 0
  {
    StandingLen(lens, MAXBITS, 0);
    FirstHuff(lens);
  }

  /** What is found by h is a code that h starts with, or no code at all. */
  lemma FindSome(t: seq<Entry>, typ: CodeType, lens: seq<int>, root: nat, used: nat, h: nat)
      returns (some: bool, s: nat)
    requires Built(t, typ, lens, root, used)
    ensures Safe(t, root, h)
    ensures some ==>
      StartsWith(lens, s, h) && s < Symbols(typ) && 1 <= lens[s] <= MAXBITS && Gives(t, typ, lens, root, h, s)
    ensures !some ==> Pow2(root) <= |t| && t[Low(h, root)] == Invalid(1) && Lookup(t, root, h) == Hit(Invalid(1), 1)
    ensures !some ==> (forall i :: 0 <= i < |lens| ==> lens[i] <= 1) && forall i: nat :: !StartsWith(lens, i, h)
  {
    hide *;
    BuiltParts(t, typ, lens, root, used);
    some := true;
    if Total(lens) == 0 {
      some := false;
      s := 0;
      NoneOf(lens, typ);
      NoCodeAt(t, lens, root, h);
      NoneStarting(lens, typ, h);
    } else if Taken(lens) == Pow2(MAXBITS) {
      s := EveryBufferDecodes(lens, typ, h);
    } else {
      WholeOne(t, lens, root);
      OneCode(lens);
      OneBitOf(h);
      if Low(h, 1) == 0 {
        TotalIs(lens);
        s := Order(lens, MAXBITS)[0];
        SizeIs(lens, 0, s);
        CodeAt(lens, typ, 0, s, h);
        SymbolSmall(lens, typ, 0);
      } else {
        some := false;
        s := 0;
        MarkedAt(t, h);
        OtherBit(lens, h);
      }
    }
    if some {
      HasCode(lens, s, h);
      LengthSmall(lens, typ, s);
      GivesCode(t, typ, lens, root, used, h, s);
      GivesSafe(t, typ, lens, root, h, s);
    }
  }

  lemma NoneStarting(lens: seq<int>, typ: CodeType, h: nat)
    requires Total(lens) == 0 && AllLens(lens, typ)
    ensures forall i: nat :: !StartsWith(lens, i, h)
  {
    hide *;
    forall i: nat | StartsWith(lens, i, h) ensures false {
      HasCode(lens, i, h);
      LengthSmall(lens, typ, i);
      SomeTotal(lens, i);
    }
  }

  /** A code of one bit that leaves room is the only one, and it is 0. */
  lemma LoneCode(lens: seq<int>, s: nat)
    requires Taken(lens) < Pow2(MAXBITS) && s < |lens| && lens[s] == 1
    ensures Code(lens, s) == 0
  {
    hide Space;
    hide Count;
    EndIsSpace(lens, 1, MAXBITS);
    SpaceMonotone(lens, |lens|, 1, MAXBITS, MAXBITS);
    assert Pow2(MAXBITS) == 2 * Pow2(MAXBITS - 1);
    CountPositive(lens, s);
    AtMostOne(Count(lens, |lens|, 1), Pow2(MAXBITS - 1));
  }

  lemma AtMostOne(n: nat, p: nat)
    requires n * p < 2 * p
    ensures n <= 1
  {
    if n >= 2 { Scaled(n, 2, p); }
  }

  lemma Scaled(a: nat, b: nat, p: nat)
    requires a >= b
    ensures a * p >= b * p
  {
  }

  /** The other bit starts no code. */
  lemma OtherBit(lens: seq<int>, h: nat)
    requires Taken(lens) < Pow2(MAXBITS) && (forall i :: 0 <= i < |lens| ==> lens[i] <= 1) && Low(h, 1) == 1
    ensures forall i: nat :: !StartsWith(lens, i, h)
  {
    hide *;
    forall i: nat | StartsWith(lens, i, h) ensures false {
      HasCode(lens, i, h);
      LoneCode(lens, i);
      StartsZero(lens, i, h);
    }
  }

  lemma StartsZero(lens: seq<int>, s: nat, h: nat)
    requires StartsWith(lens, s, h) && lens[s] == 1 && Code(lens, s) == 0
    ensures Low(h, 1) == 0
  {
    hide Code;
    hide Low;
    assert Rev(0, 1) == 0;
  }

  lemma LengthSmall(lens: seq<int>, typ: CodeType, s: nat)
    requires AllLens(lens, typ) && s < |lens|
    ensures 0 <= lens[s] <= MAXBITS
  {
  }

  lemma GivesSafe(t: seq<Entry>, typ: CodeType, lens: seq<int>, root: nat, h: nat, s: nat)
    requires Gives(t, typ, lens, root, h, s)
    ensures Safe(t, root, h) && s < |lens| && s < Symbols(typ) && Lookup(t, root, h).bits == lens[s]
    ensures Lookup(t, root, h).here == EntryOf(typ, s, Lookup(t, root, h).here.bits)
  {
    hide Pow2;
    hide Lookup;
    hide EntryOf;
  }

  lemma WholeOne(t: seq<Entry>, lens: seq<int>, root: nat)
    requires Whole(t, lens, root) && Taken(lens) != Pow2(MAXBITS)
    ensures Taken(lens) < Pow2(MAXBITS) && root == 1 && 2 <= |t| && t[1] == Invalid(1) && forall i ::
      0 <= i < |lens| ==> lens[i] <= 1
  {
  }

  lemma OneBitOf(h: nat)
    ensures Low(h, 1) == 0 || Low(h, 1) == 1
  {
    assert Pow2(1) == 2;
  }

  lemma MarkedAt(t: seq<Entry>, h: nat)
    requires 2 <= |t| && t[1] == Invalid(1) && Low(h, 1) == 1
    ensures Safe(t, 1, h) && Pow2(1) <= |t| && t[Low(h, 1)] == Invalid(1) && Lookup(t, 1, h) == Hit(Invalid(1), 1)
  {
    assert Pow2(1) == 2;
  }

  /** A link stands for the root bits, and the code found through it is longer. */
  lemma LinkBits(t: seq<Entry>, typ: CodeType, lens: seq<int>, root: nat, used: nat, h: nat, s: nat)
    requires Built(t, typ, lens, root, used) && StartsWith(lens, s, h) && s < Symbols(typ) && lens[s] <= MAXBITS
    ensures Pow2(root) <= |t| && (1 <= t[Low(h, root)].op <= 15 ==> t[Low(h, root)].bits == root < lens[s])
    ensures !(1 <= t[Low(h, root)].op <= 15) ==> t[Low(h, root)].bits == lens[s]
  {
    hide *;
    BuiltParts(t, typ, lens, root, used);
    HasCode(lens, s, h);
    SomeTotal(lens, s);
    TotalIs(lens);
    var k := OrderHas(lens, MAXBITS, s);
    SizeIs(lens, k, s);
    CodeAt(lens, typ, k, s, h);
    DecodesAt(t, typ, lens, root, used, k);
    FoundSlot(t, typ, lens, root, used, k, h);
  }

  lemma FoundSlot(t: seq<Entry>, typ: CodeType, lens: seq<int>, root: nat, used: nat, k: nat, h: nat)
    requires k < Total(lens) && AllLens(lens, typ) && Found(t, typ, lens, root, used, k) && Pow2(root) <= |t|
    requires Low(h, Size(lens, k)) == Huff(lens, k)
    ensures 1 <= t[Low(h, root)].op <= 15 ==> t[Low(h, root)].bits == root < Size(lens, k)
    ensures !(1 <= t[Low(h, root)].op <= 15) ==> t[Low(h, root)].bits == Size(lens, k)
  {
    hide Size;
    hide Huff;
    hide Leaf;
    hide Pow2;
    var n := Size(lens, k);
    ModOf(h, root);
    if n <= root {
      LowBits(h, n, root);
      assert t[Low(h, root)] == Leaf(lens, typ, k, n);
    } else {
      LowBits(h, root, n);
    }
  }

  /** Whatever the bits at hand, a table entry stands for at most fifteen of them, and for at least one. */
  lemma EntryBits(t: seq<Entry>, typ: CodeType, lens: seq<int>, root: nat, used: nat, h: nat)
    requires Built(t, typ, lens, root, used)
    ensures Safe(t, root, h) && Pow2(root) <= |t| && 1 <= Lookup(t, root, h).bits <= 15
    ensures var e := t[Low(h, root)];
      1 <= e.bits <= 15 && (1 <= e.op <= 15 ==> e.bits == root && Lookup(t, root, h).here.bits >= 1)
    ensures !(1 <= Lookup(t, root, h).here.op <= 15)
  {
    hide *;
    BuiltParts(t, typ, lens, root, used);
    var some, s := FindSome(t, typ, lens, root, used, h);
    SafeIs(t, root, h);
    LookupIs(t, root, h);
    if some {
      LinkBits(t, typ, lens, root, used, h, s);
      GivesSafe(t, typ, lens, root, h, s);
    } else {
      InvalidIs();
    }
    LengthsBound();
  }

  lemma InvalidIs()
    ensures Invalid(1) == Entry(64, 1, 0)
  {
  }

  lemma SafeIs(t: seq<Entry>, root: nat, h: nat)
    requires Safe(t, root, h)
    ensures Pow2(root) <= |t| && Low(h, root) < |t|
    ensures var e := t[Low(h, root)]; 1 <= e.op <= 15 ==> 0 <= e.bits && 0 <= e.val && e.val + Pow2(e.op) <= |t|
  {
    ModOf(h, root);
  }

  lemma LookupIs(t: seq<Entry>, root: nat, h: nat)
    requires Safe(t, root, h) && Pow2(root) <= |t| && Low(h, root) < |t|
    ensures var e := t[Low(h, root)];
      if 1 <= e.op <= 15 then
        0 <= e.bits && 0 <= e.val && e.val + Low(High(h, e.bits), e.op) < |t| &&
        var f := t[e.val + Low(High(h, e.bits), e.op)]; Lookup(t, root, h) == Hit(f, e.bits + f.bits)
      else Lookup(t, root, h) == Hit(e, e.bits)
  {
    var e := t[Low(h, root)];
    if 1 <= e.op <= 15 { ModOf(High(h, e.bits), e.op); }
  }

  /* ---------- one symbol ---------- */

  datatype Status = Fine | Short | Bad | BlockEnd

  /** The stream starts with the code of symbol s, which rest follows. */
  ghost predicate Comes(lens: seq<int>, typ: CodeType, s: nat, st: Stream, rest: Stream) {
    s < |lens| && s < Symbols(typ) && 1 <= lens[s] <= MAXBITS && lens[s] <= st.n && StartsWith(lens, s, st.x) &&
    rest == Without(st, lens[s])
  }

  /** What is left of the stream ends before any code is whole: nothing at all, if some bits start no code. */
  ghost predicate Starved(lens: seq<int>, st: Stream) {
    (forall s: nat :: StartsWith(lens, s, st.x) ==> lens[s] > st.n) && (Taken(lens) == Pow2(MAXBITS) || st.n == 0)
  }

  /** The next bit starts no code. */
  ghost predicate NoneStarts(lens: seq<int>, st: Stream) {
    st.n >= 1 && (forall i :: 0 <= i < |lens| ==> lens[i] <= 1) && forall s: nat :: !StartsWith(lens, s, st.x)
  }

  /** A code that cannot be read because the tables want more bits than there are. */
  lemma IsStarved(t: seq<Entry>, typ: CodeType, lens: seq<int>, root: nat, used: nat, st: Stream)
    requires Built(t, typ, lens, root, used) && Safe(t, root, st.x) && Lookup(t, root, st.x).bits > st.n
    ensures Starved(lens, st)
  {
    hide *;
    BuiltParts(t, typ, lens, root, used);
    forall s: nat | StartsWith(lens, s, st.x) ensures s < |lens| && lens[s] > st.n {
      HasCode(lens, s, st.x);
      SmallSymbol(lens, typ, s);
      GivesCode(t, typ, lens, root, used, st.x, s);
      GivesSafe(t, typ, lens, root, st.x, s);
    }
    if Taken(lens) != Pow2(MAXBITS) {
      var some, s := FindSome(t, typ, lens, root, used, st.x);
      if some {
        GivesSafe(t, typ, lens, root, st.x, s);
        if Total(lens) > 0 { WholeOne(t, lens, root); } else { NoneOf(lens, typ); }
        assert lens[s] <= 1;
      }
    }
    StarvedIntro(lens, st);
  }

  lemma StarvedIntro(lens: seq<int>, st: Stream)
    requires forall s: nat :: StartsWith(lens, s, st.x) ==> s < |lens| && lens[s] > st.n
    requires Taken(lens) == Pow2(MAXBITS) || st.n == 0
    ensures Starved(lens, st)
  {
    hide StartsWith;
    hide Taken;
  }

  lemma SmallSymbol(lens: seq<int>, typ: CodeType, s: nat)
    requires AllLens(lens, typ) && s < |lens|
    ensures s < Symbols(typ) && lens[s] <= MAXBITS
  {
  }

  /** Too few bits are at hand, and there are no more. */
  lemma WantsMore(t: seq<Entry>, typ: CodeType, lens: seq<int>, root: nat, used: nat, hold: nat, bits: nat)
    requires Built(t, typ, lens, root, used) && Safe(t, root, hold) && Low(hold, root) < |t|
    requires t[Low(hold, root)].bits > bits || Lookup(t, root, hold).bits > bits
    ensures Starved(lens, Stream(hold, bits))
  {
    hide *;
    EntryBits(t, typ, lens, root, used, hold);
    SafeIs(t, root, hold);
    LookupIs(t, root, hold);
    IsStarved(t, typ, lens, root, used, Stream(hold, bits));
  }

  /** The bits at hand are the first of the stream. */
  lemma AtHand(hold: nat, bits: nat, x: nat, n: nat)
    requires hold == Low(x, bits) && n <= bits
    ensures Low(hold, n) == Low(x, n)
  {
    hide Pow2;
    LowBits(x, n, bits);
  }

  /** Once the bits at hand cover what the tables give by them, it is what the stream starts with. */
  lemma Settled(t: seq<Entry>, typ: CodeType, lens: seq<int>, root: nat, used: nat, hold: nat, bits: nat, s: nat,
      st: Stream, rest: Stream)
    requires Built(t, typ, lens, root, used) && Comes(lens, typ, s, st, rest) && hold == Low(st.x, bits)
    requires Safe(t, root, hold) && Lookup(t, root, hold).bits <= bits
    ensures s < Symbols(typ) && s < |lens| && Lookup(t, root, hold).bits == lens[s]
    ensures Lookup(t, root, hold).here == EntryOf(typ, s, Lookup(t, root, hold).here.bits)
  {
    hide *;
    ComesParts(lens, typ, s, st, rest);
    var some, s' := FindSome(t, typ, lens, root, used, hold);
    if some {
      GivesSafe(t, typ, lens, root, hold, s');
      AtHand(hold, bits, st.x, lens[s']);
      StartsSame(lens, s', hold, st.x);
      LengthsBound();
      GivesCode(t, typ, lens, root, used, st.x, s);
      GivesCode(t, typ, lens, root, used, st.x, s');
      GivesSafe(t, typ, lens, root, st.x, s);
      GivesSafe(t, typ, lens, root, st.x, s');
      SafeIs(t, root, st.x);
      SafeIs(t, root, hold);
      SameSymbol(typ, s, s', Lookup(t, root, st.x).here.bits, Lookup(t, root, hold).here.bits);
    } else {
      AtHand(hold, bits, st.x, 1);
      StartsSame(lens, s, st.x, hold);
      GivesCode(t, typ, lens, root, used, hold, s);
      GivesSafe(t, typ, lens, root, hold, s);
    }
  }

  lemma SameSymbol(typ: CodeType, s: nat, s': nat, b: int, c: int)
    requires s < Symbols(typ) && s' < Symbols(typ) && EntryOf(typ, s, b) == EntryOf(typ, s', b)
    ensures EntryOf(typ, s, c) == EntryOf(typ, s', c)
  {
  }

  lemma ComesParts(lens: seq<int>, typ: CodeType, s: nat, st: Stream, rest: Stream)
    requires Comes(lens, typ, s, st, rest)
    ensures s < |lens| && s < Symbols(typ) && 1 <= lens[s] <= MAXBITS && lens[s] <= st.n && StartsWith(lens, s, st.x)
    ensures rest == Without(st, lens[s])
  {
    hide Without;
    hide StartsWith;
  }

  lemma StartsSame(lens: seq<int>, s: nat, h: nat, x: nat)
    requires StartsWith(lens, s, h) && s < |lens| && lens[s] >= 0 && Low(h, lens[s]) == Low(x, lens[s])
    ensures StartsWith(lens, s, x)
  {
    hide Low;
    hide Rev;
    hide Code;
  }

  /** The entry of the root table, when there are enough bits for it. */
  method RootEntry(src: BitSource, table: array<Entry>, start: nat, root: nat, ghost typ: CodeType,
      ghost lens: seq<int>, ghost used: nat)
    returns (ok: bool, here: Entry)
    requires src.Valid() && start <= table.Length && Built(table[start..], typ, lens, root, used)
    modifies src
    ensures src.Valid() && src.Ahead() == old(src.Ahead()) && Pow2(root) <= table.Length - start
    ensures here == table[start..][Low(src.hold, root)] && (ok <==> here.bits <= src.bits)
    ensures !ok ==> src.input == []
  {
    hide *;
    ghost var t := table[start..];
    BuiltParts(t, typ, lens, root, used);
    here := Entry(0, 0, 0);
    while true
      invariant src.Valid() && src.Ahead() == old(src.Ahead())
      decreases |src.input|
    {
      EntryBits(t, typ, lens, root, used, src.hold);
      SafeIs(t, root, src.hold);
      PeekLow(src, root);
      here := table[start + src.Peek(root)];
      assert here == t[Low(src.hold, root)];
      if here.bits <= src.bits { return true, here; }
      src.HoldIs();
      var pulled := src.PullByte();
      src.HoldIs();
      if !pulled {
        return false, here;
      }
    }
  }

  lemma PeekLow(src: BitSource, n: nat)
    ensures src.Peek(n) == Low(src.hold, n)
  {
  }

  /** Through a link, the entry of the second table. */
  method SecondEntry(src: BitSource, table: array<Entry>, start: nat, root: nat, last: Entry, ghost typ: CodeType,
      ghost lens: seq<int>,
                     ghost used: nat) returns (ok: bool, here: Entry)
    requires src.Valid() && start <= table.Length && Built(table[start..], typ, lens, root, used) &&
      Pow2(root) <= table.Length - start
    requires last == table[start..][Low(src.hold, root)] && 1 <= last.op <= 15 && last.bits <= src.bits
    modifies src
    ensures src.Valid() && src.Ahead() == old(src.Ahead()) && Safe(table[start..], root, src.hold)
    ensures Lookup(table[start..], root, src.hold) == Hit(here, last.bits + here.bits) && last.bits == root &&
      1 <= here.bits
    ensures ok <==> last.bits + here.bits <= src.bits
    ensures !ok ==> src.input == []
  {
    hide *;
    ghost var t := table[start..];
    BuiltParts(t, typ, lens, root, used);
    EntryBits(t, typ, lens, root, used, src.hold);
    src.HoldIs();
    while true
      invariant src.Valid() && src.Ahead() == old(src.Ahead()) && last == t[Low(src.hold, root)] && root <= src.bits
      decreases |src.input|
    {
      EntryBits(t, typ, lens, root, used, src.hold);
      SafeIs(t, root, src.hold);
      LookupIs(t, root, src.hold);
      PeekSecond(src, last.bits, last.op);
      here := table[start + last.val + High(src.Peek(last.bits + last.op), last.bits)];
      assert here == t[last.val + Low(High(src.hold, last.bits), last.op)];
      if last.bits + here.bits <= src.bits { return true, here; }
      src.HoldIs();
      AtHand(src.hold, src.bits, src.Ahead().x, root);
      var pulled := src.PullByte();
      src.HoldIs();
      AtHand(src.hold, src.bits, src.Ahead().x, root);
      if !pulled {
        return false, here;
      }
    }
  }

  lemma PeekSecond(src: BitSource, a: nat, b: nat)
    ensures High(src.Peek(a + b), a) == Low(High(src.hold, a), b)
  {
    hide Pow2;
    LowBits(src.hold, a, a + b);
  }

  /** An entry for some symbol, or the mark for no code. */
  ghost predicate IsEntry(typ: CodeType, here: Entry) {
    here == Invalid(1) || exists s :: EntryFor(typ, here, s)
  }

  ghost predicate EntryFor(typ: CodeType, here: Entry, s: nat) {
    s < Symbols(typ) && here == EntryOf(typ, s, here.bits)
  }

  lemma LookedUp(t: seq<Entry>, typ: CodeType, lens: seq<int>, root: nat, used: nat, h: nat)
    requires Built(t, typ, lens, root, used)
    ensures Safe(t, root, h) && IsEntry(typ, Lookup(t, root, h).here)
  {
    hide Built;
    hide Safe;
    hide Lookup;
    hide StartsWith;
    hide EntryOf;
    hide Invalid;
    hide Pow2;
    var some, s := FindSome(t, typ, lens, root, used, h);
    SafeIs(t, root, h);
    if some {
      GivesSafe(t, typ, lens, root, h, s);
      assert EntryFor(typ, Lookup(t, root, h).here, s);
    }
  }

  /** What the tables give by the bits at hand is what the stream starts with, or no code. */
  lemma Starting(t: seq<Entry>, typ: CodeType, lens: seq<int>, root: nat, used: nat, hold: nat, bits: nat, st: Stream)
      returns (s: nat)
    requires Built(t, typ, lens, root, used) && hold == Low(st.x, bits) && bits <= st.n
    ensures Safe(t, root, hold)
    ensures var r := Lookup(t, root, hold);
      r.bits <= bits && !(r.here == Invalid(1) && NoneStarts(lens, st)) ==>
      s < Symbols(typ) && r.here == EntryOf(typ, s, r.here.bits) && 0 <= r.bits <= st.n &&
      Comes(lens, typ, s, st, Without(st, r.bits))
  {
    hide *;
    var some;
    some, s := FindSome(t, typ, lens, root, used, hold);
    SafeIs(t, root, hold);
    if some && Lookup(t, root, hold).bits <= bits {
      GivesSafe(t, typ, lens, root, hold, s);
      AtHand(hold, bits, st.x, lens[s]);
      StartsSame(lens, s, hold, st.x);
      ComesIntro(lens, typ, s, st);
    }
    if !some {
      HitIs(t, root, hold);
      if bits >= 1 { NoneIntro(lens, hold, bits, st); }
    }
  }

  lemma NoneIntro(lens: seq<int>, hold: nat, bits: nat, st: Stream)
    requires (forall i :: 0 <= i < |lens| ==> lens[i] <= 1) && (forall i: nat :: !StartsWith(lens, i, hold))
    requires hold == Low(st.x, bits) && 1 <= bits <= st.n
    ensures NoneStarts(lens, st)
  {
    hide *;
    forall s: nat | StartsWith(lens, s, st.x) ensures false {
      HasCode(lens, s, st.x);
      AtHand(hold, bits, st.x, 1);
      StartsSame(lens, s, st.x, hold);
    }
    NoneStartsIs(lens, st);
  }

  lemma NoneStartsIs(lens: seq<int>, st: Stream)
    requires st.n >= 1 && (forall i :: 0 <= i < |lens| ==> lens[i] <= 1) && forall s: nat :: !StartsWith(lens, s, st.x)
    ensures NoneStarts(lens, st)
  {
    hide StartsWith;
  }

  lemma HitIs(t: seq<Entry>, root: nat, hold: nat)
    requires Safe(t, root, hold) && Lookup(t, root, hold) == Hit(Invalid(1), 1)
    ensures Lookup(t, root, hold).here == Invalid(1) && Lookup(t, root, hold).bits == 1
  {
    hide Lookup;
  }

  lemma ComesIntro(lens: seq<int>, typ: CodeType, s: nat, st: Stream)
    requires s < |lens| && s < Symbols(typ) && 1 <= lens[s] <= MAXBITS && lens[s] <= st.n && StartsWith(lens, s, st.x)
    ensures Comes(lens, typ, s, st, Without(st, lens[s]))
  {
    hide Without;
    hide StartsWith;
  }

  /** One symbol's code is read; here is its entry. On any input, it is the entry of the symbol whose code comes, or the
      mark for no code where no code starts; and only where the input ends before a code is whole is there none. */
  method ReadSymbol(src: BitSource, table: array<Entry>, start: nat, root: nat, ghost typ: CodeType,
      ghost lens: seq<int>,
                    ghost used: nat, ghost s: nat, ghost rest: Stream)
    returns (ok: bool, here: Entry, ghost got: nat)
    requires src.Valid() && start <= table.Length && Built(table[start..], typ, lens, root, used)
    modifies src
    ensures src.Valid() && (ok ==> IsEntry(typ, here))
    ensures src.Ahead().n <= old(src.Ahead().n) && (ok ==> src.Ahead().n < old(src.Ahead().n))
    ensures ok && !(here == Invalid(1) && NoneStarts(lens, old(src.Ahead()))) ==>
      got < Symbols(typ) && here == EntryOf(typ, got, here.bits) && Comes(lens, typ, got, old(src.Ahead()), src.Ahead())
    ensures !ok ==> Starved(lens, old(src.Ahead()))
    ensures old(Comes(lens, typ, s, src.Ahead(), rest)) ==>
      ok && s < Symbols(typ) && here == EntryOf(typ, s, here.bits) && src.Ahead() == rest
  {
    hide *;
    ghost var t, st := table[start..], src.Ahead();
    ghost var good := Comes(lens, typ, s, st, rest);
    got := 0;
    ok, here := RootEntry(src, table, start, root, typ, lens, used);
    EntryBits(t, typ, lens, root, used, src.hold);
    src.HoldIs();
    if !ok {
      SafeIs(t, root, src.hold);
      WantsMore(t, typ, lens, root, used, src.hold, src.bits);
      if good { NotShort(t, typ, lens, root, used, s, st, rest); }
      return;
    }
    var last := here;
    if 1 <= here.op <= 15 {
      ok, here := SecondEntry(src, table, start, root, last, typ, lens, used);
      EntryBits(t, typ, lens, root, used, src.hold);
      src.HoldIs();
      if !ok {
        SafeIs(t, root, src.hold);
        WantsMore(t, typ, lens, root, used, src.hold, src.bits);
        if good { NotShort(t, typ, lens, root, used, s, st, rest); }
        return;
      }
    }
    LookedUp(t, typ, lens, root, used, src.hold);
    SafeIs(t, root, src.hold);
    LookupIs(t, root, src.hold);
    if good { Settled(t, typ, lens, root, used, src.hold, src.bits, s, st, rest); }
    got := Starting(t, typ, lens, root, used, src.hold, src.bits, st);
    if 1 <= last.op <= 15 {
      WithoutSize(st, last.bits);
      DroppedTwice(st, last.bits, here.bits);
      WithoutSize(st, last.bits + here.bits);
      src.DropBits(last.bits);
    } else {
      WithoutSize(st, here.bits);
    }
    src.DropBits(here.bits);
    if good { ComesParts(lens, typ, s, st, rest); }
  }

  lemma DroppedTwice(st: Stream, a: nat, b: nat)
    requires a + b <= st.n
    ensures Without(Without(st, a), b) == Without(st, a + b)
  {
    hide Pow2;
    Pow2Sum(a, b);
    DivideTwice(st.x, Pow2(a), Pow2(b));
  }

  lemma DivideTwice(x: nat, p: nat, q: nat)
    requires p >= 1 && q >= 1
    ensures p * q >= 1 && x / p / q == x / (p * q)
  {
    var a, r := x / p, x % p;
    var b, s := a / q, a % q;
    DivMod(x, p);
    DivMod(a, q);
    ReversedBits.Spread(b, q, s, p, r);
    Smaller(s, q, p, r);
    QuotientIs(x, p * q, b, s * p + r);
  }

  lemma WithoutSize(st: Stream, n: nat)
    requires n <= st.n
    ensures Without(st, n).n == st.n - n
  {
  }

  /** With all of the stream at hand, and a code at its start, nothing is missing. */
  lemma NotShort(t: seq<Entry>, typ: CodeType, lens: seq<int>, root: nat, used: nat, s: nat, st: Stream, rest: Stream)
    requires Built(t, typ, lens, root, used) && Comes(lens, typ, s, st, rest)
    ensures Safe(t, root, st.x) && Pow2(root) <= |t| && t[Low(st.x, root)].bits <= st.n &&
      Lookup(t, root, st.x).bits <= st.n
  {
    hide *;
    BuiltParts(t, typ, lens, root, used);
    ComesParts(lens, typ, s, st, rest);
    GivesCode(t, typ, lens, root, used, st.x, s);
    GivesSafe(t, typ, lens, root, st.x, s);
    LinkBits(t, typ, lens, root, used, st.x, s);
  }
}
