/** What the decoding tables of inflate must say: the entry for a symbol, how a table is read, and
    when a code is found in it. */
module InflateCodes {
  import opened Bits
  import opened CanonicalCode
  import opened CodeOrder
  import opened ReversedBits

  const MAXBITS: nat := 15

  datatype CodeType = CODES | LENS | DISTS

  /** One slot: what to do, how many bits it stands for, and a value. */
  datatype Entry = Entry(op: int, bits: int, val: int)

  /* ---------- entries (section 3.2.5 of RFC 1951) ---------- */

  const LBASE: seq<int> :=
    [3, 4, 5, 6, 7, 8, 9, 10, 11, 13, 15, 17, 19, 23, 27, 31, 35, 43, 51, 59, 67, 83, 99, 115, 131, 163, 195, 227, 258,
    0, 0]
  const LEXT: seq<int> :=
    [16, 16, 16, 16, 16, 16, 16, 16, 17, 17, 17, 17, 18, 18, 18, 18, 19, 19, 19, 19, 20, 20, 20, 20, 21, 21, 21, 21, 16,
    78, 68]
  const DBASE: seq<int> :=
    [1, 2, 3, 4, 5, 7, 9, 13, 17, 25, 33, 49, 65, 97, 129, 193, 257, 385, 513, 769, 1025, 1537, 2049, 3073, 4097, 6145,
                            8193, 12289, 16385, 24577, 0, 0]
  const DEXT: seq<int> :=
    [16, 16, 16, 16, 17, 17, 18, 18, 19, 19, 20, 20, 21, 21, 22, 22, 23, 23, 24, 24, 25, 25, 26, 26, 27, 27, 28, 28, 29,
    29, 64, 64]

  /** How many symbols a code of the type may have. */
  function Symbols(typ: CodeType): (n: nat) {
    match typ
    case CODES => 19
    case LENS => 288
    case DISTS => 32
  }

  /** The entry for symbol s, when it stands for the given number of bits. */
  function EntryOf(typ: CodeType, s: nat, bits: int): (e: Entry)
    requires s < Symbols(typ)
    ensures e.bits == bits && !(1 <= e.op <= 15)
  {
    match typ
    case CODES => Entry(0, bits, s)
    case LENS => if s < 256 then Entry(0, bits, s) else if s > 256 then Entry(LEXT[s - 257], bits, LBASE[s - 257])
    else Entry(96, bits, 0)
    case DISTS => Entry(DEXT[s], bits, DBASE[s])
  }

  /** The invalid code marker. */
  function Invalid(bits: int): (e: Entry) {
    Entry(64, bits, 0)
  }

  /** The rule of section 3.2.5 of RFC 1951: after the first four, the length symbols come in groups of four, and
      each group has one extra bit more than the one before; the last symbol stands for 258 alone. */
  ghost function LengthExtra(ls: nat): (n: nat)
    requires 257 <= ls <= 285
  {
    if ls < 261 || ls == 285 then 0 else (ls - 261) / 4
  }

  ghost function LengthBase(ls: nat): (n: nat)
    requires 257 <= ls <= 285
  {
    if ls == 285 then 258 else if ls < 261 then ls - 254
    else 3 + (4 + (ls - 261) % 4) * Pow2((ls - 261) / 4)
  }

  /** The distance symbols come in pairs in the same way. */
  ghost function DistExtra(ds: nat): (n: nat)
    requires ds < 30
  {
    if ds < 2 then 0 else ds / 2 - 1
  }

  ghost function DistBase(ds: nat): (n: nat)
    requires ds < 30
  {
    if ds < 2 then ds + 1 else 1 + (2 + ds % 2) * Pow2(ds / 2 - 1)
  }

  /** The rows are those of the rule. */
  lemma LengthRow(ls: nat)
    requires 257 <= ls <= 285
    ensures LBASE[ls - 257] == LengthBase(ls) && LEXT[ls - 257] == 16 + LengthExtra(ls)
  {
    hide Pow2;
    SmallPowers();
  }

  lemma DistRow(ds: nat)
    requires ds < 30
    ensures DBASE[ds] == DistBase(ds) && DEXT[ds] == 16 + DistExtra(ds)
  {
    hide Pow2;
    SmallPowers();
    if ds < 16 {
      assert DBASE[ds] == DistBase(ds);
    } else {
      assert DBASE[ds] == DistBase(ds);
    }
  }

  /** Up to symbol 284 each length symbol starts where the one before ends: base plus extra bits cover 3 to 258,
      and symbol 285 stands for 258 and nothing else. */
  lemma LengthsCovered(ls: nat)
    requires 257 <= ls < 284
    ensures LengthBase(ls + 1) == LengthBase(ls) + Pow2(LengthExtra(ls)) && LengthBase(257) == 3
    ensures LengthBase(284) + Pow2(LengthExtra(284)) == 259
    ensures LengthBase(285) == 258 && Pow2(LengthExtra(285)) == 1
  {
    hide Pow2;
    SmallPowers();
  }

  /** And each distance symbol: 1 to 32768. */
  lemma DistancesCovered(ds: nat)
    requires ds < 29
    ensures DistBase(ds + 1) == DistBase(ds) + Pow2(DistExtra(ds)) && DistBase(0) == 1
    ensures DistBase(29) + Pow2(DistExtra(29)) == 32769
  {
    hide Pow2;
    SmallPowers();
  }

  lemma SmallPowers()
    ensures Pow2(0) == 1 && Pow2(1) == 2 && Pow2(2) == 4 && Pow2(3) == 8 && Pow2(4) == 16 && Pow2(5) == 32 &&
      Pow2(6) == 64 && Pow2(7) == 128
    ensures Pow2(8) == 256 && Pow2(9) == 512 && Pow2(10) == 1024 && Pow2(11) == 2048 && Pow2(12) == 4096 &&
      Pow2(13) == 8192 && Pow2(14) == 16384 && Pow2(15) == 32768
  {
    assert Pow2(4) == 16;
    assert Pow2(8) == 256;
    assert Pow2(12) == 4096;
  }

  /* ---------- codes, first bit lowest ---------- */

  /** The low n bits of x. */
  function Low(x: nat, n: nat): (y: nat)
    ensures y < Pow2(n)
  {
    x % Pow2(n)
  }

  function Quotient(x: nat, p: nat): (q: nat)
    requires p >= 1
  {
    x / p
  }

  /** The bits above them. */
  function High(x: nat, n: nat): (y: nat) {
    Quotient(x, Pow2(n))
  }

  ghost function Total(lens: seq<int>): (n: nat) { |Order(lens, MAXBITS)| }

  ghost function Size(lens: seq<int>, k: nat): (n: nat)
    requires k < Total(lens)
    ensures 1 <= n <= MAXBITS
  {
    Len(lens, MAXBITS, k)
  }

  /** Code k as the low bits of a bit buffer. */
  ghost function Huff(lens: seq<int>, k: nat): (h: nat)
    requires k < Total(lens)
  {
    Rev(Val(lens, MAXBITS, k), Size(lens, k))
  }

  ghost predicate AllLens(lens: seq<int>, typ: CodeType) {
    |lens| <= Symbols(typ) && (forall i :: 0 <= i < |lens| ==> 0 <= lens[i] <= MAXBITS)
  }

  /** The codes fit into the words of 15 bits. */
  ghost predicate Fit(lens: seq<int>) {
    Kraft(lens, MAXBITS)
  }

  ghost function Leaf(lens: seq<int>, typ: CodeType, k: nat, bits: int): (e: Entry)
    requires k < Total(lens) && AllLens(lens, typ)
    ensures e.bits == bits && !(1 <= e.op <= 15)
  {
    SymbolSmall(lens, typ, k);
    EntryOf(typ, Order(lens, MAXBITS)[k], bits)
  }

  lemma SymbolSmall(lens: seq<int>, typ: CodeType, k: nat)
    requires k < Total(lens) && AllLens(lens, typ)
    ensures Order(lens, MAXBITS)[k] < Symbols(typ)
  {
    var n := Len(lens, MAXBITS, k);
  }

  /* ---------- a code found in a table ---------- */

  /** T[x] refers to a second table within the space used. */
  ghost predicate Link(T: seq<Entry>, root: nat, used: nat, x: nat) {
    x < |T| && T[x].bits == root && 1 <= T[x].op <= 15 && Pow2(root) <= T[x].val &&
    T[x].val + Pow2(T[x].op) <= used <= |T|
  }

  /** Every slot from base to base + size whose number there ends in the code h of n bits has entry e. */
  ghost predicate Filled(T: seq<Entry>, base: nat, size: nat, n: nat, h: nat, e: Entry) {
    base + size <= |T| && forall z :: base <= z < base + size && Low(z - base, n) == h ==> T[z] == e
  }

  /** The code h of n bits is found through a link. */
  ghost predicate Linked(T: seq<Entry>, root: nat, used: nat, n: nat, h: nat, e: Entry) {
    var x := Low(h, root);
    root < n && Link(T, root, used, x) && n - root <= T[x].op &&
    Filled(T, T[x].val, Pow2(T[x].op), n - root, High(h, root), e)
  }

  /** Code k is found: directly, or through a link. */
  ghost predicate Found(T: seq<Entry>, typ: CodeType, lens: seq<int>, root: nat, used: nat, k: nat)
    requires k < Total(lens) && AllLens(lens, typ)
  {
    var n, h := Size(lens, k), Huff(lens, k);
    if n <= root then Filled(T, 0, Pow2(root), n, h, Leaf(lens, typ, k, n))
    else Linked(T, root, used, n, h, Leaf(lens, typ, k, n - root))
  }

  /** All are. */
  ghost predicate Decodes(T: seq<Entry>, typ: CodeType, lens: seq<int>, root: nat, used: nat) {
    AllLens(lens, typ) && forall k :: 0 <= k < Total(lens) ==> Found(T, typ, lens, root, used, k)
  }

  /* ---------- reading ---------- */

  /** A table entry and the number of bits that were looked at to find it. */
  datatype Hit = Hit(here: Entry, bits: int)

  /** How inflate reads the tables: by the low root bits of hold, and through a link by more. */
  function Lookup(T: seq<Entry>, root: nat, hold: nat): (r: Hit)
    requires Pow2(root) <= |T|
    requires var e := T[Low(hold, root)]; 1 <= e.op <= 15 ==> 0 <= e.bits && 0 <= e.val && e.val + Pow2(e.op) <= |T|
  {
    var e := T[Low(hold, root)];
    if 1 <= e.op <= 15 then
      var f := T[e.val + Low(High(hold, e.bits), e.op)];
      Hit(f, e.bits + f.bits)
    else Hit(e, e.bits)
  }

  lemma ModOf(x: nat, n: nat)
    ensures 0 <= x % Pow2(n) < Pow2(n)
  {
  }

  /** A bit buffer that starts with the code of symbol s is read as s and the length of its code. */
  lemma LookupFinds(T: seq<Entry>, typ: CodeType, lens: seq<int>, root: nat, used: nat, k: nat, hold: nat)
    requires k < Total(lens) && AllLens(lens, typ) && Found(T, typ, lens, root, used, k) && Pow2(root) <= |T|
    requires Low(hold, Size(lens, k)) == Huff(lens, k)
    ensures var e := T[Low(hold, root)]; 1 <= e.op <= 15 ==> 0 <= e.bits && 0 <= e.val && e.val + Pow2(e.op) <= |T|
    ensures var r := Lookup(T, root, hold); r.bits == Size(lens, k) && r.here == Leaf(lens, typ, k, r.here.bits)
  {
    hide Size;
    hide Huff;
    hide Leaf;
    hide Pow2;
    var n, h := Size(lens, k), Huff(lens, k);
    var x := Low(hold, root);
    ModOf(hold, root);
    if n <= root {
      LowBits(hold, n, root);
      assert T[x] == Leaf(lens, typ, k, n);
    } else {
      LowBits(hold, root, n);
      assert Low(h, root) == x;
      var e := T[x];
      var y := Low(High(hold, root), e.op);
      LowBits(High(hold, root), n - root, e.op);
      assert Low(e.val + y - e.val, n - root) == High(h, root);
      assert T[e.val + y] == Leaf(lens, typ, k, n - root);
    }
  }

  /* ---------- every buffer starts with some code ---------- */

  /** The code whose share holds word w. */
  lemma {:induction false} ShareOf(lens: seq<int>, w: nat, k0: nat) returns (k: nat)
    requires k0 < Total(lens) && CodeOrder.Start(lens, MAXBITS, k0) <= w < Upto(lens, MAXBITS, MAXBITS)
    ensures k < Total(lens) && CodeOrder.Start(lens, MAXBITS, k) <= w < CodeOrder.End(lens, MAXBITS, k)
    decreases Total(lens) - k0
  {
    hide CodeOrder.Start;
    hide CodeOrder.End;
    hide Upto;
    if w < CodeOrder.End(lens, MAXBITS, k0) {
      k := k0;
    } else if k0 + 1 < Total(lens) {
      Consecutive(lens, MAXBITS, k0);
      k := ShareOf(lens, w, k0 + 1);
    } else {
      EndsAtSpace(lens, MAXBITS, k0);
      k := k0;
    }
  }

  /** Words in the share of a code start with it. */
  lemma InShare(c: nat, n: nat, m: nat, w: nat)
    requires n <= m && c * Pow2(m - n) <= w < c * Pow2(m - n) + Pow2(m - n)
    ensures w / Pow2(m - n) == c
  {
    QuotientIs(w, Pow2(m - n), c, w - c * Pow2(m - n));
  }

  lemma HuffOfWord(lens: seq<int>, k: nat, w: nat)
    requires k < Total(lens) && CodeOrder.Start(lens, MAXBITS, k) <= w < CodeOrder.End(lens, MAXBITS, k)
    ensures Low(Rev(w, MAXBITS), Size(lens, k)) == Huff(lens, k)
  {
    hide Pow2;
    hide Rev;
    hide Order;
    hide Code;
    var n, c := Size(lens, k), Val(lens, MAXBITS, k);
    InShare(c, n, MAXBITS, w);
    RevPrefix(w, MAXBITS, n);
  }

  /** With a complete code every bit buffer starts with a code. */
  lemma SomeCode(lens: seq<int>, hold: nat) returns (k: nat)
    requires Complete(lens, MAXBITS) && Total(lens) > 0
    ensures k < Total(lens) && Low(hold, Size(lens, k)) == Huff(lens, k)
  {
    hide Pow2;
    hide Rev;
    hide Order;
    hide Size;
    hide Huff;
    var low := Low(hold, MAXBITS);
    ModOf(hold, MAXBITS);
    var w := Rev(low, MAXBITS);
    RevBound(low, MAXBITS);
    RevRev(low, MAXBITS);
    StartsAtZero(lens, MAXBITS);
    k := ShareOf(lens, w, 0);
    HuffOfWord(lens, k, w);
    SizeBound(lens, k);
    LowBits(hold, Size(lens, k), MAXBITS);
  }

  lemma SizeBound(lens: seq<int>, k: nat)
    requires k < Total(lens)
    ensures 1 <= Size(lens, k) <= MAXBITS
  {
  }
}
