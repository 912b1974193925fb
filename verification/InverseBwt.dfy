/** The two decoders' ways of undoing the block sort: the packed vector tt (FAST), and the
    20-bit values split over ll16 and the nibbles of ll4 (SMALL), whose cycle through origPtr is
    reversed in place. Both deliver the same bytes for every last column and every start. */
module InverseBwt {
  import opened Counting
  import opened Bwt

  /* ---------- cftab ---------- */

  ghost predicate Cumulative(l: seq<int>, cf: seq<int>, m: nat) {
    |cf| == 257 && m <= 257 && forall c :: 0 <= c < m ==> cf[c] == Less(l, |l|, c)
  }

  lemma CumulativeStep(l: seq<int>, cf: seq<int>, m: nat)
    requires Cumulative(l, cf, m) && 1 <= m < 257 && cf[m] == Count(l, |l|, m - 1)
    ensures Cumulative(l, cf[m := cf[m] + cf[m - 1]], m + 1)
  {
    LessStep(l, |l|, m - 1);
  }

  lemma CumulativeMonotone(l: seq<int>, cf: seq<int>, i: nat)
    requires Cumulative(l, cf, 257) && 1 <= i < 257
    ensures cf[i - 1] <= cf[i]
  {
    LessMonotone(l, |l|, i - 1, i);
  }

  /** Set up cftab from the byte counts, with the decoder's three range checks. Counts taken from
      an actual last column always pass. */
  method MakeCftab(unzftab: array<int>, nblock: int, ghost l: seq<int>) returns (cftab: array<int>, ok: bool)
    requires unzftab.Length == 256 && nblock == |l| && Keys(l, 256)
    requires forall c :: 0 <= c < 256 ==> unzftab[c] == Count(l, nblock, c)
    ensures fresh(cftab) && ok && Cumulative(l, cftab[..], 257)
  {
    hide Less;
    hide Count;
    cftab := new int[257];
    var i := 0;
    while i <= 255
      invariant 0 <= i <= 256
    {
      if unzftab[i] < 0 || unzftab[i] > nblock {
        return cftab, false;
      }
      i := i + 1;
    }
    cftab[0] := 0;
    i := 1;
    while i <= 256
      invariant 1 <= i <= 257 && cftab[0] == 0
      invariant forall c :: 1 <= c < i ==> cftab[c] == Count(l, nblock, c - 1)
    {
      cftab[i] := unzftab[i - 1];
      i := i + 1;
    }
    LessEnds(l, nblock, 256);
    i := 1;
    while i <= 256
      invariant 1 <= i <= 257 && Cumulative(l, cftab[..], i)
      invariant forall c :: i <= c < 257 ==> cftab[c] == Count(l, nblock, c - 1)
    {
      CumulativeStep(l, cftab[..], i);
      cftab[i] := cftab[i] + cftab[i - 1];
      i := i + 1;
    }
    i := 0;
    while i <= 256
      invariant 0 <= i <= 257 && Cumulative(l, cftab[..], 257)
    {
      assert cftab[..][i] == Less(l, |l|, i);
      if cftab[i] < 0 || cftab[i] > nblock {
        return cftab, false;
      }
      i := i + 1;
    }
    i := 1;
    while i <= 256
      invariant 1 <= i <= 257 && Cumulative(l, cftab[..], 257)
    {
      CumulativeMonotone(l, cftab[..], i);
      if cftab[i - 1] > cftab[i] {
        return cftab, false;
      }
      i := i + 1;
    }
    ok := true;
  }

  /** cftab while a counting sort runs: each byte's next free slot. */
  ghost predicate NextSlots(l: seq<int>, cf: seq<int>, i: nat) {
    |cf| == 257 && i <= |l| && forall c :: 0 <= c < 256 ==> cf[c] == Less(l, |l|, c) + Count(l, i, c)
  }

  lemma NextSlotsStart(l: seq<int>, cf: seq<int>)
    requires Cumulative(l, cf, 257)
    ensures NextSlots(l, cf, 0)
  {
  }

  lemma NextSlotsStep(l: seq<int>, cf: seq<int>, i: nat)
    requires NextSlots(l, cf, i) && i < |l| && Keys(l, 256)
    ensures 0 <= l[i] < |cf| && cf[l[i]] == SlotUp(l, i) && 0 <= SlotUp(l, i) < |l|
    ensures NextSlots(l, cf[l[i] := cf[l[i]] + 1], i + 1)
  {
    SlotsOwned(l, i);
  }

  /* ---------- FAST ---------- */

  /** OR a row number into the upper 24 bits of a word that holds just a byte. */
  function OrShifted(w: int, i: int): int
    requires 0 <= w < 256 && 0 <= i < 0x100_0000
  {
    w + 256 * i
  }

  /** tt after the first i rows have been entered. */
  ghost predicate Linked(l: seq<int>, tt: seq<int>, i: nat) {
    i <= |l| <= |tt| &&
    forall k :: 0 <= k < |l| ==> tt[k] == l[k] + (if Inverse(l, k) < i then 256 * Inverse(l, k) else 0)
  }

  lemma LinkStart(l: seq<int>, tt: seq<int>)
    requires |l| <= |tt| && forall k :: 0 <= k < |l| ==> tt[k] == l[k]
    ensures Linked(l, tt, 0)
  {
  }

  lemma PackedWord(c: int, i: int)
    requires 0 <= c < 256
    ensures (c + 256 * i) % 256 == c && (c + 256 * i) / 256 == i
  {
  }

  lemma LinkAt(l: seq<int>, tt: seq<int>, i: nat, k: int)
    requires Linked(l, tt, i) && 0 <= k < |l|
    ensures k < |tt| && tt[k] == l[k] + 256 * (if Inverse(l, k) < i then Inverse(l, k) else 0)
  {
  }

  lemma KeyAt(l: seq<int>, m: int, k: int)
    requires Keys(l, m) && 0 <= k < |l|
    ensures 0 <= l[k] < m
  {
  }

  lemma LinkRead(l: seq<int>, tt: seq<int>, i: nat)
    requires Linked(l, tt, i) && i < |l| && Keys(l, 256) && 0 <= SlotUp(l, i) < |l|
    ensures tt[i] % 256 == l[i] && tt[SlotUp(l, i)] == l[SlotUp(l, i)]
  {
    hide SlotUp;
    InverseOf(l, i);
    LinkAt(l, tt, i, i);
    LinkAt(l, tt, i, SlotUp(l, i));
    hide Linked;
    PackedWord(l[i], if Inverse(l, i) < i then Inverse(l, i) else 0);
  }

  lemma LinkStep(l: seq<int>, tt: seq<int>, i: nat)
    requires Linked(l, tt, i) && i < |l| && 0 <= SlotUp(l, i) < |l|
    ensures Linked(l, tt[SlotUp(l, i) := l[SlotUp(l, i)] + 256 * i], i + 1)
  {
    hide SlotUp;
    InverseOf(l, i);
  }

  /** Compute the packed inverse vector in place over the last column. */
  method BuildTt(tt: array<int>, cftab: array<int>, nblock: int, ghost l: seq<int>)
    requires tt != cftab && 0 < nblock == |l| <= tt.Length && nblock <= 900000 && Keys(l, 256)
    requires tt[..nblock] == l && Cumulative(l, cftab[..], 257)
    modifies tt, cftab
    ensures Linked(l, tt[..], nblock)
  {
    hide Less;
    hide Count;
    hide Linked;
    hide NextSlots;
    hide Cumulative;
    hide SlotUp;
    NextSlotsStart(l, cftab[..]);
    assert forall k :: 0 <= k < nblock ==> tt[k] == tt[..nblock][k];
    LinkStart(l, tt[..]);
    var i := 0;
    while i < nblock
      invariant 0 <= i <= nblock && NextSlots(l, cftab[..], i) && Linked(l, tt[..], i)
    {
      NextSlotsStep(l, cftab[..], i);
      LinkRead(l, tt[..], i);
      LinkStep(l, tt[..], i);
      var uc := tt[i] % 256;
      var k := cftab[uc];
      tt[k] := OrShifted(tt[k], i);
      cftab[uc] := cftab[uc] + 1;
      i := i + 1;
    }
  }

  lemma LinkedAt(l: seq<int>, tt: seq<int>, k: int)
    requires Linked(l, tt, |l|) && 0 <= k < |l| && Keys(l, 256)
    ensures k < |tt| && tt[k] % 256 == l[k] && tt[k] / 256 == Inverse(l, k)
  {
    hide *;
    LinkAt(l, tt, |l|, k);
    KeyAt(l, 256, k);
    PackedWord(l[k], Inverse(l, k));
  }

  /** BZ_GET_FAST: the next byte, from the row tPos. */
  method GetFast(tt: array<int>, tPos: int, ghost l: seq<int>, ghost start: int, ghost k: nat)
    returns (ch: int, tPos': int)
    requires 0 <= start < |l| && Linked(l, tt[..], |l|) && Keys(l, 256) && tPos == Row(l, start, k)
    ensures ch == Decoded(l, start, k) && tPos' == Row(l, start, k + 1)
  {
    LinkedAt(l, tt[..], tPos);
    var t := tt[..][tPos];
    ch := t % 256;
    tPos' := t / 256;
  }

  /** Follow tt from origPtr for a whole block. */
  method DecodeFast(tt: array<int>, nblock: int, origPtr: int, ghost l: seq<int>) returns (out: seq<int>)
    requires 0 < nblock == |l| && 0 <= origPtr < nblock && Keys(l, 256) && Linked(l, tt[..], nblock)
    ensures |out| == nblock && forall k :: 0 <= k < nblock ==> out[k] == Decoded(l, origPtr, k)
  {
    hide Linked;
    LinkedAt(l, tt[..], origPtr);
    var tPos := tt[..][origPtr] / 256;
    out := [];
    while |out| < nblock
      invariant |out| <= nblock && tPos == Row(l, origPtr, |out|)
      invariant forall k :: 0 <= k < |out| ==> out[k] == Decoded(l, origPtr, k)
      decreases nblock - |out|
    {
      var ch;
      ch, tPos := GetFast(tt, tPos, l, origPtr, |out|);
      out := out + [ch];
    }
  }

  /* ---------- SMALL: packing ---------- */

  /** GET_LL4: nibble i, low half of the byte for even i. */
  function GetNibble(x: int, i: int): (n: int)
    requires 0 <= x < 256 && 0 <= i
    ensures 0 <= n < 16
  {
    if i % 2 == 0 then x % 16 else x / 16
  }

  /** SET_LL4 */
  function SetNibble(x: int, i: int, n: int): (y: int)
    requires 0 <= x < 256 && 0 <= i && 0 <= n < 16
    ensures 0 <= y < 256
  {
    if i % 2 == 0 then x - x % 16 + n else x % 16 + 16 * n
  }

  lemma NibbleSet(x: int, i: int, n: int, j: int)
    requires 0 <= x < 256 && 0 <= i && 0 <= n < 16 && 0 <= j
    ensures GetNibble(SetNibble(x, i, n), j) == if i % 2 == j % 2 then n else GetNibble(x, j)
  {
  }

  ghost predicate Packs(ll16: seq<int>, ll4: seq<int>) {
    |ll4| == (|ll16| + 1) / 2 && forall i :: 0 <= i < |ll4| ==> 0 <= ll4[i] < 256
  }

  /** GET_LL: the 20-bit value at i. */
  function GetLL(ll16: seq<int>, ll4: seq<int>, i: int): (v: int)
    requires |ll4| == (|ll16| + 1) / 2 && 0 <= i < |ll16| && 0 <= ll4[i / 2] < 256
  {
    ll16[i] + 0x1_0000 * GetNibble(ll4[i / 2], i)
  }

  /** The packed arrays hold the values v. */
  ghost predicate Holds(ll16: seq<int>, ll4: seq<int>, v: seq<int>) {
    Packs(ll16, ll4) && |v| <= |ll16| && forall i :: 0 <= i < |v| ==> GetLL(ll16, ll4, i) == v[i]
  }

  lemma HoldsSet(ll16: seq<int>, ll4: seq<int>, v: seq<int>, i: int, x: int)
    requires Holds(ll16, ll4, v) && 0 <= i < |v| && 0 <= x < 0x10_0000
    ensures Holds(ll16[i := x % 0x1_0000], ll4[i / 2 := SetNibble(ll4[i / 2], i, x / 0x1_0000)], v[i := x])
  {
    var l4 := ll4[i / 2 := SetNibble(ll4[i / 2], i, x / 0x1_0000)];
    var l16, v' := ll16[i := x % 0x1_0000], v[i := x];
    forall j | 0 <= j < |v| ensures GetLL(l16, l4, j) == v'[j] {
      assert GetLL(ll16, ll4, j) == v[j];
      if j / 2 == i / 2 {
        NibbleSet(ll4[i / 2], i, x / 0x1_0000, j);
      }
    }
  }

  lemma HoldsGet(ll16: seq<int>, ll4: seq<int>, v: seq<int>, i: int)
    requires Holds(ll16, ll4, v) && 0 <= i < |v|
    ensures i < |ll16| && |ll4| == (|ll16| + 1) / 2 && 0 <= ll4[i / 2] < 256 && GetLL(ll16, ll4, i) == v[i]
  {
  }

  lemma HoldsPacks(ll16: seq<int>, ll4: seq<int>, v: seq<int>)
    requires Holds(ll16, ll4, v)
    ensures Packs(ll16, ll4) && |v| <= |ll16|
  {
  }

  /** SET_LL */
  method SetLL(ll16: array<int>, ll4: array<int>, i: int, x: int, ghost v: seq<int>)
    requires ll16 != ll4 && Holds(ll16[..], ll4[..], v) && 0 <= i < |v| && 0 <= x < 0x10_0000
    modifies ll16, ll4
    ensures Holds(ll16[..], ll4[..], v[i := x])
  {
    hide Holds;
    HoldsSet(ll16[..], ll4[..], v, i, x);
    HoldsGet(ll16[..], ll4[..], v, i);
    ll16[i] := x % 0x1_0000;
    ll4[i / 2] := SetNibble(ll4[i / 2], i, x / 0x1_0000);
  }

  /* ---------- SMALL: the vector T and its reversal ---------- */

  /** The vector T. */
  ghost function Slots(l: seq<int>): (v: seq<int>)
    ensures |v| == |l|
  {
    seq(|l|, k requires 0 <= k < |l| => SlotUp(l, k))
  }

  /** T has been computed for the rows below i; from there on the 16-bit cells still hold the last
      column. The nibbles there hold anything: they are left over from the block before. */
  ghost predicate Computed(ll16: seq<int>, ll4: seq<int>, l: seq<int>, i: nat) {
    Packs(ll16, ll4) && i <= |l| <= |ll16| && (forall k :: 0 <= k < i ==> GetLL(ll16, ll4, k) == Slots(l)[k]) &&
    forall k :: i <= k < |l| ==> ll16[k] == l[k]
  }

  lemma ComputedStep(ll16: seq<int>, ll4: seq<int>, l: seq<int>, i: nat, x: int)
    requires Computed(ll16, ll4, l, i) && i < |l| && 0 <= x < 0x10_0000 && x == SlotUp(l, i)
    ensures i < |ll16| && i / 2 < |ll4| && ll16[i] == l[i] && 0 <= ll4[i / 2] < 256
    ensures Computed(ll16[i := x % 0x1_0000], ll4[i / 2 := SetNibble(ll4[i / 2], i, x / 0x1_0000)], l, i + 1)
  {
    hide SlotUp;
    var l4 := ll4[i / 2 := SetNibble(ll4[i / 2], i, x / 0x1_0000)];
    var l16 := ll16[i := x % 0x1_0000];
    forall k | 0 <= k < i + 1 ensures GetLL(l16, l4, k) == Slots(l)[k] {
      if k / 2 == i / 2 { NibbleSet(ll4[i / 2], i, x / 0x1_0000, k); }
    }
  }

  lemma ComputedAll(ll16: seq<int>, ll4: seq<int>, l: seq<int>)
    requires Computed(ll16, ll4, l, |l|)
    ensures Holds(ll16, ll4, Slots(l))
  {
    hide SlotUp;
  }

  lemma ComputedNone(ll16: seq<int>, ll4: seq<int>, l: seq<int>)
    requires Packs(ll16, ll4) && |l| <= |ll16| && ll16[..|l|] == l
    ensures Computed(ll16, ll4, l, 0)
  {
    forall k | 0 <= k < |l| ensures ll16[k] == l[k] { assert ll16[..|l|][k] == l[k]; }
  }

  /** Compute T over the last column, in place. */
  method BuildT(ll16: array<int>, ll4: array<int>, cftabCopy: array<int>, nblock: int, ghost l: seq<int>)
    requires ll16 != ll4 && ll16 != cftabCopy && ll4 != cftabCopy && 0 < nblock == |l| <= 900000 &&
      nblock <= ll16.Length && Keys(l, 256)
    requires Packs(ll16[..], ll4[..]) && ll16[..nblock] == l && Cumulative(l, cftabCopy[..], 257)
    modifies ll16, ll4, cftabCopy
    ensures Holds(ll16[..], ll4[..], Slots(l))
  {
    hide *;
    assert ll16[..][..nblock] == l;
    ComputedNone(ll16[..], ll4[..], l);
    NextSlotsStart(l, cftabCopy[..]);
    var i := 0;
    while i < nblock
      invariant 0 <= i <= nblock && NextSlots(l, cftabCopy[..], i) && Computed(ll16[..], ll4[..], l, i)
    {
      NextSlotsStep(l, cftabCopy[..], i);
      ComputedStep(ll16[..], ll4[..], l, i, SlotUp(l, i));
      ByteItself(l, i);
      var uc := ll16[i] % 256;
      ghost var cf, l16, l4 := cftabCopy[..], ll16[..], ll4[..];
      var x := cftabCopy[uc];
      ll16[i] := x % 0x1_0000;
      ll4[i / 2] := SetNibble(ll4[i / 2], i, x / 0x1_0000);
      assert ll16[..] == l16[i := x % 0x1_0000] && ll4[..] == l4[i / 2 := SetNibble(l4[i / 2], i, x / 0x1_0000)];
      assert cftabCopy[..] == cf;
      cftabCopy[uc] := cftabCopy[uc] + 1;
      i := i + 1;
    }
    ComputedAll(ll16[..], ll4[..], l);
  }

  lemma ByteItself(l: seq<int>, i: nat)
    requires Keys(l, 256) && i < |l|
    ensures l[i] % 256 == l[i]
  {
  }

  /** k steps of T from row x. */
  ghost function Orbit(l: seq<int>, x: int, k: nat): (y: int)
    requires 0 <= x < |l|
    ensures 0 <= y < |l|
  {
    if k == 0 then x else (InverseOf(l, Orbit(l, x, k - 1)); SlotUp(l, Orbit(l, x, k - 1)))
  }

  lemma OrbitStep(l: seq<int>, x: int, k: nat)
    requires 0 <= x < |l|
    ensures Orbit(l, x, k + 1) == SlotUp(l, Orbit(l, x, k)) && Inverse(l, Orbit(l, x, k + 1)) == Orbit(l, x, k)
  {
    InverseOf(l, Orbit(l, x, k));
  }

  lemma {:induction false} OrbitMeets(l: seq<int>, x: int, a: nat, b: nat)
    requires 0 <= x < |l| && a <= b && Orbit(l, x, a) == Orbit(l, x, b)
    ensures Orbit(l, x, b - a) == x
    decreases a
  {
    hide Orbit;
    if a > 0 {
      OrbitStep(l, x, a - 1);
      OrbitStep(l, x, b - 1);
      OrbitMeets(l, x, a - 1, b - 1);
    } else {
      OrbitZero(l, x);
    }
  }

  lemma OrbitZero(l: seq<int>, x: int)
    requires 0 <= x < |l|
    ensures Orbit(l, x, 0) == x
  {
  }

  /** The first m steps do not come back to x. */
  ghost predicate NoReturn(l: seq<int>, x: int, m: nat)
    requires 0 <= x < |l|
  {
    forall t :: 1 <= t <= m ==> Orbit(l, x, t) != x
  }

  lemma NoReturnDistinct(l: seq<int>, x: int, m: nat, a: nat, b: nat)
    requires 0 <= x < |l| && NoReturn(l, x, m) && a < b <= m + 1 && (1 <= a || b <= m)
    ensures Orbit(l, x, a) != Orbit(l, x, b)
  {
    hide Orbit;
    if Orbit(l, x, a) == Orbit(l, x, b) {
      OrbitMeets(l, x, a, b);
    }
  }

  /** The orbit returns within |l| steps. */
  lemma NoReturnBounded(l: seq<int>, x: int, m: nat)
    requires 0 <= x < |l| && NoReturn(l, x, m)
    ensures m < |l|
  {
    hide Orbit;
    hide NoReturn;
    var p := seq(m + 1, t requires 0 <= t < m + 1 => Orbit(l, x, t));
    forall i, j | 0 <= i < j < m + 1 ensures p[i] != p[j] { NoReturnDistinct(l, x, m, i, j); }
    DistinctSize(p, m + 1);
    SubsetSize(set i | 0 <= i < m + 1 :: p[i], Indices(|l|));
  }

  /** The values once m links of the cycle through x have been turned round. */
  ghost function Turned(l: seq<int>, x: int, m: nat): (v: seq<int>)
    requires 0 <= x < |l|
    ensures |v| == |l|
  {
    if m == 0 then Slots(l) else Turned(l, x, m - 1)[Orbit(l, x, m) := Orbit(l, x, m - 1)]
  }

  /** A row not yet reached still has its slot. */
  lemma {:induction false} TurnedAhead(l: seq<int>, x: int, m: nat, k: nat)
    requires 0 <= x < |l| && NoReturn(l, x, m) && k <= m
    ensures Turned(l, x, k)[Orbit(l, x, m + 1)] == SlotUp(l, Orbit(l, x, m + 1))
    decreases k
  {
    hide Orbit;
    if k > 0 {
      TurnedAhead(l, x, m, k - 1);
      NoReturnDistinct(l, x, m, k, m + 1);
    }
  }

  /** A turned link points back. */
  lemma {:induction false} TurnedBehind(l: seq<int>, x: int, m: nat, k: nat, t: nat)
    requires 0 <= x < |l| && NoReturn(l, x, m) && 1 <= t <= k <= m + 1
    ensures Turned(l, x, k)[Orbit(l, x, t)] == Orbit(l, x, t - 1)
    decreases k
  {
    hide Orbit;
    if t < k {
      TurnedBehind(l, x, m, k - 1, t);
      NoReturnDistinct(l, x, m, t, k);
    }
  }

  /** Once the cycle is complete, every row on it holds its predecessor, which is on it too. */
  ghost predicate Reversed(l: seq<int>, v: seq<int>, x: int, m: nat)
    requires 0 <= x < |l|
  {
    |v| == |l| && m > 0 && Orbit(l, x, m) == x &&
    forall t :: 1 <= t <= m ==> v[Orbit(l, x, t)] == Orbit(l, x, t - 1)
  }

  lemma CycleReversed(l: seq<int>, x: int, m: nat)
    requires 0 <= x < |l| && m > 0 && NoReturn(l, x, m - 1) && Orbit(l, x, m) == x
    ensures Reversed(l, Turned(l, x, m), x, m)
  {
    hide Orbit;
    hide NoReturn;
    forall t | 1 <= t <= m ensures Turned(l, x, m)[Orbit(l, x, t)] == Orbit(l, x, t - 1) {
      TurnedBehind(l, x, m - 1, m, t);
    }
  }

  lemma NoReturnMore(l: seq<int>, x: int, m: nat)
    requires 0 <= x < |l| && NoReturn(l, x, m) && Orbit(l, x, m + 1) != x
    ensures NoReturn(l, x, m + 1)
  {
  }

  lemma TurnStart(l: seq<int>, x: int)
    requires 0 <= x < |l|
    ensures NoReturn(l, x, 0) && Turned(l, x, 0) == Slots(l) && Slots(l)[x] == SlotUp(l, x)
  {
  }

  lemma TurnStep(l: seq<int>, x: int, m: nat)
    requires 0 <= x < |l| && NoReturn(l, x, m)
    ensures Turned(l, x, m)[Orbit(l, x, m + 1)] == Orbit(l, x, m + 2)
    ensures Turned(l, x, m + 1) == Turned(l, x, m)[Orbit(l, x, m + 1) := Orbit(l, x, m)]
  {
    hide Orbit;
    TurnedAhead(l, x, m, m);
    OrbitStep(l, x, m + 1);
  }

  /** Turn the cycle through origPtr round: T becomes its own inverse there, and only there. */
  method ReverseCycle(ll16: array<int>, ll4: array<int>, nblock: int, origPtr: int, ghost l: seq<int>)
    returns (ghost v: seq<int>, ghost m: nat)
    requires ll16 != ll4 && 0 < nblock == |l| <= 900000 && 0 <= origPtr < nblock
    requires Holds(ll16[..], ll4[..], Slots(l))
    modifies ll16, ll4
    ensures |v| == nblock && Holds(ll16[..], ll4[..], v) && Reversed(l, v, origPtr, m)
  {
    hide *;
    m := 0;
    TurnStart(l, origPtr);
    OrbitZero(l, origPtr);
    OrbitStep(l, origPtr, 0);
    var i := origPtr;
    var j := ReadLL(ll16, ll4, i, Slots(l));
    var more := true;
    while more
      invariant more ==> NoReturn(l, origPtr, m) && i == Orbit(l, origPtr, m) && j == Orbit(l, origPtr, m + 1)
      invariant !more ==> m > 0 && NoReturn(l, origPtr, m - 1) && Orbit(l, origPtr, m) == origPtr
      invariant Holds(ll16[..], ll4[..], Turned(l, origPtr, m))
      decreases more, nblock - m
    {
      NoReturnBounded(l, origPtr, m);
      TurnStep(l, origPtr, m);
      var tmp := ReadLL(ll16, ll4, j, Turned(l, origPtr, m));
      SetLL(ll16, ll4, j, i, Turned(l, origPtr, m));
      i, j := j, tmp;
      if i != origPtr {
        NoReturnMore(l, origPtr, m);
      }
      m := m + 1;
      more := i != origPtr;
    }
    CycleReversed(l, origPtr, m);
    v := Turned(l, origPtr, m);
  }

  method ReadLL(ll16: array<int>, ll4: array<int>, i: int, ghost v: seq<int>) returns (x: int)
    requires Holds(ll16[..], ll4[..], v) && 0 <= i < |v|
    ensures x == v[i]
  {
    HoldsGet(ll16[..], ll4[..], v, i);
    x := GetLL(ll16[..], ll4[..], i);
  }

  /* ---------- SMALL: output ---------- */

  /** BZ2_indexIntoF: which byte's slots hold index indx. */
  method IndexIntoF(indx: int, cftab: array<int>, ghost l: seq<int>) returns (nb: int)
    requires Cumulative(l, cftab[..], 257) && Keys(l, 256) && 0 <= indx < |l|
    ensures 0 <= nb < 256 && Less(l, |l|, nb) <= indx < Less(l, |l|, nb + 1)
  {
    hide Less;
    LessEnds(l, |l|, 256);
    assert forall c :: 0 <= c < 257 ==> cftab[c] == Less(l, |l|, c);
    var na := 256;
    nb := 0;
    while na - nb != 1
      invariant 0 <= nb < na <= 256 && Less(l, |l|, nb) <= indx < Less(l, |l|, na)
      decreases na - nb
    {
      var mid := (nb + na) / 2;
      if indx >= cftab[mid] {
        nb := mid;
      } else {
        na := mid;
      }
    }
  }

  /** tPos after k steps of the small decoder. */
  ghost function Position(l: seq<int>, x: int, k: nat): (y: int)
    requires 0 <= x < |l|
    ensures 0 <= y < |l|
  {
    if k == 0 then x else Row(l, x, k - 1)
  }

  /** y is on the cycle through x. */
  ghost predicate OnCycle(l: seq<int>, x: int, m: nat, y: int)
    requires 0 <= x < |l|
  {
    exists t :: 1 <= t <= m && Orbit(l, x, t) == y
  }

  lemma CycleStep(l: seq<int>, v: seq<int>, x: int, m: nat, y: int)
    requires 0 <= x < |l| && Reversed(l, v, x, m) && 0 <= y < |l| && OnCycle(l, x, m, y)
    ensures v[y] == Inverse(l, y) && OnCycle(l, x, m, v[y])
  {
    hide Orbit;
    var t :| 1 <= t <= m && Orbit(l, x, t) == y;
    OrbitStep(l, x, t - 1);
    if t == 1 {
      OrbitZero(l, x);
      assert 1 <= m <= m && Orbit(l, x, m) == x;
    } else {
      assert 1 <= t - 1 <= m && Orbit(l, x, t - 1) == v[y];
    }
  }

  lemma CycleStart(l: seq<int>, v: seq<int>, x: int, m: nat)
    requires 0 <= x < |l| && Reversed(l, v, x, m)
    ensures OnCycle(l, x, m, x)
  {
    assert 1 <= m <= m && Orbit(l, x, m) == x;
  }

  /** The byte owning slot y is the last-column byte of the row that the inverse gives for y. */
  lemma OwnerIsByte(l: seq<int>, y: int, c: int)
    requires 0 <= y < |l| && Less(l, |l|, c) <= y < Less(l, |l|, c + 1)
    ensures c == l[Inverse(l, y)]
  {
    var i := Inverse(l, y);
    SlotsOwned(l, i);
    SlotUnique(l, c, l[i], y);
  }

  /** The cells hold the reversed cycle through start. */
  ghost predicate Cycled(l: seq<int>, v: seq<int>, start: int, m: nat, ll16: seq<int>, ll4: seq<int>, cf: seq<int>) {
    0 <= start < |l| == |v| && Keys(l, 256) && Cumulative(l, cf, 257) && Holds(ll16, ll4, v) && Reversed(l, v, start, m)
  }

  /** tPos after k fetches. */
  ghost predicate At(l: seq<int>, start: int, m: nat, tPos: int, k: nat) {
    0 <= start < |l| && tPos == Position(l, start, k) && OnCycle(l, start, m, tPos)
  }

  lemma CycledParts(l: seq<int>, v: seq<int>, start: int, m: nat, ll16: seq<int>, ll4: seq<int>, cf: seq<int>)
    requires Cycled(l, v, start, m, ll16, ll4, cf)
    ensures 0 <= start < |l| == |v| && Keys(l, 256) && Cumulative(l, cf, 257) && Holds(ll16, ll4, v) &&
      Reversed(l, v, start, m)
  {
  }

  lemma AtStart(l: seq<int>, v: seq<int>, start: int, m: nat)
    requires 0 <= start < |l| && Reversed(l, v, start, m)
    ensures At(l, start, m, start, 0)
  {
    CycleStart(l, v, start, m);
  }

  lemma AtStep(l: seq<int>, v: seq<int>, start: int, m: nat, tPos: int, k: nat, ch: int)
    requires 0 <= start < |l| && Reversed(l, v, start, m) && At(l, start, m, tPos, k)
    ensures 0 <= tPos < |l| && |v| == |l| && At(l, start, m, v[tPos], k + 1)
    ensures Less(l, |l|, ch) <= tPos < Less(l, |l|, ch + 1) ==> ch == Decoded(l, start, k)
  {
    hide Less;
    if Less(l, |l|, ch) <= tPos < Less(l, |l|, ch + 1) { OwnerIsByte(l, tPos, ch); }
    CycleStep(l, v, start, m, tPos);
    PositionStep(l, start, k);
  }

  /** BZ_GET_SMALL: the next byte, from the position tPos. */
  method GetSmall(ll16: array<int>, ll4: array<int>, cftab: array<int>, tPos: int, ghost l: seq<int>, ghost v: seq<int>,
                  ghost start: int, ghost m: nat, ghost k: nat) returns (ch: int, tPos': int)
    requires Cycled(l, v, start, m, ll16[..], ll4[..], cftab[..]) && At(l, start, m, tPos, k)
    ensures 0 <= start < |l| && ch == Decoded(l, start, k) && At(l, start, m, tPos', k + 1)
  {
    hide *;
    CycledParts(l, v, start, m, ll16[..], ll4[..], cftab[..]);
    AtStep(l, v, start, m, tPos, k, 0);
    ch := IndexIntoF(tPos, cftab, l);
    AtStep(l, v, start, m, tPos, k, ch);
    tPos' := ReadLL(ll16, ll4, tPos, v);
  }

  /** A whole block: the same bytes as the fast decoder. */
  method DecodeSmall(ll16: array<int>, ll4: array<int>, cftab: array<int>, nblock: int, origPtr: int,
                     ghost l: seq<int>, ghost v: seq<int>, ghost m: nat) returns (out: seq<int>)
    requires 0 < nblock == |l| && 0 <= origPtr < nblock && Keys(l, 256) && Cumulative(l, cftab[..], 257)
    requires |v| == nblock && Holds(ll16[..], ll4[..], v) && Reversed(l, v, origPtr, m)
    ensures |out| == nblock && forall k :: 0 <= k < nblock ==> out[k] == Decoded(l, origPtr, k)
  {
    hide *;
    var tPos := origPtr;
    out := [];
    AtStart(l, v, origPtr, m);
    CycledIntro(l, v, origPtr, m, ll16[..], ll4[..], cftab[..]);
    while |out| < nblock
      invariant |out| <= nblock && At(l, origPtr, m, tPos, |out|)
      invariant forall k :: 0 <= k < |out| ==> out[k] == Decoded(l, origPtr, k)
      decreases nblock - |out|
    {
      var ch;
      ch, tPos := GetSmall(ll16, ll4, cftab, tPos, l, v, origPtr, m, |out|);
      out := out + [ch];
    }
  }

  lemma CycledIntro(l: seq<int>, v: seq<int>, start: int, m: nat, ll16: seq<int>, ll4: seq<int>, cf: seq<int>)
    requires 0 <= start < |l| == |v| && Keys(l, 256) && Cumulative(l, cf, 257) && Holds(ll16, ll4, v) &&
      Reversed(l, v, start, m)
    ensures Cycled(l, v, start, m, ll16, ll4, cf)
  {
  }

  lemma PositionStep(l: seq<int>, x: int, k: nat)
    requires 0 <= x < |l|
    ensures Position(l, x, k + 1) == Inverse(l, Position(l, x, k))
    ensures l[Inverse(l, Position(l, x, k))] == Decoded(l, x, k)
  {
  }
}
