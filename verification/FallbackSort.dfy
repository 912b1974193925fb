/** fallbackSort: the exponential radix sort used on small and on repetitive blocks.
    A cell of eclass stands both for the block byte and for the class that overwrites it. */
module FallbackSort {
  import opened Rotations
  import opened RangePermutation
  import opened ThreeWayPartition
  import opened Counting
  import opened BucketBits
  import opened FallbackQSort
  import opened FallbackOrder

  /* ---------- the initial radix sort ---------- */

  /** ft holds the counts of the first i bytes. */
  ghost predicate Tallied(b: seq<int>, ft: seq<int>, i: nat) {
    |ft| == 257 && i <= |b| && forall c :: 0 <= c < 257 ==> ft[c] == Count(b, i, c)
  }

  lemma TallyStep(b: seq<int>, ft: seq<int>, i: nat)
    requires Tallied(b, ft, i) && i < |b| && Keys(b, 256)
    ensures Tallied(b, ft[b[i] := ft[b[i]] + 1], i + 1)
  {
  }

  /** Cumulative counts below m, plain counts from m on. */
  ghost predicate Summed(b: seq<int>, ft: seq<int>, m: nat) {
    |ft| == 257 && 1 <= m <= 257 &&
    (forall c :: 0 <= c < m ==> ft[c] == Less(b, |b|, c + 1)) &&
    (forall c :: m <= c < 257 ==> ft[c] == Count(b, |b|, c))
  }

  lemma SumStep(b: seq<int>, ft: seq<int>, m: nat)
    requires Summed(b, ft, m) && m < 257
    ensures Summed(b, ft[m := ft[m] + ft[m - 1]], m + 1)
  {
    LessStep(b, |b|, m);
  }

  lemma SumStart(b: seq<int>, ft: seq<int>)
    requires Tallied(b, ft, |b|) && Keys(b, 256)
    ensures Summed(b, ft, 1)
  {
    LessStep(b, |b|, 0);
    LessEnds(b, |b|, 256);
  }

  /** The first i rotations have been placed; ft is one above the last slot filled for each byte. */
  ghost predicate Placed(b: seq<int>, ft: seq<int>, f: seq<int>, i: nat) {
    |ft| == 257 && i <= |b| <= |f| &&
    (forall c :: 0 <= c < 256 ==> ft[c] == Less(b, |b|, c + 1) - Count(b, i, c)) &&
    forall x :: 0 <= x < i ==> 0 <= SlotDown(b, x) < |b| && f[SlotDown(b, x)] == x
  }

  lemma PlaceStart(b: seq<int>, ft: seq<int>, f: seq<int>)
    requires Summed(b, ft, 257) && |b| <= |f|
    ensures Placed(b, ft, f, 0)
  {
  }

  lemma PlaceSlot(b: seq<int>, ft: seq<int>, f: seq<int>, i: nat)
    requires Placed(b, ft, f, i) && i < |b| && Keys(b, 256)
    ensures 0 <= b[i] < |ft| && ft[b[i]] - 1 == SlotDown(b, i) && 0 <= SlotDown(b, i) < |b| <= |f|
  {
    SlotsOwned(b, i);
  }

  lemma PlaceStep(b: seq<int>, ft: seq<int>, f: seq<int>, i: nat)
    requires Placed(b, ft, f, i) && i < |b| && Keys(b, 256) && 0 <= SlotDown(b, i) < |b|
    ensures Placed(b, ft[b[i] := SlotDown(b, i)], f[SlotDown(b, i) := i], i + 1)
  {
    var k := SlotDown(b, i);
    forall x | 0 <= x < i + 1 ensures 0 <= SlotDown(b, x) < |b| && f[k := i][SlotDown(b, x)] == x {
      if x < i { SlotsDistinct(b, x, i); }
    }
    PlaceSlot(b, ft, f, i);
  }

  /** The radix sort lists every rotation, in order of first byte, each in its byte's slots. */
  lemma PlacedInOrder(b: seq<int>, ft: seq<int>, f: seq<int>)
    requires Placed(b, ft, f, |b|) && Keys(b, 256)
    ensures Perm(b, f)
    ensures forall p :: 0 <= p < |b| ==> Less(b, |b|, b[f[p]]) <= p < Less(b, |b|, b[f[p]] + 1)
    ensures forall c :: 0 <= c < 256 ==> ft[c] == Less(b, |b|, c)
  {
    forall p | 0 <= p < |b|
      ensures 0 <= f[p] < |b| && Less(b, |b|, b[f[p]]) <= p < Less(b, |b|, b[f[p]] + 1) && SlotDown(b, f[p]) == p
    {
      var x := SlotDownHits(b, p);
      SlotsOwned(b, x);
    }
    forall p, q | 0 <= p < q < |b| ensures f[p] != f[q] {
      assert SlotDown(b, f[p]) == p && SlotDown(b, f[q]) == q;
    }
    forall c | 0 <= c < 256 ensures ft[c] == Less(b, |b|, c) {
      LessStep(b, |b|, c);
    }
  }

  /** Count the bytes, keep a copy of the counts, and place every rotation by its first byte. */
  method RadixSort(fmap: array<int>, eclass: array<int>, nblock: int, ghost b: seq<int>)
    returns (ftab: array<int>, ftabCopy: array<int>)
    requires 0 < nblock == |b| <= fmap.Length && nblock <= eclass.Length && fmap != eclass
    requires eclass[..nblock] == b && Keys(b, 256)
    modifies fmap
    ensures fresh(ftab) && fresh(ftabCopy) && ftab != ftabCopy && ftab.Length == 257 && ftabCopy.Length == 256
    ensures Placed(b, ftab[..], fmap[..], nblock)
    ensures forall c :: 0 <= c < 256 ==> ftabCopy[c] == Count(b, nblock, c)
  {
    ftab, ftabCopy := CountBytes(eclass, nblock, b);
    PlaceAll(fmap, eclass, nblock, ftab, b);
  }

  method CountBytes(eclass: array<int>, nblock: int, ghost b: seq<int>)
    returns (ftab: array<int>, ftabCopy: array<int>)
    requires 0 < nblock == |b| <= eclass.Length && eclass[..nblock] == b && Keys(b, 256)
    ensures fresh(ftab) && fresh(ftabCopy) && ftab != ftabCopy && ftab.Length == 257 && ftabCopy.Length == 256
    ensures Summed(b, ftab[..], 257)
    ensures forall c :: 0 <= c < 256 ==> ftabCopy[c] == Count(b, nblock, c)
  {
    ftab := new int[257](_ => 0);
    ftabCopy := new int[256];
    var i := 0;
    while i < nblock
      invariant 0 <= i <= nblock && Tallied(b, ftab[..], i)
    {
      assert eclass[i] == eclass[..nblock][i];
      TallyStep(b, ftab[..], i);
      ftab[eclass[i]] := ftab[eclass[i]] + 1;
      i := i + 1;
    }
    i := 0;
    while i < 256
      invariant 0 <= i <= 256 && Tallied(b, ftab[..], nblock)
      invariant forall c :: 0 <= c < i ==> ftabCopy[c] == Count(b, nblock, c)
    {
      ftabCopy[i] := ftab[i];
      i := i + 1;
    }
    SumStart(b, ftab[..]);
    i := 1;
    while i < 257
      invariant 1 <= i <= 257 && Summed(b, ftab[..], i)
      invariant forall c :: 0 <= c < 256 ==> ftabCopy[c] == Count(b, nblock, c)
    {
      SumStep(b, ftab[..], i);
      ftab[i] := ftab[i] + ftab[i - 1];
      i := i + 1;
    }
  }

  method PlaceAll(fmap: array<int>, eclass: array<int>, nblock: int, ftab: array<int>, ghost b: seq<int>)
    requires 0 < nblock == |b| <= fmap.Length && nblock <= eclass.Length
    requires fmap != eclass && ftab != fmap && ftab != eclass
    requires eclass[..nblock] == b && Keys(b, 256) && Summed(b, ftab[..], 257)
    modifies fmap, ftab
    ensures Placed(b, ftab[..], fmap[..], nblock)
  {
    hide *;
    PlaceStart(b, ftab[..], fmap[..]);
    var i := 0;
    while i < nblock
      invariant 0 <= i <= nblock && eclass[..nblock] == b && Placed(b, ftab[..], fmap[..], i)
    {
      assert eclass[i] == eclass[..nblock][i];
      PlaceSlot(b, ftab[..], fmap[..], i);
      PlaceStep(b, ftab[..], fmap[..], i);
      var j := eclass[i];
      var k := ftab[j] - 1;
      ftab[j] := k;
      fmap[k] := i;
      i := i + 1;
    }
  }

  /* ---------- the initial header bits ---------- */

  /** z is where some byte below m has its slots start. */
  ghost predicate StartsSlots(b: seq<int>, m: int, z: int) {
    exists c :: 0 <= c < m && Less(b, |b|, c) == z
  }

  lemma StartsOneMore(b: seq<int>, m: nat, z: int)
    ensures StartsSlots(b, m + 1, z) <==> StartsSlots(b, m, z) || Less(b, |b|, m) == z
  {
    if StartsSlots(b, m, z) {
      var c :| 0 <= c < m && Less(b, |b|, c) == z;
      assert 0 <= c < m + 1;
    }
  }

  /** The bits of the first 32 * w indices once the starts for the bytes below m are set. */
  ghost predicate StartBits(b: seq<int>, t: seq<bv32>, w: nat, m: int) {
    w <= |t| && forall z :: 0 <= z < 32 * w ==> (IsSet(t, z) <==> StartsSlots(b, m, z))
  }

  lemma StartBitsStep(b: seq<int>, t: seq<bv32>, t': seq<bv32>, w: nat, m: nat)
    requires StartBits(b, t, w, m) && OneBit(t', t, Less(b, |b|, m), true)
    ensures StartBits(b, t', w, m + 1)
  {
    hide IsSet;
    hide StartsSlots;
    forall z | 0 <= z < 32 * w ensures IsSet(t', z) <==> StartsSlots(b, m + 1, z) {
      StartsOneMore(b, m, z);
    }
  }

  /** The starts of the slots are the heads of the buckets of depth 1. */
  lemma StartsAreHeads(b: seq<int>, f: seq<int>, t: seq<bv32>, w: nat)
    requires Keys(b, 256) && Perm(b, f) && StartBits(b, t, w, 256) && |b| <= 32 * w
    requires forall p :: 0 <= p < |b| ==> Less(b, |b|, b[f[p]]) <= p < Less(b, |b|, b[f[p]] + 1)
    ensures Sorted(b, f, 1, |b|) && Heads(b, f, t, 1, 0, |b|)
  {
    hide IsSet;
    forall p, q | 0 <= p < q < |b| ensures At(b, f, p, q, 1) <= 0 {
      FirstByteOrder(b, f, p, q);
    }
    forall a | 0 <= a < |b| ensures IsSet(t, a) <==> Head(b, f, 1, a) {
      StartIsHead(b, f, a);
    }
  }

  lemma FirstByteOrder(b: seq<int>, f: seq<int>, p: int, q: int)
    requires Perm(b, f) && 0 <= p < q < |b|
    requires forall p :: 0 <= p < |b| ==> Less(b, |b|, b[f[p]]) <= p < Less(b, |b|, b[f[p]] + 1)
    ensures b[f[p]] <= b[f[q]]
  {
    if b[f[q]] < b[f[p]] {
      LessMonotone(b, |b|, b[f[q]] + 1, b[f[p]]);
    }
  }

  lemma StartIsHead(b: seq<int>, f: seq<int>, a: int)
    requires Keys(b, 256) && Perm(b, f) && 0 <= a < |b|
    requires forall p :: 0 <= p < |b| ==> Less(b, |b|, b[f[p]]) <= p < Less(b, |b|, b[f[p]] + 1)
    ensures StartsSlots(b, 256, a) <==> Head(b, f, 1, a)
  {
    var c := b[f[a]];
    if a == 0 {
      LessEnds(b, |b|, 256);
      assert Less(b, |b|, 0) == a;
    } else {
      FirstByteOrder(b, f, a - 1, a);
      if StartsSlots(b, 256, a) {
        var d :| 0 <= d < 256 && Less(b, |b|, d) == a;
        if b[f[a - 1]] == c {
          if d <= c { LessMonotone(b, |b|, d, c); } else { LessMonotone(b, |b|, c + 1, d); }
        }
      }
      if b[f[a - 1]] < c {
        LessMonotone(b, |b|, b[f[a - 1]] + 1, c);
        assert Less(b, |b|, c) == a;
      }
    }
  }

  lemma ZeroBits(b: seq<int>, t: seq<bv32>, w: nat)
    requires w <= |t| && forall i :: 0 <= i < w ==> t[i] == 0
    ensures StartBits(b, t, w, 0)
  {
    forall z | 0 <= z < 32 * w ensures !IsSet(t, z) {
      UniformWord(t[z / 32], z % 32);
    }
  }

  /** The sentinel bits for the first i pairs after |b|; the bits below |b| untouched. */
  ghost predicate SentinelPairs(t: seq<bv32>, u: seq<bv32>, n: nat, i: nat) {
    |t| == |u| && n + 64 <= 32 * |t| &&
    (forall z :: 0 <= z < n ==> (IsSet(t, z) <==> IsSet(u, z))) &&
    (i > 0 ==> IsSet(t, n) && !IsSet(t, n + 1))
  }

  lemma SentinelStep(t: seq<bv32>, t1: seq<bv32>, t2: seq<bv32>, u: seq<bv32>, n: nat, i: nat)
    requires SentinelPairs(t, u, n, i) && i < 32
    requires OneBit(t1, t, n + 2 * i, true) && OneBit(t2, t1, n + 2 * i + 1, false)
    ensures SentinelPairs(t2, u, n, i + 1)
  {
    hide IsSet;
  }

  lemma SentinelsDone(b: seq<int>, f: seq<int>, t: seq<bv32>, u: seq<bv32>, i: nat)
    requires Perm(b, f) && Sorted(b, f, 1, |b|) && Heads(b, f, u, 1, 0, |b|)
    requires SentinelPairs(t, u, |b|, i) && i > 0
    ensures Bucketed(b, f, t, 1)
  {
    hide IsSet;
  }

  /** Clear the table, mark the bucket starts, add the sentinels. */
  method InitialBits(bhtab: array<bv32>, ftab: array<int>, nblock: int, ghost b: seq<int>, ghost f: seq<int>)
    requires 0 < nblock == |b| && bhtab.Length >= 3 + nblock / 32 && ftab.Length == 257 && Keys(b, 256)
    requires bhtab as object != ftab
    requires Placed(b, ftab[..], f, nblock)
    modifies bhtab
    ensures Bucketed(b, f, bhtab[..], 1)
  {
    var nBhtab := 2 + nblock / 32;
    MarkStarts(bhtab, ftab, nblock, nBhtab, b, f);
    PlacedInOrder(b, ftab[..], f);
    StartsAreHeads(b, f, bhtab[..], nBhtab);
    SetSentinels(bhtab, nblock, b, f);
  }

  method MarkStarts(bhtab: array<bv32>, ftab: array<int>, nblock: int, nBhtab: int, ghost b: seq<int>,
      ghost f: seq<int>)
    requires 0 < nblock == |b| && nBhtab == 2 + nblock / 32 < bhtab.Length && ftab.Length == 257 && Keys(b, 256)
    requires bhtab as object != ftab
    requires Placed(b, ftab[..], f, nblock)
    modifies bhtab
    ensures StartBits(b, bhtab[..], nBhtab, 256)
  {
    hide StartBits;
    hide Placed;
    PlacedInOrder(b, ftab[..], f);
    var i := 0;
    while i < nBhtab
      invariant 0 <= i <= nBhtab && forall j :: 0 <= j < i ==> bhtab[j] == 0
    {
      bhtab[i] := 0;
      i := i + 1;
    }
    ZeroBits(b, bhtab[..], nBhtab);
    i := 0;
    while i < 256
      invariant 0 <= i <= 256 && StartBits(b, bhtab[..], nBhtab, i)
    {
      ghost var t := bhtab[..];
      assert ftab[..][i] == Less(b, |b|, i);
      SetBit(bhtab, ftab[i]);
      StartBitsStep(b, t, bhtab[..], nBhtab, i);
      i := i + 1;
    }
  }

  method SetSentinels(bhtab: array<bv32>, nblock: int, ghost b: seq<int>, ghost f: seq<int>)
    requires 0 < nblock == |b| && bhtab.Length >= 3 + nblock / 32
    requires Perm(b, f) && Sorted(b, f, 1, |b|) && Heads(b, f, bhtab[..], 1, 0, |b|)
    modifies bhtab
    ensures Bucketed(b, f, bhtab[..], 1)
  {
    ghost var u := bhtab[..];
    SentinelsDoneSetup(u, nblock);
    hide *;
    var i := 0;
    while i < 32
      invariant 0 <= i <= 32 && SentinelPairs(bhtab[..], u, nblock, i)
    {
      ghost var t := bhtab[..];
      SetBit(bhtab, nblock + 2 * i);
      ghost var t1 := bhtab[..];
      ClearBit(bhtab, nblock + 2 * i + 1);
      SentinelStep(t, t1, bhtab[..], u, nblock, i);
      i := i + 1;
    }
    SentinelsDone(b, f, bhtab[..], u, i);
  }

  lemma SentinelsDoneSetup(u: seq<bv32>, n: nat)
    requires |u| >= 3 + n / 32
    ensures n + 64 <= 32 * |u| && SentinelPairs(u, u, n, 0)
  {
  }

  /* ---------- one pass ---------- */

  lemma AssignHere(b: seq<int>, f: seq<int>, t: seq<bv32>, ec: seq<int>, h: nat, i: int)
    requires Assigned(b, f, t, ec, h, i) && 0 <= i < |b|
    ensures i < 32 * |t| && 0 <= f[i] < |b| <= |ec| && h <= |b| <= |f|
    ensures HeadOf(t, i) == if i == 0 || IsSet(t, i) then i else HeadOf(t, i - 1)
    ensures Back(|b|, f[i], h) == if f[i] - h < 0 then f[i] - h + |b| else f[i] - h
    ensures 0 <= Back(|b|, f[i], h) < |b|
  {
    hide IsSet;
  }

  lemma AssignStart(b: seq<int>, f: seq<int>, t: seq<bv32>, ec: seq<int>, h: nat)
    requires Bucketed(b, f, t, h) && h <= |b| <= |ec|
    ensures Assigned(b, f, t, ec, h, 0)
  {
  }

  /** Give every rotation the class of what follows h places on. */
  method AssignClasses(fmap: array<int>, eclass: array<int>, bhtab: array<bv32>, nblock: int, h: int, ghost b: seq<int>)
    requires 0 < nblock == |b| && 1 <= h <= nblock && fmap != eclass && nblock <= eclass.Length
    requires bhtab as object != eclass && Bucketed(b, fmap[..], bhtab[..], h)
    modifies eclass
    ensures Classes(b, eclass[..], h)
  {
    hide *;
    ghost var f, t := fmap[..], bhtab[..];
    AssignStart(b, f, t, eclass[..], h);
    var i, j := 0, 0;
    while i < nblock
      invariant 0 <= i <= nblock && fmap[..] == f && bhtab[..] == t
      invariant Assigned(b, f, t, eclass[..], h, i)
      invariant i == 0 ==> j == 0
      invariant i > 0 ==> i - 1 < 32 * |t| && j == HeadOf(t, i - 1)
    {
      AssignHere(b, f, t, eclass[..], h, i);
      AssignStep(b, f, t, eclass[..], h, i);
      var isHead := TestBit(bhtab, i);
      if isHead {
        j := i;
      }
      var k := fmap[i] - h;
      if k < 0 {
        k := k + nblock;
      }
      eclass[k] := j;
      i := i + 1;
    }
    AssignedAre(b, f, t, eclass[..], h);
  }

  /** ISSET_BH */
  method TestBit(bhtab: array<bv32>, z: int) returns (v: bool)
    requires 0 <= z < 32 * bhtab.Length
    ensures v == IsSet(bhtab[..], z)
  {
    v := Bit(bhtab[z / 32], z % 32);
  }

  lemma MarkStart(t: seq<bv32>, f: seq<int>, ec: seq<int>, l: int, r: int)
    requires Bucket(t, l, r) && r < |f| && forall a :: l <= a <= r ==> 0 <= f[a] < |ec|
    ensures Marked(t, t, f, ec, l, r, l)
  {
  }

  /** cc is the class of the previous entry, or -1 before the first. */
  lemma MarkStep(t': seq<bv32>, t'': seq<bv32>, t: seq<bv32>, f: seq<int>, ec: seq<int>, l: int, r: int, i: int,
      cc: int)
    requires Marked(t', t, f, ec, l, r, i) && Bucket(t, l, r) && l <= i <= r
    requires if i == l then cc == -1 else cc == ec[f[i - 1]]
    requires if cc != ec[f[i]] then OneBit(t'', t', i, true) else t'' == t'
    ensures Marked(t'', t, f, ec, l, r, i + 1)
  {
    hide IsSet;
  }

  lemma MarkRead(t': seq<bv32>, t: seq<bv32>, f: seq<int>, ec: seq<int>, l: int, r: int, i: int)
    requires Marked(t', t, f, ec, l, r, i) && l <= i <= r
    ensures 0 <= i < |f| && 0 <= f[i] < |ec| && i < 32 * |t'|
  {
  }

  /** Set a header bit wherever the class changes within the sorted bucket. */
  method MarkBucket(fmap: array<int>, eclass: array<int>, bhtab: array<bv32>, l: int, r: int)
    requires bhtab as object != eclass && bhtab as object != fmap
    requires Bucket(bhtab[..], l, r) && r < fmap.Length && forall a :: l <= a <= r ==> 0 <= fmap[a] < eclass.Length
    modifies bhtab
    ensures Marked(bhtab[..], old(bhtab[..]), fmap[..], eclass[..], l, r, r + 1)
  {
    ghost var f, ec, t := fmap[..], eclass[..], bhtab[..];
    MarkStart(t, f, ec, l, r);
    BucketBounds(t, l, r);
    hide *;
    var cc, i := -1, l;
    while i <= r
      invariant l <= i <= r + 1 && fmap[..] == f && eclass[..] == ec
      invariant Marked(bhtab[..], t, f, ec, l, r, i)
      invariant i == l ==> cc == -1
      invariant l < i ==> 0 <= i - 1 < |f| && 0 <= f[i - 1] < |ec| && cc == ec[f[i - 1]]
    {
      MarkRead(bhtab[..], t, f, ec, l, r, i);
      ghost var t' := bhtab[..];
      var cc1 := eclass[fmap[i]];
      ghost var before := cc;
      if cc != cc1 {
        SetBit(bhtab, i);
        cc := cc1;
      }
      MarkStep(t', bhtab[..], t, f, ec, l, r, i, before);
      i := i + 1;
    }
  }

  lemma BucketBounds(t: seq<bv32>, l: int, r: int)
    requires Bucket(t, l, r)
    ensures 0 <= l <= r && r + 1 < 32 * |t|
  {
  }

  /** As long as no bucket of several entries has been met, every entry is a head. */
  ghost predicate NoneYet(b: seq<int>, f: seq<int>, h: nat, fr: int, nNotDone: int) {
    Perm(b, f) && 0 <= fr <= |b| && 0 <= nNotDone &&
    (nNotDone == 0 ==> forall a :: 0 <= a < fr ==> Head(b, f, h, a))
  }

  lemma NoneYetStart(b: seq<int>, f: seq<int>, h: nat)
    requires Perm(b, f)
    ensures NoneYet(b, f, h, 0, 0)
  {
  }

  /** The run of set bits that ends at l - the last head before a clear bit - is skipped. */
  lemma RunOfHeads(b: seq<int>, f: seq<int>, t: seq<bv32>, h: nat, fr: int, l: int, nNotDone: int)
    requires Refined(b, f, t, h, fr) && NoneYet(b, f, h, fr, nNotDone)
    requires Run(t, fr, l + 1, true) && l + 1 < 32 * |t| && !IsSet(t, l + 1) && l <= |b|
    ensures fr <= l && Refined(b, f, t, h, l) && NoneYet(b, f, h, l, nNotDone)
  {
    hide IsSet;
    assert fr <= l;
    SkipSingles(b, f, t, h, fr, l);
  }

  lemma RunIsBucket(t: seq<bv32>, n: nat, l: int, r: int)
    requires Sentinels(t, n) && 0 <= l < n && IsSet(t, l) && !IsSet(t, l + 1)
    requires Run(t, l + 1, r + 1, false) && r + 1 < 32 * |t| && IsSet(t, r + 1) && r + 1 <= n
    ensures l < r < n && Bucket(t, l, r)
  {
    hide IsSet;
  }

  lemma RefinedFacts(b: seq<int>, f: seq<int>, t: seq<bv32>, h: nat, fr: int)
    requires Refined(b, f, t, h, fr)
    ensures 0 <= fr <= |b| <= |f| && |b| + 1 < 32 * |t| && Sentinels(t, |b|) && Perm(b, f) && IsSet(t, fr)
    ensures IsSet(t, |b|) && !IsSet(t, |b| + 1)
    ensures forall p :: 0 <= p < |b| ==> 0 <= f[p] < |b|
  {
    hide IsSet;
  }

  /** What one pass keeps while it works through the buckets from entry fr on. */
  ghost predicate Passing(b: seq<int>, f: seq<int>, ec: seq<int>, t: seq<bv32>, h: nat, fr: int, nNotDone: int) {
    Refined(b, f, t, h, fr) && NoneYet(b, f, h, fr, nNotDone) && Classes(b, ec, h)
  }

  /** Find the next bucket of several entries: its two ends, or an l at the end of the block. */
  method NextBucket(bhtab: array<bv32>, nblock: int, r: int, ghost b: seq<int>, ghost f: seq<int>,
                    ghost ec: seq<int>, ghost h: nat, ghost nNotDone: int) returns (l: int, r': int)
    requires 0 < nblock == |b| && Passing(b, f, ec, bhtab[..], h, r + 1, nNotDone)
    ensures l >= nblock ==> Passing(b, f, ec, bhtab[..], h, nblock, nNotDone)
    ensures l < nblock ==> l < r' < nblock && Bucket(bhtab[..], l, r') && Passing(b, f, ec, bhtab[..], h, l, nNotDone)
    ensures l < nblock ==> r < r'
  {
    hide *;
    ghost var t := bhtab[..];
    PassingParts(b, f, ec, t, h, r + 1, nNotDone);
    RefinedFacts(b, f, t, h, r + 1);
    var k := SkipRun(bhtab, r + 1, true, nblock + 1);
    l, r' := k - 1, r;
    RunOfHeads(b, f, t, h, r + 1, l, nNotDone);
    PassingIntro(b, f, ec, t, h, l, nNotDone);
    RefinedFacts(b, f, t, h, l);
    if l >= nblock {
      return;
    }
    k := SkipRun(bhtab, k, false, nblock);
    r' := k - 1;
    RunIsBucket(t, nblock, l, r');
  }

  lemma PassingParts(b: seq<int>, f: seq<int>, ec: seq<int>, t: seq<bv32>, h: nat, fr: int, nNotDone: int)
    requires Passing(b, f, ec, t, h, fr, nNotDone)
    ensures Refined(b, f, t, h, fr) && NoneYet(b, f, h, fr, nNotDone) && Classes(b, ec, h)
  {
  }

  lemma PassingIntro(b: seq<int>, f: seq<int>, ec: seq<int>, t: seq<bv32>, h: nat, fr: int, nNotDone: int)
    requires Refined(b, f, t, h, fr) && NoneYet(b, f, h, fr, nNotDone) && Classes(b, ec, h)
    ensures Passing(b, f, ec, t, h, fr, nNotDone)
  {
  }

  lemma BucketKeyed(b: seq<int>, f: seq<int>, ec: seq<int>, t: seq<bv32>, h: nat, l: int, r: int, nNotDone: int)
    requires Passing(b, f, ec, t, h, l, nNotDone) && 0 <= l < r < |b|
    ensures r < |f| && Keyed(f, |ec|, 0, l, r)
  {
    hide IsSet;
  }

  lemma PassStep(b: seq<int>, f: seq<int>, f': seq<int>, ec: seq<int>, t: seq<bv32>, t': seq<bv32>, h: nat, l: int,
      r: int,
                 nNotDone: int)
    requires Passing(b, f, ec, t, h, l, nNotDone) && Bucket(t, l, r) && l < r < |b|
    requires Kept(f', f, ec, l, r) && SortedByClass(f', ec, l, r) && Marked(t', t, f', ec, l, r, r + 1)
    ensures Passing(b, f', ec, t', h, r + 1, nNotDone + (r - l + 1))
  {
    hide IsSet;
    hide RangePerm;
    hide SortedByClass;
    hide Marked;
    hide Classes;
    hide Bucket;
    BucketDone(b, f, f', t, t', ec, h, l, r);
  }

  /** Sort every bucket of several entries by class, and mark the finer buckets. */
  method RefinePass(fmap: array<int>, eclass: array<int>, bhtab: array<bv32>, nblock: int, ghost h: int,
      ghost b: seq<int>)
    returns (nNotDone: int)
    requires 0 < nblock == |b| < 0x8000_0000 && 1 <= h <= nblock && fmap != eclass
    requires bhtab as object != eclass && bhtab as object != fmap
    requires Bucketed(b, fmap[..], bhtab[..], h) && Classes(b, eclass[..], h)
    modifies fmap, bhtab
    ensures Bucketed(b, fmap[..], bhtab[..], 2 * h) && NoneYet(b, fmap[..], h, nblock, nNotDone)
  {
    hide *;
    ghost var ec := eclass[..];
    nNotDone := 0;
    var r := -1;
    RefineStart(b, fmap[..], bhtab[..], h);
    RefinedFacts(b, fmap[..], bhtab[..], h, 0);
    NoneYetStart(b, fmap[..], h);
    PassingIntro(b, fmap[..], ec, bhtab[..], h, 0, 0);
    while true
      invariant eclass[..] == ec && r < nblock
      invariant Passing(b, fmap[..], ec, bhtab[..], h, r + 1, nNotDone)
      decreases nblock - r
    {
      var l, r' := NextBucket(bhtab, nblock, r, b, fmap[..], ec, h, nNotDone);
      if l >= nblock {
        break;
      }
      r := r';
      RefineBucket(fmap, eclass, bhtab, nblock, h, b, l, r, nNotDone);
      nNotDone := nNotDone + (r - l + 1);
    }
    PassingParts(b, fmap[..], ec, bhtab[..], h, nblock, nNotDone);
    RefineEnd(b, fmap[..], bhtab[..], h);
  }

  method RefineBucket(fmap: array<int>, eclass: array<int>, bhtab: array<bv32>, ghost nblock: int, ghost h: int,
                      ghost b: seq<int>, l: int, r: int, ghost nNotDone: int)
    requires 0 < nblock == |b| < 0x8000_0000 && 1 <= h <= nblock && fmap != eclass
    requires bhtab as object != eclass && bhtab as object != fmap
    requires Passing(b, fmap[..], eclass[..], bhtab[..], h, l, nNotDone) && Bucket(bhtab[..], l, r) && l < r < nblock
    modifies fmap, bhtab
    ensures Passing(b, fmap[..], eclass[..], bhtab[..], h, r + 1, nNotDone + (r - l + 1))
  {
    hide *;
    ghost var f, t, ec := fmap[..], bhtab[..], eclass[..];
    BucketBounds(t, l, r);
    BucketKeyed(b, f, ec, t, h, l, r, nNotDone);
    QSort3(fmap, eclass, l, r);
    assert eclass[..] == ec && bhtab[..] == t;
    ghost var f' := fmap[..];
    KeptClassed(f', f, ec, l, r);
    MarkBucket(fmap, eclass, bhtab, l, r);
    assert eclass[..] == ec && fmap[..] == f';
    PassStep(b, f, f', ec, t, bhtab[..], h, l, r, nNotDone);
  }

  lemma KeptClassed(f': seq<int>, f: seq<int>, ec: seq<int>, l: int, r: int)
    requires Kept(f', f, ec, l, r)
    ensures forall a :: l <= a <= r ==> 0 <= a < |f'| && 0 <= f'[a] < |ec|
  {
  }

  /** The log(n) loop: from buckets of depth 1 to sorted rotations. */
  method RefineAll(fmap: array<int>, eclass: array<int>, bhtab: array<bv32>, nblock: int, ghost b: seq<int>)
    requires 0 < nblock == |b| < 0x4000_0000 && fmap != eclass && nblock <= eclass.Length && nblock <= fmap.Length
    requires bhtab as object != eclass && bhtab as object != fmap
    requires Bucketed(b, fmap[..], bhtab[..], 1)
    modifies fmap, eclass, bhtab
    ensures SortedRotations(b, fmap[..nblock])
  {
    hide *;
    var h := 1;
    while true
      invariant 1 <= h <= nblock && Bucketed(b, fmap[..], bhtab[..], h)
      decreases nblock - h
    {
      ghost var f, t := fmap[..], bhtab[..];
      AssignClasses(fmap, eclass, bhtab, nblock, h, b);
      assert fmap[..] == f && bhtab[..] == t;
      var nNotDone := RefinePass(fmap, eclass, bhtab, nblock, h, b);
      PassEnds(b, fmap[..], bhtab[..], h, nNotDone);
      h := h * 2;
      if h > nblock || nNotDone == 0 {
        assert fmap[..][..nblock] == fmap[..nblock];
        break;
      }
    }
  }

  lemma PassEnds(b: seq<int>, f: seq<int>, t: seq<bv32>, h: nat, nNotDone: int)
    requires Bucketed(b, f, t, 2 * h) && NoneYet(b, f, h, |b|, nNotDone) && h <= |b|
    ensures 2 * h > |b| || nNotDone == 0 ==> |b| <= |f| && SortedRotations(b, f[..|b|])
  {
    hide IsSet;
    hide SortedRotations;
    if 2 * h > |b| || nNotDone == 0 {
      BucketedIsSorted(b, f, t, 2 * h, h);
    }
  }

  /* ---------- restoring the block ---------- */

  /** What is left of each byte's count when entry i is due. */
  ghost function Remaining(b: seq<int>, c: int, i: int): int {
    var lo, hi := Less(b, |b|, c), Less(b, |b|, c + 1);
    if i >= hi then 0 else if i <= lo then hi - lo else hi - i
  }

  ghost predicate Restoring(b: seq<int>, p: seq<int>, cells: seq<int>, counts: seq<int>, i: int, j: int) {
    0 <= i <= |b| <= |cells| && |p| == |b| && |counts| == 256 &&
    (forall c :: 0 <= c < 256 ==> counts[c] == Remaining(b, c, i)) &&
    (forall k :: 0 <= k < i ==> 0 <= p[k] < |b| && cells[p[k]] == b[p[k]]) &&
    0 <= j < 256 && (i < |b| ==> 0 <= p[i] < |b| && j <= b[p[i]] < 256)
  }

  lemma RestoreStart(b: seq<int>, p: seq<int>, cells: seq<int>, counts: seq<int>)
    requires SortedRotations(b, p) && Keys(b, 256) && 0 < |b| <= |cells| && |counts| == 256
    requires forall c :: 0 <= c < 256 ==> counts[c] == Count(b, |b|, c)
    ensures Restoring(b, p, cells, counts, 0, 0)
  {
    forall c | 0 <= c < 256 ensures counts[c] == Remaining(b, c, 0) {
      LessStep(b, |b|, c);
    }
  }

  lemma FirstBytesSorted(b: seq<int>, p: seq<int>, i: int, j: int)
    requires SortedRotations(b, p) && 0 <= i <= j < |b|
    ensures b[p[i]] <= b[p[j]]
  {
    if i < j {
      assert CmpRotations(b, p[i], p[j]) <= 0;
    }
  }

  lemma RestoreSlot(b: seq<int>, p: seq<int>, i: int)
    requires SortedRotations(b, p) && 0 <= i < |b|
    ensures Less(b, |b|, b[p[i]]) <= i < Less(b, |b|, b[p[i]] + 1)
  {
    forall j, k | 0 <= j < k < |b| ensures b[p[j]] <= b[p[k]] {
      FirstBytesSorted(b, p, j, k);
    }
    SortedSlots(b, p, i);
  }

  /** j moves up to the byte whose count is not used up: the byte that entry i starts with. */
  lemma RestoreSkip(b: seq<int>, p: seq<int>, cells: seq<int>, counts: seq<int>, i: int, j: int)
    requires SortedRotations(b, p) && Keys(b, 256) && Restoring(b, p, cells, counts, i, j) && i < |b|
    ensures 0 <= p[i] < |b|
    ensures counts[j] == 0 ==> j + 1 < 256 && Restoring(b, p, cells, counts, i, j + 1)
    ensures counts[j] != 0 ==> j == b[p[i]]
  {
    RestoreSlot(b, p, i);
    var c := b[p[i]];
    if j < c {
      LessMonotone(b, |b|, j + 1, c);
    }
  }

  lemma RemainingStep(b: seq<int>, j: int, c: int, i: int)
    requires Less(b, |b|, j) <= i < Less(b, |b|, j + 1)
    ensures Remaining(b, c, i + 1) == Remaining(b, c, i) - (if c == j then 1 else 0)
  {
    LessMonotone(b, |b|, c, c + 1);
    if c < j {
      LessMonotone(b, |b|, c + 1, j);
    } else if c > j {
      LessMonotone(b, |b|, j + 1, c);
    }
  }

  lemma RestoreStep(b: seq<int>, p: seq<int>, cells: seq<int>, counts: seq<int>, i: int, j: int)
    requires SortedRotations(b, p) && Keys(b, 256) && Restoring(b, p, cells, counts, i, j) && i < |b| && j == b[p[i]]
    ensures Restoring(b, p, cells[p[i] := j], counts[j := counts[j] - 1], i + 1, j)
  {
    hide CmpRotations;
    hide Remaining;
    RestoreSlot(b, p, i);
    if i + 1 < |b| { FirstBytesSorted(b, p, i, i + 1); }
    var counts' := counts[j := counts[j] - 1];
    forall c | 0 <= c < 256 ensures counts'[c] == Remaining(b, c, i + 1) {
      RemainingStep(b, j, c, i);
    }
  }

  lemma RestoreDone(b: seq<int>, p: seq<int>, cells: seq<int>, counts: seq<int>, j: int)
    requires SortedRotations(b, p) && Restoring(b, p, cells, counts, |b|, j)
    ensures cells[..|b|] == b
  {
    forall x | 0 <= x < |b| ensures cells[x] == b[x] {
      var k := PermutationHits(p, |b|, x);
    }
  }

  /** Write each rotation's first byte back, reading the bytes off the counts in sorted order. */
  method RestoreBlock(fmap: array<int>, eclass: array<int>, ftabCopy: array<int>, nblock: int, ghost b: seq<int>)
    requires 0 < nblock == |b| <= eclass.Length && nblock <= fmap.Length && ftabCopy.Length == 256
    requires fmap != eclass && ftabCopy != fmap && ftabCopy != eclass && Keys(b, 256)
    requires SortedRotations(b, fmap[..nblock])
    requires forall c :: 0 <= c < 256 ==> ftabCopy[c] == Count(b, nblock, c)
    modifies eclass, ftabCopy
    ensures eclass[..nblock] == b
  {
    hide *;
    ghost var p := fmap[..nblock];
    RestoreStart(b, p, eclass[..], ftabCopy[..]);
    var i, j := 0, 0;
    while i < nblock
      invariant 0 <= i <= nblock && 0 <= j < 256 && fmap[..nblock] == p
      invariant Restoring(b, p, eclass[..], ftabCopy[..], i, j)
    {
      RestoreSkip(b, p, eclass[..], ftabCopy[..], i, j);
      while ftabCopy[j] == 0
        invariant 0 <= j < 256 && Restoring(b, p, eclass[..], ftabCopy[..], i, j)
        invariant ftabCopy[j] != 0 ==> 0 <= p[i] < |b| && j == b[p[i]]
        invariant ftabCopy[j] == 0 ==> j + 1 < 256 && Restoring(b, p, eclass[..], ftabCopy[..], i, j + 1)
        decreases 256 - j
      {
        j := j + 1;
        RestoreSkip(b, p, eclass[..], ftabCopy[..], i, j);
      }
      RestoreStep(b, p, eclass[..], ftabCopy[..], i, j);
      assert p[i] == fmap[i];
      ftabCopy[j] := ftabCopy[j] - 1;
      eclass[fmap[i]] := j;
      i := i + 1;
    }
    RestoreDone(b, p, eclass[..], ftabCopy[..], j);
    assert eclass[..][..nblock] == eclass[..nblock];
  }

  /* ---------- the whole sort ---------- */

  /** fallbackSort: fmap receives a rotation order of the block, and the block is intact afterwards. */
  method Sort(fmap: array<int>, eclass: array<int>, bhtab: array<bv32>, nblock: int)
    requires 0 < nblock < 0x4000_0000 && nblock <= fmap.Length && nblock <= eclass.Length
    requires bhtab.Length >= 3 + nblock / 32
    requires fmap != eclass && bhtab as object != eclass && bhtab as object != fmap
    requires Keys(eclass[..nblock], 256)
    modifies fmap, eclass, bhtab
    ensures SortedRotations(old(eclass[..nblock]), fmap[..nblock])
    ensures eclass[..nblock] == old(eclass[..nblock])
  {
    hide *;
    ghost var b := eclass[..nblock];
    var ftab, ftabCopy := RadixSort(fmap, eclass, nblock, b);
    ghost var copy := ftabCopy[..];
    InitialBits(bhtab, ftab, nblock, b, fmap[..]);
    RefineAll(fmap, eclass, bhtab, nblock, b);
    assert ftabCopy[..] == copy;
    forall c | 0 <= c < 256 ensures ftabCopy[c] == Count(b, nblock, c) {
      assert ftabCopy[c] == copy[c];
    }
    RestoreBlock(fmap, eclass, ftabCopy, nblock, b);
  }
}
