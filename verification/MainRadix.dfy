/** blocksort.c, mainSort before its main loop: the initial two-byte radix sort, the overshoot area,
    and the order in which the big buckets are processed. */
module MainRadix {
  import opened Rotations
  import opened Counting
  import opened MainCompare
  import opened MainOrder

  /* ---------- counting ---------- */

  /** ft holds the counts of the pairs at i and after. */
  ghost predicate Tallied(b: seq<int>, ft: seq<int>, i: nat) {
    |ft| == 65537 && i <= |b| && forall k :: 0 <= k < 65537 ==> ft[k] == Count(Pairs(b), |b|, k) - Count(Pairs(b), i, k)
  }

  /** j's high byte is the byte after i. */
  ghost predicate Carries(b: seq<int>, j: int, i: nat) {
    0 < i <= |b| && 0 <= j < 65536 && j / 256 == b[if i == |b| then 0 else i]
  }

  lemma TallyStep(b: seq<int>, ft: seq<int>, i: nat, j: int)
    requires Keys(b, 256) && Tallied(b, ft, i) && Carries(b, j, i)
    ensures j / 256 + b[i - 1] * 256 == Pair(b, i - 1) && 0 <= Pair(b, i - 1) < 65536
    ensures Tallied(b, ft[Pair(b, i - 1) := ft[Pair(b, i - 1)] + 1], i - 1)
    ensures i > 1 ==> Carries(b, Pair(b, i - 1), i - 1)
  {
    PairRange(b, i - 1);
    hide Pair;
  }

  lemma TallyStart(b: seq<int>, ft: seq<int>)
    requires |ft| == 65537 && forall k :: 0 <= k < 65537 ==> ft[k] == 0
    ensures Tallied(b, ft, |b|)
  {
  }

  method ClearTable(ftab: array<int>)
    requires ftab.Length == 65537
    modifies ftab
    ensures forall k :: 0 <= k < 65537 ==> ftab[..][k] == 0
  {
    var i := 65536;
    while i >= 0
      invariant -1 <= i <= 65536 && forall k :: i < k < 65537 ==> ftab[k] == 0
    {
      ftab[i] := 0;
      i := i - 1;
    }
  }

  /** One entry: j picks up the byte at i in front of the byte after it. */
  method CountOne(block: array<int>, quadrant: array<int>, ftab: array<int>, i: nat, j: int, ghost b: seq<int>)
      returns (j': int)
    requires ftab != block && ftab != quadrant && block != quadrant && i < |b| <= block.Length == quadrant.Length
    requires Keys(b, 256) && block[..|b|] == b && Tallied(b, ftab[..], i + 1) && Carries(b, j, i + 1)
    modifies quadrant, ftab
    ensures Tallied(b, ftab[..], i) && (i > 0 ==> Carries(b, j', i))
    ensures quadrant[..] == old(quadrant[..])[i := 0]
  {
    TallyStep(b, ftab[..], i + 1, j);
    assert block[i] == block[..|b|][i];
    hide *;
    quadrant[i] := 0;
    j' := j / 256 + block[i] * 256;
    ftab[j'] := ftab[j'] + 1;
  }

  /** Quadrants are zero from i up to n. */
  ghost predicate Blank(q: seq<int>, i: int, n: int) {
    0 <= i <= n <= |q| && forall k :: i <= k < n ==> q[k] == 0
  }

  lemma BlankStep(q: seq<int>, i: int, n: int)
    requires Blank(q, i + 1, n) && 0 <= i
    ensures Blank(q[i := 0], i, n)
  {
  }

  lemma CarryStart(b: seq<int>)
    requires Keys(b, 256) && |b| > 0
    ensures Carries(b, b[0] * 256, |b|)
  {
  }

  /** The two-byte frequency table; quadrants of the block are cleared on the way. */
  method CountPairs(block: array<int>, quadrant: array<int>, ftab: array<int>, nblock: nat, ghost b: seq<int>)
    requires ftab != block && ftab != quadrant && block != quadrant && nblock == |b| > 0 &&
      nblock <= block.Length == quadrant.Length
    requires Keys(b, 256) && block[..nblock] == b && ftab.Length == 65537
    modifies quadrant, ftab
    ensures Tallied(b, ftab[..], 0) && Blank(quadrant[..], 0, nblock)
  {
    hide *;
    ClearTable(ftab);
    TallyStart(b, ftab[..]);
    CarryStart(b);
    assert block[0] == block[..nblock][0];
    ghost var blk := block[..];
    var j := block[0] * 256;
    var i: int := nblock - 1;
    BlankNone(quadrant[..], nblock);
    while i >= 3   // unrolled by four
      invariant -1 <= i < nblock && block[..] == blk && Tallied(b, ftab[..], i + 1) && (i >= 0 ==> Carries(b, j, i + 1))
      invariant Blank(quadrant[..], i + 1, nblock)
    {
      j := CountFour(block, quadrant, ftab, i, j, nblock, b);
      i := i - 4;
    }
    while i >= 0
      invariant -1 <= i < nblock && block[..] == blk && Tallied(b, ftab[..], i + 1) && (i >= 0 ==> Carries(b, j, i + 1))
      invariant Blank(quadrant[..], i + 1, nblock)
    {
      BlankStep(quadrant[..], i, nblock);
      j := CountOne(block, quadrant, ftab, i, j, b);
      i := i - 1;
    }
  }

  lemma BlankNone(q: seq<int>, n: int)
    requires 0 <= n <= |q|
    ensures Blank(q, n, n)
  {
  }

  method CountFour(block: array<int>, quadrant: array<int>, ftab: array<int>, i: nat, j: int, nblock: nat,
      ghost b: seq<int>) returns (j': int)
    requires ftab != block && ftab != quadrant && block != quadrant && 3 <= i < nblock == |b| &&
      nblock <= block.Length == quadrant.Length
    requires Keys(b, 256) && block[..nblock] == b && Tallied(b, ftab[..], i + 1) && Carries(b, j, i + 1) &&
      Blank(quadrant[..], i + 1, nblock)
    modifies quadrant, ftab
    ensures Tallied(b, ftab[..], i - 3) && (i > 3 ==> Carries(b, j', i - 3)) && Blank(quadrant[..], i - 3, nblock)
  {
    hide *;
    BlankStep(quadrant[..], i, nblock);
    j' := CountOne(block, quadrant, ftab, i, j, b);
    BlankStep(quadrant[..], i - 1, nblock);
    j' := CountOne(block, quadrant, ftab, i - 1, j', b);
    BlankStep(quadrant[..], i - 2, nblock);
    j' := CountOne(block, quadrant, ftab, i - 2, j', b);
    BlankStep(quadrant[..], i - 3, nblock);
    j' := CountOne(block, quadrant, ftab, i - 3, j', b);
  }

  /* ---------- the overshoot area ---------- */

  /** The first i entries of the overshoot area are written. */
  ghost predicate Overshooting(b: seq<int>, blk: seq<int>, q: seq<int>, i: int) {
    |b| > 34 && |blk| == |q| == |b| + 34 && 0 <= i <= 34 && blk[..|b|] == b &&
    (forall k :: 0 <= k < |b| + i ==> q[k] == 0) && forall k :: |b| <= k < |b| + i ==> blk[k] == b[k - |b|]
  }

  lemma OvershotStep(b: seq<int>, blk: seq<int>, q: seq<int>, i: int)
    requires Overshooting(b, blk, q, i) && i < 34
    ensures 0 <= i < |blk| && |b| + i < |blk| == |q| && Overshooting(b, blk[|b| + i := blk[i]], q[|b| + i := 0], i + 1)
  {
    assert blk[i] == blk[..|b|][i];
    assert blk[|b| + i := blk[i]][..|b|] == blk[..|b|];
  }

  lemma Overshot(b: seq<int>, blk: seq<int>, q: seq<int>)
    requires Overshooting(b, blk, q, 34)
    ensures Extended(blk, b) && QuadrantsRight(b, q)
  {
    forall k | 0 <= k < |b| ensures blk[k] == b[k] { assert blk[k] == blk[..|b|][k]; }
  }

  method CopyOvershoot(block: array<int>, quadrant: array<int>, nblock: nat, ghost b: seq<int>)
    requires block != quadrant && nblock == |b| > 34 && block.Length == quadrant.Length == nblock + 34
    requires block[..nblock] == b && Blank(quadrant[..], 0, nblock)
    modifies block, quadrant
    ensures Extended(block[..], b) && QuadrantsRight(b, quadrant[..]) && block[..nblock] == b
  {
    var i := 0;
    assert block[..][..nblock] == b;
    assert Overshooting(b, block[..], quadrant[..], 0);
    hide *;
    while i < 34
      invariant 0 <= i <= 34 && Overshooting(b, block[..], quadrant[..], i)
    {
      OvershotStep(b, block[..], quadrant[..], i);
      block[nblock + i] := block[i];
      quadrant[nblock + i] := 0;
      i := i + 1;
    }
    Overshot(b, block[..], quadrant[..]);
    OvershotBlock(b, block[..], quadrant[..]);
    assert block[..nblock] == block[..][..nblock];
  }

  lemma OvershotBlock(b: seq<int>, blk: seq<int>, q: seq<int>)
    requires Overshooting(b, blk, q, 34)
    ensures |b| <= |blk| && blk[..|b|] == b
  {
  }

  /* ---------- placing ---------- */

  /** Cumulative counts below m, plain counts from m on. */
  ghost predicate Summed(b: seq<int>, ft: seq<int>, m: nat) {
    |ft| == 65537 && 1 <= m <= 65537 &&
    (forall k :: 0 <= k < m ==> ft[k] == Less(Pairs(b), |b|, k + 1)) &&
    (forall k :: m <= k < 65537 ==> ft[k] == Count(Pairs(b), |b|, k))
  }

  lemma SumStart(b: seq<int>, ft: seq<int>)
    requires Tallied(b, ft, 0) && Keys(b, 256)
    ensures Summed(b, ft, 1)
  {
    LessStep(Pairs(b), |b|, 0);
    StartEnds(b);
  }

  lemma SumStep(b: seq<int>, ft: seq<int>, m: nat)
    requires Summed(b, ft, m) && m < 65537
    ensures Summed(b, ft[m := ft[m] + ft[m - 1]], m + 1)
  {
    LessStep(Pairs(b), |b|, m);
  }

  method SumTable(ftab: array<int>, ghost b: seq<int>)
    requires Tallied(b, ftab[..], 0) && Keys(b, 256) && ftab.Length == 65537
    modifies ftab
    ensures Summed(b, ftab[..], 65537)
  {
    hide *;
    SumStart(b, ftab[..]);
    var i := 1;
    while i <= 65536
      invariant 1 <= i <= 65537 && Summed(b, ftab[..], i)
    {
      SumStep(b, ftab[..], i);
      ftab[i] := ftab[i] + ftab[i - 1];
      i := i + 1;
    }
  }

  /** The rotations from i on have been placed, last first; ft is the lowest slot filled of each bucket. */
  ghost predicate Placed(b: seq<int>, ft: seq<int>, f: seq<int>, i: nat) {
    |ft| == 65537 && |f| == |b| && i <= |b| && ft[65536] == |b| &&
    (forall k :: 0 <= k < 65536 ==> ft[k] == Less(Pairs(b), |b|, k) + Count(Pairs(b), i, k)) &&
    forall x :: i <= x < |b| ==> 0 <= SlotUp(Pairs(b), x) < |b| && f[SlotUp(Pairs(b), x)] == x
  }

  lemma PlaceStart(b: seq<int>, ft: seq<int>, f: seq<int>)
    requires Summed(b, ft, 65537) && |f| == |b| && Keys(b, 256)
    ensures Placed(b, ft, f, |b|)
  {
    forall k | 0 <= k < 65536 ensures ft[k] == Less(Pairs(b), |b|, k) + Count(Pairs(b), |b|, k) {
      LessStep(Pairs(b), |b|, k);
    }
    StartEnds(b);
    LessMonotone(Pairs(b), |b|, 65536, 65537);
  }

  lemma PlaceStep(b: seq<int>, ft: seq<int>, f: seq<int>, i: nat, s: int)
    requires Keys(b, 256) && Placed(b, ft, f, i) && Carries(b, s, i)
    ensures s / 256 + b[i - 1] * 256 == Pair(b, i - 1) && 0 <= Pair(b, i - 1) < 65536
    ensures 0 <= ft[Pair(b, i - 1)] - 1 < |f|
    ensures Placed(b, ft[Pair(b, i - 1) := ft[Pair(b, i - 1)] - 1], f[ft[Pair(b, i - 1)] - 1 := i - 1], i - 1)
    ensures i > 1 ==> Carries(b, Pair(b, i - 1), i - 1)
  {
    PairRange(b, i - 1);
    var P, k := Pairs(b), Pair(b, i - 1);
    hide Pair;
    SlotsOwned(P, i - 1);
    assert ft[k] - 1 == SlotUp(P, i - 1);
    forall x | i - 1 <= x < |b| ensures 0 <= SlotUp(P, x) < |b| && f[ft[k] - 1 := i - 1][SlotUp(P, x)] == x {
      SlotsOwned(P, x);
      if x > i - 1 { SlotsDistinct(P, i - 1, x); }
    }
  }

  /** The radix sort lists every rotation, each in the bucket of its pair. */
  lemma PlacedBucketed(b: seq<int>, ft: seq<int>, f: seq<int>)
    requires Placed(b, ft, f, 0) && Keys(b, 256)
    ensures Bucketed(b, f) && forall k :: 0 <= k <= 65536 ==> ft[k] == Start(b, k)
  {
    var P := Pairs(b);
    forall p {:trigger f[p]} | 0 <= p < |b| ensures 0 <= f[p] < |b| && In(b, Pair(b, f[p]), p) && SlotUp(P, f[p]) == p {
      var x := SlotUpHits(P, p);
      SlotsOwned(P, x);
    }
    forall p, q | 0 <= p < q < |b| ensures f[p] != f[q] {
      assert SlotUp(P, f[p]) == p && SlotUp(P, f[q]) == q;
    }
    StartEnds(b);
  }

  method PlaceOne(ptr: array<int>, block: array<int>, ftab: array<int>, i: nat, s: int, ghost b: seq<int>)
      returns (s': int)
    requires ptr != block && ptr != ftab && ftab != block && i < |b| <= block.Length
    requires Keys(b, 256) && block[..|b|] == b && Placed(b, ftab[..], ptr[..], i + 1) && Carries(b, s, i + 1)
    modifies ptr, ftab
    ensures Placed(b, ftab[..], ptr[..], i) && (i > 0 ==> Carries(b, s', i))
  {
    PlaceStep(b, ftab[..], ptr[..], i + 1, s);
    assert block[i] == block[..|b|][i];
    assert ftab.Length == 65537;
    hide *;
    s' := s / 256 + block[i] * 256;
    var j := ftab[s'] - 1;
    ftab[s'] := j;
    ptr[j] := i;
  }

  /** Complete the initial radix sort: ftab is left with the first slot of every small bucket. */
  method PlacePairs(ptr: array<int>, block: array<int>, ftab: array<int>, nblock: nat, ghost b: seq<int>)
    requires ptr != block && ptr != ftab && ftab != block && nblock == |b| == ptr.Length > 0 && nblock <= block.Length
    requires Keys(b, 256) && block[..nblock] == b && Summed(b, ftab[..], 65537)
    modifies ptr, ftab
    ensures Placed(b, ftab[..], ptr[..], 0)
  {
    hide *;
    PlaceStart(b, ftab[..], ptr[..]);
    CarryStart(b);
    assert block[0] == block[..nblock][0];
    ghost var blk := block[..];
    var s := block[0] * 256;
    var i: int := nblock - 1;
    while i >= 3   // unrolled by four
      invariant -1 <= i < nblock && block[..] == blk && Placed(b, ftab[..], ptr[..], i + 1) &&
        (i >= 0 ==> Carries(b, s, i + 1))
    {
      s := PlaceOne(ptr, block, ftab, i, s, b);
      s := PlaceOne(ptr, block, ftab, i - 1, s, b);
      s := PlaceOne(ptr, block, ftab, i - 2, s, b);
      s := PlaceOne(ptr, block, ftab, i - 3, s, b);
      i := i - 4;
    }
    while i >= 0
      invariant -1 <= i < nblock && block[..] == blk && Placed(b, ftab[..], ptr[..], i + 1) &&
        (i >= 0 ==> Carries(b, s, i + 1))
    {
      s := PlaceOne(ptr, block, ftab, i, s, b);
      i := i - 1;
    }
  }

  /** Everything up to the running order: each rotation in the bucket of its pair, ftab at the
      buckets' starts, block and quadrants extended. */
  method RadixSort(ptr: array<int>, block: array<int>, quadrant: array<int>, ftab: array<int>, nblock: nat,
      ghost b: seq<int>)
    requires ptr != block && ptr != quadrant && ptr != ftab && block != quadrant && ftab != block && ftab != quadrant
    requires nblock == |b| == ptr.Length > 34 && block.Length == quadrant.Length == nblock + 34 && ftab.Length == 65537
    requires Keys(b, 256) && block[..nblock] == b
    modifies ptr, block, quadrant, ftab
    ensures Bucketed(b, ptr[..]) && (forall k :: 0 <= k <= 65536 ==> ftab[..][k] == Start(b, k))
    ensures Extended(block[..], b) && QuadrantsRight(b, quadrant[..]) && block[..nblock] == b
  {
    hide *;
    CountPairs(block, quadrant, ftab, nblock, b);
    ghost var ft := ftab[..];
    CopyOvershoot(block, quadrant, nblock, b);
    assert ftab[..] == ft;
    ghost var blk, q := block[..], quadrant[..];
    SumTable(ftab, b);
    assert block[..] == blk;
    assert block[..nblock] == b;
    PlacePairs(ptr, block, ftab, nblock, b);
    assert block[..] == blk && quadrant[..] == q;
    PlacedBucketed(b, ftab[..], ptr[..]);
  }

  /* ---------- the running order ---------- */

  /** Size of big bucket c. */
  ghost function BigSize(b: seq<int>, c: int): (n: int) {
    Start(b, 256 * (c + 1)) - Start(b, 256 * c)
  }

  /** Entries below i, but not the one at `hole`, are in order of size; those passed are larger. */
  ghost predicate Inserting(b: seq<int>, v: seq<int>, h: int, i: int, hole: int) {
    h == 1 ==> (
      0 <= hole <= i < |v| &&
      (forall p, q :: 0 <= p < q <= i && p != hole && q != hole ==> BigSize(b, v[p]) <= BigSize(b, v[q])) &&
      (forall q :: hole < q <= i ==> BigSize(b, v[hole]) <= BigSize(b, v[q])))
  }

  /** The first i entries are in order of size, when the step is 1. */
  ghost predicate SmallestFirst(b: seq<int>, v: seq<int>, h: int, i: int) {
    h == 1 ==> i <= |v| && forall p, q :: 0 <= p < q < i ==> BigSize(b, v[p]) <= BigSize(b, v[q])
  }

  lemma SwapOrder(r: seq<int>, i: nat, j: nat)
    requires IsPermutation(r, 256) && i < 256 && j < 256
    ensures IsPermutation(r[i := r[j]][j := r[i]], 256)
  {
  }

  lemma InsertStep(b: seq<int>, v: seq<int>, h: int, i: int, hole: int)
    requires Inserting(b, v, h, i, hole) && h >= 1 && 0 <= hole - h && hole <= i < |v| &&
      BigSize(b, v[hole - h]) > BigSize(b, v[hole])
    ensures Inserting(b, v[hole := v[hole - h]][hole - h := v[hole]], h, i, hole - h)
  {
    hide BigSize;
  }

  lemma InsertEnd(b: seq<int>, v: seq<int>, h: int, i: int, hole: int)
    requires Inserting(b, v, h, i, hole) && h >= 1 && 0 <= hole <= i < |v|
    requires hole < h || BigSize(b, v[hole - h]) <= BigSize(b, v[hole])
    ensures SmallestFirst(b, v, h, i + 1)
  {
    hide BigSize;
    if h == 1 {
      forall p, q | 0 <= p < q < i + 1 ensures BigSize(b, v[p]) <= BigSize(b, v[q]) {
        if q == hole && p < hole - 1 { assert BigSize(b, v[p]) <= BigSize(b, v[hole - 1]); }
      }
    }
  }

  lemma InsertStart(b: seq<int>, v: seq<int>, h: int, i: int)
    requires SmallestFirst(b, v, h, i) && 0 <= i < |v|
    ensures Inserting(b, v, h, i, i)
  {
    hide BigSize;
  }

  /** BIGFREQ, while no bucket is marked. */
  method BigFreq(ftab: array<int>, c: int, ghost b: seq<int>) returns (n: int)
    requires ftab.Length == 65537 && (forall k :: 0 <= k <= 65536 ==> ftab[..][k] == Start(b, k)) && 0 <= c < 256
    ensures n == BigSize(b, c)
  {
    assert ftab[..][(c + 1) * 256] == Start(b, 256 * (c + 1)) && ftab[..][c * 256] == Start(b, 256 * c);
    n := ftab[(c + 1) * 256] - ftab[c * 256];
  }

  lemma OrderRange(r: seq<int>, i: int)
    requires IsPermutation(r, 256) && 0 <= i < 256
    ensures |r| == 256 && 0 <= r[i] < 256
  {
  }

  method InsertOrder(order: array<int>, ftab: array<int>, h: int, i: int, ghost b: seq<int>)
    requires order != ftab && ftab.Length == 65537 && (forall k :: 0 <= k <= 65536 ==> ftab[..][k] == Start(b, k))
    requires IsPermutation(order[..], 256) && 1 <= h <= i < 256 && SmallestFirst(b, order[..], h, i)
    modifies order
    ensures IsPermutation(order[..], 256) && SmallestFirst(b, order[..], h, i + 1)
  {
    hide *;
    ghost var v, ft := order[..], ftab[..];
    OrderRange(v, i);
    InsertStart(b, v, h, i);
    var vv := order[i];
    var j := i;
    assert v[i := vv] == v;
    var freq := BigFreq(ftab, vv, b);
    while true
      invariant h <= j <= i && order.Length == |v| == 256 && v == order[..][j := vv] && ftab[..] == ft
      invariant IsPermutation(v, 256) && Inserting(b, v, h, i, j)
      decreases j
    {
      OrderRange(v, j - h);
      assert v[j] == vv && v[j - h] == order[j - h];
      var other := BigFreq(ftab, order[j - h], b);
      if !(other > freq) { break; }
      InsertStep(b, v, h, i, j);
      SwapOrder(v, j, j - h);
      ghost var s := order[..];
      v := v[j := v[j - h]][j - h := v[j]];
      assert v == s[j := s[j - h]][j - h := vv];
      order[j] := order[j - h];
      j := j - h;
      if j <= h - 1 { break; }
    }
    InsertEnd(b, v, h, i, j);
    order[j] := vv;
  }

  lemma IdentityOrder(r: seq<int>)
    requires |r| == 256 && forall i :: 0 <= i < 256 ==> r[i] == i
    ensures IsPermutation(r, 256)
  {
  }

  lemma OrderStart(b: seq<int>, r: seq<int>, h: int)
    requires |r| == 256
    ensures SmallestFirst(b, r, h, h)
  {
  }

  /** Shell sort of the big buckets by size: every bucket once, smallest first. */
  method MakeOrder(ftab: array<int>, ghost b: seq<int>) returns (order: array<int>)
    requires ftab.Length == 65537 && (forall k :: 0 <= k <= 65536 ==> ftab[..][k] == Start(b, k))
    ensures fresh(order) && order.Length == 256 && IsPermutation(order[..], 256) && SmallestFirst(b, order[..], 1, 256)
  {
    hide *;
    order := new int[256](i => i);
    ghost var ft := ftab[..];
    IdentityOrder(order[..]);
    var h := 1;
    h := 3 * h + 1;
    while h <= 256
      invariant h in {4, 13, 40, 121, 364}
      decreases 364 - h
    {
      h := 3 * h + 1;
    }
    while true
      invariant h in {4, 13, 40, 121, 364} && ftab[..] == ft && order.Length == 256 && IsPermutation(order[..], 256)
      decreases h
    {
      h := h / 3;
      var i := h;
      OrderStart(b, order[..], h);
      while i <= 255
        invariant h <= i <= 256 && ftab[..] == ft && order.Length == 256
        invariant IsPermutation(order[..], 256) && SmallestFirst(b, order[..], h, i)
      {
        InsertOrder(order, ftab, h, i, b);
        i := i + 1;
      }
      if h == 1 { break; }
    }
  }
}
