/** blocksort.c, mainSort: big buckets are completed one by one. Sorting the small buckets of one big
    bucket puts in order, by a scan, the small buckets elsewhere that its rotations follow. */
module MainSort {
  import opened Rotations
  import opened Counting
  import opened RangePermutation
  import opened MainCompare
  import opened MainSimpleSort
  import opened MainQSort
  import opened MainOrder
  import opened MainScan
  import opened MainRadix

  const SETMASK := 0x20_0000
  const MAX_BLOCK := 900_000

  /* ---------- marked entries of ftab ---------- */

  /** Bit 21 marks a small bucket as in order; the bits below hold its first slot. */
  predicate Marked(v: int) { v >= SETMASK }
  function Clear(v: int): (r: int) { v % SETMASK }
  function Mark(v: int): (r: int) { if Marked(v) then v else v + SETMASK }

  /** ft holds the first slot of every small bucket, marked or not. */
  ghost predicate Tab(b: seq<int>, ft: seq<int>) {
    |ft| == 65537 && |b| <= MAX_BLOCK && forall k ::
    0 <= k <= 65536 ==> ft[k] == Start(b, k) || ft[k] == Start(b, k) + SETMASK
  }

  lemma TabClear(b: seq<int>, ft: seq<int>, k: int)
    requires Tab(b, ft) && 0 <= k <= 65536
    ensures |ft| == 65537 && Clear(ft[k]) == Start(b, k)
  {
  }

  lemma TabMark(b: seq<int>, ft: seq<int>, k: int)
    requires Tab(b, ft) && 0 <= k <= 65536
    ensures |ft| == 65537 && Tab(b, ft[k := Mark(ft[k])]) && Marked(Mark(ft[k]))
  {
  }

  /** Between steps: rotations in their small buckets; those marked, and all of a big bucket that is
      done, are in order. */
  ghost predicate Main(b: seq<int>, s: seq<int>, ft: seq<int>, done: seq<bool>) {
    Keys(b, 256) && |b| > 34 && Bucketed(b, s) && Tab(b, ft) && |done| == 256 &&
    forall k {:trigger Done(b, s, k)} :: 0 <= k < 65536 && (Marked(ft[k]) || done[k / 256]) ==> Done(b, s, k)
  }

  lemma MainParts(b: seq<int>, s: seq<int>, ft: seq<int>, done: seq<bool>)
    requires Main(b, s, ft, done)
    ensures Keys(b, 256) && |b| > 34 && Bucketed(b, s) && Tab(b, ft) && |done| == 256 && |s| == |b| <= 900_000 &&
      |ft| == 65537
  {
  }

  lemma MainStart(b: seq<int>, s: seq<int>, ft: seq<int>, done: seq<bool>)
    requires Keys(b, 256) && 34 < |b| <= MAX_BLOCK && Bucketed(b, s) && |ft| == 65537
    requires (forall k :: 0 <= k <= 65536 ==> ft[k] == Start(b, k)) && |done| == 256 && forall c ::
      0 <= c < 256 ==> !done[c]
    ensures Main(b, s, ft, done)
  {
    hide Done;
  }

  lemma MainMark(b: seq<int>, s: seq<int>, ft: seq<int>, done: seq<bool>, k: int)
    requires Main(b, s, ft, done) && 0 <= k < 65536 && Done(b, s, k)
    ensures |ft| == 65537 && Main(b, s, ft[k := Mark(ft[k])], done) && Marked(Mark(ft[k]))
  {
    hide Done;
    hide Bucketed;
    TabMark(b, ft, k);
  }

  /* ---------- step 1: one small bucket ---------- */

  /** Rearranging one small bucket keeps every rotation in its bucket. */
  lemma BucketRearranged(b: seq<int>, s': seq<int>, s: seq<int>, k: int)
    requires Bucketed(b, s) && RangePerm(s', s, Start(b, k), Start(b, k + 1) - 1)
    ensures Bucketed(b, s')
  {
    PermDistinct(s', s, Start(b, k), Start(b, k + 1) - 1);
    forall p {:trigger s'[p]} | 0 <= p < |b| ensures 0 <= s'[p] < |b| && In(b, Pair(b, s'[p]), p) {
      if Start(b, k) <= p <= Start(b, k + 1) - 1 {
        var q := PermSource(s', s, Start(b, k), Start(b, k + 1) - 1, p);
        assert In(b, k, p) && In(b, k, q);
        EntryPair(b, s, k, q);
      } else {
        assert s'[p] == s[p];
      }
    }
  }

  lemma OtherDone(b: seq<int>, s': seq<int>, s: seq<int>, k: int, m: int)
    requires RangePerm(s', s, Start(b, k), Start(b, k + 1) - 1) && m != k && Done(b, s, m)
    ensures Done(b, s', m)
  {
    hide RotationOrder;
    forall p | Start(b, m) <= p <= Start(b, m + 1) - 1 && p < |s| ensures s'[p] == s[p] {
      if m < k { StartMonotone(b, m + 1, k); } else { StartMonotone(b, k + 1, m); }
    }
  }

  lemma MainSorted(b: seq<int>, s': seq<int>, s: seq<int>, ft: seq<int>, done: seq<bool>, k: int)
    requires Main(b, s, ft, done) && 0 <= k < 65536
    requires RangePerm(s', s, Start(b, k), Start(b, k + 1) - 1) && InOrder(b, s', Start(b, k), Start(b, k + 1) - 1)
    ensures Main(b, s', ft, done) && Done(b, s', k)
  {
    BucketRearranged(b, s', s, k);
    assert Done(b, s', k);
    forall m | 0 <= m < 65536 && (Marked(ft[m]) || done[m / 256]) ensures Done(b, s', m) {
      if m != k {
        assert Done(b, s, m);
        hide *;
        OtherDone(b, s', s, k, m);
      }
    }
  }

  lemma ShortDone(b: seq<int>, s: seq<int>, k: int)
    requires Start(b, k + 1) - 1 <= Start(b, k)
    ensures Done(b, s, k)
  {
  }

  lemma MarkedDone(b: seq<int>, s: seq<int>, ft: seq<int>, done: seq<bool>, k: int)
    requires Main(b, s, ft, done) && 0 <= k < 65536 && Marked(ft[k])
    ensures Done(b, s, k)
  {
  }

  /** One small bucket [ss, j] of step 1. */
  method SortSmall(ptr: array<int>, block: array<int>, quadrant: array<int>, ftab: array<int>, nblock: nat, sb: int,
      budget: int,
                   ghost b: seq<int>, ghost done: seq<bool>) returns (budget': int, abandoned: bool)
    requires ptr != block && ptr != quadrant && ptr != ftab && block != ftab && quadrant != ftab
    requires |b| == nblock && Comparable(b, block[..], quadrant[..]) && 0 <= sb < 65536 &&
      Main(b, ptr[..], ftab[..], done)
    modifies ptr, ftab
    ensures budget' <= budget && ftab.Length == 65537 && (abandoned ==> budget' < 0)
    ensures !abandoned ==>
      Main(b, ptr[..], ftab[..], done) && ftab[..] == old(ftab[..])[sb := Mark(old(ftab[sb]))] && Marked(ftab[sb])
    ensures 0 <= Start(b, sb) <= Start(b, sb + 1) <= nblock
    ensures budget' >= budget - Charge(nblock, Start(b, sb + 1) - Start(b, sb))
  {
    hide *;
    budget', abandoned := budget, false;
    ghost var s, ft := ptr[..], ftab[..];
    MainParts(b, s, ft, done);
    TabClear(b, ft, sb);
    TabClear(b, ft, sb + 1);
    StartMonotone(b, sb, sb + 1);
    LenIs(Start(b, sb), Start(b, sb + 1) - 1);
    if !Marked(ftab[sb]) {
      var lo, hi := Clear(ftab[sb]), Clear(ftab[sb + 1]) - 1;
      if hi > lo {
        BucketAgrees(b, s, sb);
        budget' := QSort3(ptr, block, quadrant, nblock, lo, hi, 2, budget, b);
        assert ftab[..] == ft;
        if budget' < 0 { return budget', true; }
        MainSorted(b, ptr[..], s, ft, done, sb);
      } else {
        ShortDone(b, s, sb);
      }
    } else {
      MarkedDone(b, s, ft, done, sb);
    }
    MainMark(b, ptr[..], ft, done, sb);
    ftab[sb] := Mark(ftab[sb]);
  }

  /** The small buckets [ss, j], j != ss, are marked for j below the given one. */
  ghost predicate RowMarked(ft: seq<int>, ss: int, j: int) {
    |ft| == 65537 && 0 <= ss < 256 && 0 <= j <= 256 && forall k ::
    256 * ss <= k < 256 * ss + j && k != 256 * ss + ss ==> Marked(ft[k])
  }

  lemma RowStart(ft: seq<int>, ss: int)
    requires |ft| == 65537 && 0 <= ss < 256
    ensures RowMarked(ft, ss, 0)
  {
  }

  lemma RowStep(ft: seq<int>, ss: int, j: int, v: int)
    requires RowMarked(ft, ss, j) && j < 256
    ensures j == ss ==> RowMarked(ft, ss, j + 1)
    ensures Marked(v) ==> RowMarked(ft[256 * ss + j := v], ss, j + 1)
  {
  }

  /** One more small bucket of the row that starts with number k0. */
  lemma RowCharge(b: seq<int>, k0: int, k: int)
    requires 0 <= k0 <= k
    ensures Start(b, k0) <= Start(b, k) <= Start(b, k + 1) <= |b|
    ensures var n := |b|;
      Charge(n, Start(b, k) - Start(b, k0)) + Charge(n, Start(b, k + 1) - Start(b, k)) ==
      Charge(n, Start(b, k + 1) - Start(b, k0)) <= Charge(n, n)
  {
    hide *;
    StartMonotone(b, k0, k);
    StartMonotone(b, k, k + 1);
    StartBound(b, k + 1);
    ChargeAdds(|b|, Start(b, k) - Start(b, k0), Start(b, k + 1) - Start(b, k));
    ChargeAdds(|b|, Start(b, k + 1) - Start(b, k0), |b| - (Start(b, k + 1) - Start(b, k0)));
  }

  lemma StartBound(b: seq<int>, k: int)
    ensures Start(b, k) <= |b|
  {
  }

  /** Step 1: complete the big bucket ss, except for [ss, ss]. */
  method SortBig(ptr: array<int>, block: array<int>, quadrant: array<int>, ftab: array<int>, nblock: nat, ss: int,
      budget: int,
                 ghost b: seq<int>, ghost done: seq<bool>) returns (budget': int, abandoned: bool)
    requires ptr != block && ptr != quadrant && ptr != ftab && block != ftab && quadrant != ftab
    requires |b| == nblock && Comparable(b, block[..], quadrant[..]) && 0 <= ss < 256 &&
      Main(b, ptr[..], ftab[..], done)
    modifies ptr, ftab
    ensures budget' <= budget && (abandoned ==> budget' < 0)
    ensures !abandoned ==> Main(b, ptr[..], ftab[..], done) && RowMarked(ftab[..], ss, 256)
    ensures budget' >= budget - Charge(nblock, nblock)
  {
    hide *;
    ChargeAdds(nblock, 0, nblock);
    MainParts(b, ptr[..], ftab[..], done);
    budget', abandoned := budget, false;
    ghost var blk, q := block[..], quadrant[..];
    RowStart(ftab[..], ss);
    var j := 0;
    while j <= 255
      invariant 0 <= j <= 256 && budget' <= budget && block[..] == blk && quadrant[..] == q
      invariant Main(b, ptr[..], ftab[..], done) && RowMarked(ftab[..], ss, j)
      invariant 0 <= Start(b, ss * 256) <= Start(b, ss * 256 + j) <= nblock
      invariant budget' >= budget - Charge(nblock, Start(b, ss * 256 + j) - Start(b, ss * 256))
    {
      RowCharge(b, ss * 256, ss * 256 + j);
      if j != ss {
        ghost var ft := ftab[..];
        budget', abandoned := SortSmall(ptr, block, quadrant, ftab, nblock, ss * 256 + j, budget', b, done);
        if abandoned { return; }
        RowStep(ft, ss, j, ftab[ss * 256 + j]);
      } else {
        RowStep(ftab[..], ss, j, 0);
      }
      j := j + 1;
    }
    RowCharge(b, ss * 256, ss * 256 + 256);
  }

  /* ---------- step 2 ---------- */

  lemma RowValid(b: seq<int>, s: seq<int>, ft: seq<int>, done: seq<bool>, ss: int)
    requires Main(b, s, ft, done) && RowMarked(ft, ss, 256) && !done[ss]
    ensures Valid(Sweep(b, ss, s, done))
  {
    hide Done;
    forall c {:trigger done[c]} | 0 <= c < 256 && done[c] ensures Done(b, s, 256 * c + ss) {
      assert (256 * c + ss) / 256 == c;
    }
  }

  /** What is in order stays so, and the big bucket is complete. */
  lemma MainSynthesised(b: seq<int>, s': seq<int>, s: seq<int>, ft: seq<int>, done: seq<bool>, ss: int)
    requires Main(b, s, ft, done) && RowMarked(ft, ss, 256) && !done[ss] && Synthesised(Sweep(b, ss, s, done), s')
    ensures Main(b, s', ft, done[ss := true])
    ensures forall k {:trigger Done(b, s', k)} :: 0 <= k < 65536 && k % 256 == ss ==> Done(b, s', k)
  {
    forall k {:trigger Done(b, s', k)} | 0 <= k < 65536 && (Marked(ft[k]) || done[ss := true][k / 256])
      ensures Done(b, s', k) {
      if k % 256 != ss {
        assert Done(b, s, k);
        KeptBucket(b, s', s, done, ss, k);
      }
    }
  }

  lemma KeptBucket(b: seq<int>, s': seq<int>, s: seq<int>, done: seq<bool>, ss: int, k: int)
    requires Synthesised(Sweep(b, ss, s, done), s') && 0 <= k < 65536 && k % 256 != ss && Done(b, s, k)
    ensures Done(b, s', k)
  {
    hide RotationOrder;
    var w := Sweep(b, ss, s, done);
    forall p | Start(b, k) <= p <= Start(b, k + 1) - 1 && p < |b| ensures s'[p] == s[p] {
      EntryPair(b, s, k, p);
      PairRange(b, s[p]);
      assert Next2(w, p) == k % 256;
    }
  }

  /** copyStart and copyEnd: the ends of the small buckets [j, ss]. */
  method CopyEnds(ftab: array<int>, ss: int, ghost w: Sweep) returns (copyStart: array<int>, copyEnd: array<int>)
    requires Tab(w.b, ftab[..]) && 0 <= ss < 256 && w.ss == ss
    ensures fresh(copyStart) && fresh(copyEnd) && copyStart != copyEnd && copyStart.Length == copyEnd.Length == 256
    ensures forall c :: 0 <= c < 256 ==> copyStart[..][c] == Lo(w, c) && copyEnd[..][c] == Hi(w, c) - 1
  {
    hide Tab;
    hide Clear;
    hide Start;
    copyStart, copyEnd := new int[256], new int[256];
    TabClear(w.b, ftab[..], 0);
    var j := 0;
    while j <= 255
      invariant 0 <= j <= 256 && Tab(w.b, ftab[..])
      invariant forall c :: 0 <= c < j ==> copyStart[c] == Lo(w, c) && copyEnd[c] == Hi(w, c) - 1
    {
      TabClear(w.b, ftab[..], j * 256 + ss);
      TabClear(w.b, ftab[..], j * 256 + ss + 1);
      copyStart[j] := Clear(ftab[j * 256 + ss]);
      copyEnd[j] := Clear(ftab[j * 256 + ss + 1]) - 1;
      j := j + 1;
    }
  }

  lemma ScanBounds(w: Sweep, s: seq<int>, cs: seq<int>, ce: seq<int>, j: int)
    requires LeftScan(w, s, cs, ce, j)
    ensures |cs| == |ce| == 256 && 0 <= w.ss < 256 && 0 <= j <= cs[w.ss] <= |s| == |w.b| == |w.was| && |w.done| == 256
  {
    StateFacts(w, s, cs, ce, s[First(w)..j], [], w.ss);
  }

  lemma LeftEntry(w: Sweep, s: seq<int>, cs: seq<int>, ce: seq<int>, j: int)
    requires LeftScan(w, s, cs, ce, j) && j < cs[w.ss]
    ensures 0 <= j < |s| == |w.b| && 0 <= s[j] < |w.b| && 0 <= w.b[Prev(|w.b|, s[j])] < 256
  {
    NextLower(w, s, cs, ce, j);
  }

  lemma RightEntry(w: Sweep, s: seq<int>, cs: seq<int>, ce: seq<int>, j: int)
    requires RightScan(w, s, cs, ce, j) && j > ce[w.ss]
    ensures 0 <= j < |s| == |w.b| && 0 <= s[j] < |w.b| && 0 <= w.b[Prev(|w.b|, s[j])] < 256
  {
    NextUpper(w, s, cs, ce, j);
  }

  /** The scan from the lower end of the big bucket. */
  method ScanUp(ptr: array<int>, block: array<int>, bigDone: array<bool>, copyStart: array<int>, nblock: nat, ss: int,
      from: int,
                ghost w: Sweep, ghost ce: seq<int>)
    requires ptr != block && ptr != copyStart && block != copyStart && |w.b| == nblock <= block.Length
    requires block[..nblock] == w.b && bigDone[..] == w.done && ss == w.ss && from == First(w)
    requires LeftScan(w, ptr[..], copyStart[..], ce, from)
    modifies ptr, copyStart
    ensures RightScan(w, ptr[..], copyStart[..], ce, Past(w) - 1)
  {
    hide *;
    ghost var blk, dn := block[..], bigDone[..];
    ScanBounds(w, ptr[..], copyStart[..], ce, from);
    var j := from;
    while j < copyStart[ss]
      invariant copyStart.Length == 256 && 0 <= ss < 256 && block[..] == blk && bigDone[..] == dn
      invariant LeftScan(w, ptr[..], copyStart[..], ce, j) && 0 <= j <= copyStart[ss] <= nblock == ptr.Length
      decreases nblock - j
    {
      LeftEntry(w, ptr[..], copyStart[..], ce, j);
      var k := ptr[j] - 1;
      if k < 0 { k := k + nblock; }
      PrevIs(nblock, ptr[j]);
      assert block[k] == block[..nblock][k];
      var c1 := block[k];
      if !bigDone[c1] {
        LeftScanCopy(w, ptr[..], copyStart[..], ce, j, c1);
        ghost var s := ptr[..];
        ptr[copyStart[c1]] := k;
        copyStart[c1] := copyStart[c1] + 1;
      } else {
        LeftScanSkip(w, ptr[..], copyStart[..], ce, j, c1);
      }
      j := j + 1;
      ScanBounds(w, ptr[..], copyStart[..], ce, j);
    }
    RightScanStart(w, ptr[..], copyStart[..], ce, j);
  }

  lemma PrevIs(n: nat, x: int)
    requires 0 <= x < n
    ensures Prev(n, x) == if x - 1 < 0 then x - 1 + n else x - 1
  {
  }

  lemma RightBounds(w: Sweep, s: seq<int>, cs: seq<int>, ce: seq<int>, j: int)
    requires RightScan(w, s, cs, ce, j)
    ensures |cs| == |ce| == 256 && 0 <= w.ss < 256 && 0 <= cs[w.ss] <= ce[w.ss] + 1 <= j + 1 <= |s| == |w.b| &&
      |w.done| == 256
  {
    StateFacts(w, s, cs, ce, s[First(w)..cs[w.ss]], s[j + 1..Past(w)], w.ss);
  }

  /** The scan from the upper end. */
  method ScanDown(ptr: array<int>, block: array<int>, bigDone: array<bool>, copyEnd: array<int>, nblock: nat, ss: int,
      from: int,
                  ghost w: Sweep, ghost cs: seq<int>)
    requires ptr != block && ptr != copyEnd && block != copyEnd && |w.b| == nblock <= block.Length
    requires block[..nblock] == w.b && bigDone[..] == w.done && ss == w.ss && from == Past(w) - 1
    requires RightScan(w, ptr[..], cs, copyEnd[..], from)
    modifies ptr, copyEnd
    ensures Synthesised(w, ptr[..]) && |cs| == 256 == copyEnd.Length && 0 <= ss < 256
    ensures cs[ss] - 1 == copyEnd[ss] || (cs[ss] == 0 && copyEnd[ss] == nblock - 1)
  {
    hide *;
    ghost var blk, dn := block[..], bigDone[..];
    RightBounds(w, ptr[..], cs, copyEnd[..], from);
    var j := from;
    while j > copyEnd[ss]
      invariant copyEnd.Length == 256 && 0 <= ss < 256 && block[..] == blk && bigDone[..] == dn
      invariant RightScan(w, ptr[..], cs, copyEnd[..], j) && -1 <= copyEnd[ss] <= j < nblock == ptr.Length
      decreases j + 1
    {
      RightEntry(w, ptr[..], cs, copyEnd[..], j);
      var k := ptr[j] - 1;
      if k < 0 { k := k + nblock; }
      PrevIs(nblock, ptr[j]);
      assert block[k] == block[..nblock][k];
      var c1 := block[k];
      if !bigDone[c1] {
        RightScanCopy(w, ptr[..], cs, copyEnd[..], j, c1);
        ptr[copyEnd[c1]] := k;
        copyEnd[c1] := copyEnd[c1] - 1;
      } else {
        RightScanSkip(w, ptr[..], cs, copyEnd[..], j, c1);
      }
      j := j - 1;
      RightBounds(w, ptr[..], cs, copyEnd[..], j);
    }
    ScanDone(w, ptr[..], cs, copyEnd[..], j);
  }

  /** Step 2: synthesise the order of the small buckets [c, ss] from the big bucket ss. */
  method Synthesise(ptr: array<int>, block: array<int>, bigDone: array<bool>, ftab: array<int>, nblock: nat, ss: int,
      ghost b: seq<int>)
    requires ptr != block && ptr != ftab && block != ftab && |b| == nblock <= block.Length && block[..nblock] == b
    requires bigDone.Length == 256 && 0 <= ss < 256 && !bigDone[ss]
    requires Main(b, ptr[..], ftab[..], bigDone[..]) && RowMarked(ftab[..], ss, 256)
    modifies ptr
    ensures Main(b, ptr[..], ftab[..], bigDone[..][ss := true])
    ensures forall k {:trigger Done(b, ptr[..], k)} :: 0 <= k < 65536 && k % 256 == ss ==> Done(b, ptr[..], k)
  {
    hide *;
    ghost var s, ft, dn, blk := ptr[..], ftab[..], bigDone[..], block[..];
    ghost var w := Sweep(b, ss, s, dn);
    MainParts(b, s, ft, dn);
    RowValid(b, s, ft, dn, ss);
    var copyStart, copyEnd := CopyEnds(ftab, ss, w);
    LeftScanStart(w, copyStart[..], copyEnd[..]);
    FirstLo(w);
    TabClear(b, ft, ss * 256);
    TabClear(b, ft, (ss + 1) * 256);
    ghost var ce := copyEnd[..];
    ScanUp(ptr, block, bigDone, copyStart, nblock, ss, Clear(ftab[ss * 256]), w, ce);
    assert block[..] == blk && bigDone[..] == dn && ftab[..] == ft && copyEnd[..] == ce;
    ghost var cs := copyStart[..];
    assert block[..nblock] == b;
    ScanDown(ptr, block, bigDone, copyEnd, nblock, ss, Clear(ftab[(ss + 1) * 256]) - 1, w, cs);
    assert bigDone[..] == dn && ftab[..] == ft && copyStart[..] == cs;
    assert copyStart[ss] - 1 == copyEnd[ss] || (copyStart[ss] == 0 && copyEnd[ss] == nblock - 1);
    MainSynthesised(b, ptr[..], s, ft, dn, ss);
  }

  /** The small buckets [j, ss] are in order now. */
  method MarkColumn(ftab: array<int>, ss: int, ghost b: seq<int>, ghost s: seq<int>, ghost done: seq<bool>)
    requires Main(b, s, ftab[..], done) && 0 <= ss < 256
    requires forall k {:trigger Done(b, s, k)} :: 0 <= k < 65536 && k % 256 == ss ==> Done(b, s, k)
    modifies ftab
    ensures Main(b, s, ftab[..], done)
  {
    hide *;
    MainParts(b, s, ftab[..], done);
    var j := 0;
    while j <= 255
      invariant 0 <= j <= 256 && ftab.Length == 65537 && Main(b, s, ftab[..], done)
    {
      assert (j * 256 + ss) % 256 == ss;
      MainMark(b, s, ftab[..], done, j * 256 + ss);
      ftab[j * 256 + ss] := Mark(ftab[j * 256 + ss]);
      j := j + 1;
    }
  }

  /* ---------- step 3 ---------- */

  /** x >> k. */
  function Shr(x: nat, k: nat): (r: nat) {
    if k == 0 then x else Shr(x, k - 1) / 2
  }

  lemma {:induction false} ShrMonotone(x: nat, y: nat, k: nat)
    requires x <= y
    ensures Shr(x, k) <= Shr(y, k)
    decreases k
  {
    if k > 0 { ShrMonotone(x, y, k - 1); }
  }

  /** Entries above j of the big bucket have got their quadrant: their place in it, shifted. */
  ghost predicate Quartered(b: seq<int>, s: seq<int>, q: seq<int>, q0: seq<int>, ss: int, lo: int, hi: int, j: int,
      sh: nat) {
    |b| > 34 && |q| == |q0| == |b| + 34 && 0 <= lo <= lo + j + 1 <= hi <= |s| == |b| &&
    (forall m :: lo <= m < hi ==> 0 <= s[m] < |b| && b[s[m]] == ss) &&
    (forall x :: 0 <= x < |b| && b[x] != ss ==> q[x] == q0[x]) &&
    (forall m :: lo + j < m < hi ==> q[s[m]] == Shr(m - lo, sh)) &&
    (forall i :: 0 <= i < |q| ==> q[i] == q[Wrap(|b|, i)])
  }

  lemma QuarterStep(b: seq<int>, s: seq<int>, q: seq<int>, q0: seq<int>, ss: int, lo: int, hi: int, j: int, sh: nat)
    requires Quartered(b, s, q, q0, ss, lo, hi, j, sh) && j >= 0 && IsPermutation(s, |b|)
    ensures 0 <= lo + j < |s| && 0 <= s[lo + j] < |q|
    ensures var x, v := s[lo + j], Shr(j, sh);
      Quartered(b, s, if x < 34 then q[x := v][x + |b| := v] else q[x := v], q0, ss, lo, hi, j - 1, sh)
  {
    hide Shr;
  }

  /** With the whole big bucket in order, the new quadrants are right. */
  lemma QuarterDone(b: seq<int>, s: seq<int>, q: seq<int>, q0: seq<int>, ss: int, lo: int, hi: int, sh: nat)
    requires Quartered(b, s, q, q0, ss, lo, hi, -1, sh) && QuadrantsRight(b, q0) && InOrder(b, s, lo, hi - 1)
    requires forall x :: 0 <= x < |b| && b[x] == ss ==> exists m :: lo <= m < hi && s[m] == x
    ensures QuadrantsRight(b, q)
  {
    forall x, y | 0 <= x < |b| && 0 <= y < |b| && b[x] == b[y] && q[x] < q[y] ensures CmpRotations(b, x, y) <= 0 {
      if b[x] == ss {
        var m :| lo <= m < hi && s[m] == x;
        var k :| lo <= k < hi && s[k] == y;
        if m >= k {
          ShrMonotone(k - lo, m - lo, sh);
        } else {
          assert RotationOrder(b)(s[m], s[k]);
        }
      }
    }
  }

  /** Positions First..Past hold exactly the rotations that begin with ss, and once the big bucket is
      done they are in order. */
  lemma BigBucket(b: seq<int>, s: seq<int>, ft: seq<int>, done: seq<bool>, ss: int)
    requires Main(b, s, ft, done) && 0 <= ss < 256 && done[ss]
    ensures Start(b, 256 * ss) <= Start(b, 256 * ss + 256) <= |s| == |b| && IsPermutation(s, |b|)
    ensures forall m :: Start(b, 256 * ss) <= m < Start(b, 256 * ss + 256) ==> 0 <= s[m] < |b| && b[s[m]] == ss
    ensures forall x ::
      0 <= x < |b| && b[x] == ss ==> exists m :: Start(b, 256 * ss) <= m < Start(b, 256 * ss + 256) && s[m] == x
    ensures InOrder(b, s, Start(b, 256 * ss), Start(b, 256 * ss + 256) - 1)
  {
    hide Done;
    StartMonotone(b, 256 * ss, 256 * ss + 256);
    forall m | Start(b, 256 * ss) <= m < Start(b, 256 * ss + 256) ensures 0 <= s[m] < |b| && b[s[m]] == ss {
      PairBetween(b, s, 256 * ss, 256 * ss + 256, m);
      PairRange(b, s[m]);
    }
    forall x | 0 <= x < |b| && b[x] == ss
      ensures exists m :: Start(b, 256 * ss) <= m < Start(b, 256 * ss + 256) && s[m] == x {
      var m := PermutationHits(s, |b|, x);
      PairRange(b, x);
      assert In(b, Pair(b, x), m);
      StartMonotone(b, 256 * ss, Pair(b, x));
      StartMonotone(b, Pair(b, x) + 1, 256 * ss + 256);
    }
    forall c | 256 * ss <= c < 256 * ss + 256 ensures Done(b, s, c) {
      assert c / 256 == ss;
    }
    BucketsInOrder(b, s, 256 * ss, 256 * ss + 256);
  }

  lemma PairBetween(b: seq<int>, s: seq<int>, c0: int, c1: int, p: int)
    requires Bucketed(b, s) && Start(b, c0) <= p < Start(b, c1) && 0 <= p < |b|
    ensures 0 <= s[p] < |b| && c0 <= Pair(b, s[p]) < c1
  {
    var k := Pair(b, s[p]);
    assert In(b, k, p);
    if k < c0 { StartMonotone(b, k + 1, c0); }
    if k >= c1 { StartMonotone(b, c1, k); }
  }

  lemma QuarterStart(b: seq<int>, s: seq<int>, ft: seq<int>, done: seq<bool>, q: seq<int>, ss: int, lo: int, size: int,
      sh: nat)
    requires Main(b, s, ft, done) && 0 <= ss < 256 && done[ss] && QuadrantsRight(b, q)
    requires lo == Start(b, 256 * ss) && lo + size == Start(b, 256 * ss + 256)
    ensures Quartered(b, s, q, q, ss, lo, lo + size, size - 1, sh)
  {
    BigBucket(b, s, ft, done, ss);
    hide Main;
  }

  lemma QuarterFinish(b: seq<int>, s: seq<int>, ft: seq<int>, done: seq<bool>, q: seq<int>, q0: seq<int>, ss: int,
      lo: int, size: int, sh: nat)
    requires Main(b, s, ft, done) && 0 <= ss < 256 && done[ss] && QuadrantsRight(b, q0)
    requires lo == Start(b, 256 * ss) && lo + size == Start(b, 256 * ss + 256) &&
      Quartered(b, s, q, q0, ss, lo, lo + size, -1, sh)
    ensures QuadrantsRight(b, q)
  {
    BigBucket(b, s, ft, done, ss);
    hide *;
    QuarterDone(b, s, q, q0, ss, lo, lo + size, sh);
  }

  lemma QuarterSize(b: seq<int>, s: seq<int>, q: seq<int>, q0: seq<int>, ss: int, lo: int, hi: int, j: int, sh: nat)
    requires Quartered(b, s, q, q0, ss, lo, hi, j, sh)
    ensures |q| == |b| + 34 && |b| == |s| && 0 <= lo <= hi <= |s| &&
      (j >= 0 ==> 0 <= lo + j < |s| && 0 <= s[lo + j] < |b|)
  {
  }

  /** The shift that brings every place below 65535. */
  method FindShifts(bbSize: nat) returns (shifts: nat)
    ensures Shr(bbSize, shifts) <= 65534
  {
    shifts := 0;
    while Shr(bbSize, shifts) > 65534
      decreases Shr(bbSize, shifts)
    {
      shifts := shifts + 1;
    }
  }

  /** The quadrant of the rotation at place j of the big bucket. */
  method SetQuadrant(ptr: array<int>, quadrant: array<int>, nblock: nat, ss: int, bbStart: int, bbSize: int, j: nat,
      shifts: nat,
                     ghost b: seq<int>, ghost q0: seq<int>)
    requires ptr != quadrant && |b| == nblock && IsPermutation(ptr[..], nblock) && j < bbSize &&
      Shr(bbSize, shifts) <= 65534
    requires Quartered(b, ptr[..], quadrant[..], q0, ss, bbStart, bbStart + bbSize, j, shifts)
    modifies quadrant
    ensures Quartered(b, ptr[..], quadrant[..], q0, ss, bbStart, bbStart + bbSize, j - 1, shifts)
  {
    assert OVERSHOOT == 34;
    hide *;
    ghost var q := quadrant[..];
    QuarterSize(b, ptr[..], q, q0, ss, bbStart, bbStart + bbSize, j, shifts);
    QuarterStep(b, ptr[..], q, q0, ss, bbStart, bbStart + bbSize, j, shifts);
    var a2update := ptr[bbStart + j];
    ShrMonotone(j, bbSize, shifts);
    var qVal := Shr(j, shifts);
    assert qVal <= 65535;  // assert 1002 of the source
    quadrant[a2update] := qVal;
    if a2update < OVERSHOOT {
      quadrant[a2update + nblock] := qVal;
    }
  }

  /** Step 3: the quadrants of the rotations that begin with ss, in the overshoot area too. All are
      16-bit numbers. */
  method UpdateQuadrants(ptr: array<int>, quadrant: array<int>, ftab: array<int>, nblock: nat, ss: int,
      ghost b: seq<int>, ghost done: seq<bool>)
    requires ptr != quadrant && ftab != quadrant && |b| == nblock && 0 <= ss < 256 && |done| == 256 && done[ss]
    requires Main(b, ptr[..], ftab[..], done) && QuadrantsRight(b, quadrant[..])
    modifies quadrant
    ensures QuadrantsRight(b, quadrant[..])
  {
    hide *;
    ghost var s, ft, q0 := ptr[..], ftab[..], quadrant[..];
    MainParts(b, s, ft, done);
    BigBucket(b, s, ft, done, ss);
    TabClear(b, ft, ss * 256);
    TabClear(b, ft, (ss + 1) * 256);
    var bbStart := Clear(ftab[ss * 256]);
    var bbSize := Clear(ftab[(ss + 1) * 256]) - bbStart;
    assert bbStart == Start(b, 256 * ss) && bbStart + bbSize == Start(b, 256 * ss + 256);
    var shifts := FindShifts(bbSize);
    QuarterStart(b, s, ft, done, q0, ss, bbStart, bbSize, shifts);
    var j := bbSize - 1;
    while j >= 0
      invariant -1 <= j < bbSize && ptr[..] == s
      invariant Quartered(b, s, quadrant[..], q0, ss, bbStart, bbStart + bbSize, j, shifts)
    {
      SetQuadrant(ptr, quadrant, nblock, ss, bbStart, bbSize, j, shifts, b, q0);
      j := j - 1;
    }
    QuarterFinish(b, s, ft, done, quadrant[..], q0, ss, bbStart, bbSize, shifts);
  }

  /* ---------- the whole ---------- */

  /** The first i big buckets of the running order are done, the others are not. */
  ghost predicate DoneSoFar(order: seq<int>, done: seq<bool>, i: int) {
    IsPermutation(order, 256) && |done| == 256 && 0 <= i <= 256 && forall k ::
    0 <= k < 256 ==> (done[order[k]] <==> k < i)
  }

  lemma NextBig(order: seq<int>, done: seq<bool>, i: int)
    requires DoneSoFar(order, done, i) && i < 256
    ensures |order| == 256 && 0 <= order[i] < 256 && !done[order[i]] && DoneSoFar(order, done[order[i] := true], i + 1)
  {
  }

  lemma NoneDone(order: seq<int>, done: seq<bool>)
    requires IsPermutation(order, 256) && |done| == 256 && forall c :: 0 <= c < 256 ==> !done[c]
    ensures DoneSoFar(order, done, 0)
  {
  }

  /** All big buckets done: the whole block is sorted. */
  lemma AllDone(b: seq<int>, s: seq<int>, ft: seq<int>, order: seq<int>, done: seq<bool>)
    requires Main(b, s, ft, done) && DoneSoFar(order, done, 256)
    ensures SortedRotations(b, s)
  {
    forall k | 0 <= k < 65536 ensures Done(b, s, k) {
      var i := PermutationHits(order, 256, k / 256);
      assert done[order[i]];
    }
    hide Done;
    BucketsInOrder(b, s, 0, 65536);
    StartEnds(b);
    InOrderSorted(b, s);
  }

  lemma InOrderSorted(b: seq<int>, s: seq<int>)
    requires Bucketed(b, s) && InOrder(b, s, 0, |b| - 1)
    ensures SortedRotations(b, s)
  {
    forall j, k | 0 <= j < k < |b| ensures CmpRotations(b, s[j], s[k]) <= 0 {
      assert RotationOrder(b)(s[j], s[k]);
    }
  }

  lemma ComparableIntro(b: seq<int>, blk: seq<int>, q: seq<int>)
    requires Extended(blk, b) && QuadrantsRight(b, q)
    ensures Comparable(b, blk, q)
  {
  }

  /** One big bucket: steps 1 to 3. */
  method ProcessBig(ptr: array<int>, block: array<int>, quadrant: array<int>, ftab: array<int>, bigDone: array<bool>,
      nblock: nat,
                    ss: int, last: bool, budget: int, ghost b: seq<int>) returns (budget': int, abandoned: bool)
    requires ptr != block && ptr != quadrant && ptr != ftab && block != ftab && quadrant != ftab && block != quadrant
    requires |b| == nblock <= block.Length && block[..nblock] == b && bigDone.Length == 256 && 0 <= ss < 256 &&
      !bigDone[ss]
    requires Extended(block[..], b) && QuadrantsRight(b, quadrant[..]) && Main(b, ptr[..], ftab[..], bigDone[..])
    modifies ptr, quadrant, ftab, bigDone
    ensures budget' <= budget && (abandoned ==> budget' < 0)
    ensures !abandoned ==> QuadrantsRight(b, quadrant[..]) && Main(b, ptr[..], ftab[..], bigDone[..])
    ensures !abandoned ==> bigDone[..] == old(bigDone[..])[ss := true]
    ensures budget' >= budget - Charge(nblock, nblock)
  {
    hide *;
    ghost var blk, q, dn := block[..], quadrant[..], bigDone[..];
    ComparableIntro(b, blk, q);
    budget', abandoned := SortBig(ptr, block, quadrant, ftab, nblock, ss, budget, b, dn);
    if abandoned { return; }
    assert block[..] == blk && quadrant[..] == q && bigDone[..] == dn;
    assert !bigDone[ss];  // assert 1006 of the source
    Synthesise(ptr, block, bigDone, ftab, nblock, ss, b);
    assert quadrant[..] == q && bigDone[..] == dn;
    MarkColumn(ftab, ss, b, ptr[..], dn[ss := true]);
    assert quadrant[..] == q && bigDone[..] == dn;
    bigDone[ss] := true;
    if !last {
      ghost var s, ft := ptr[..], ftab[..];
      UpdateQuadrants(ptr, quadrant, ftab, nblock, ss, b, bigDone[..]);
      assert ptr[..] == s && ftab[..] == ft;
    }
  }

  /** A budget that never runs out: each of the 256 big buckets takes at most what a stretch of the whole block does. */
  ghost function Enough(n: nat): nat {
    256 * (13 * n * n * (n / 8 + 2))
  }

  lemma EnoughIs(n: nat)
    ensures Enough(n) == Times(Charge(n, n), 256)
  {
    var u := n / 8 + 2;
    assert u * n * 13 * n == 13 * n * n * u;
  }

  /** mainSort. Unless the budget runs out, ptr lists all rotations in order. */
  method Sort(ptr: array<int>, block: array<int>, quadrant: array<int>, ftab: array<int>, nblock: nat, budget: int)
      returns (budget': int)
    requires ptr != block && ptr != quadrant && ptr != ftab && block != quadrant && ftab != block && ftab != quadrant
    requires 34 < nblock <= MAX_BLOCK && ptr.Length == nblock && block.Length == quadrant.Length == nblock + 34 &&
      ftab.Length == 65537
    requires Keys(block[..nblock], 256)
    modifies ptr, block, quadrant, ftab
    ensures block[..nblock] == old(block[..nblock]) && budget' <= budget
    ensures budget' >= 0 ==> SortedRotations(block[..nblock], ptr[..])
    ensures budget >= Enough(nblock) ==> budget' >= 0
  {
    hide *;
    ghost var b := block[..nblock];
    RadixSort(ptr, block, quadrant, ftab, nblock, b);
    ghost var s, blk, q, ft := ptr[..], block[..], quadrant[..], ftab[..];
    var order := MakeOrder(ftab, b);
    var bigDone := new bool[256](_ => false);
    assert ptr[..] == s && block[..] == blk && quadrant[..] == q && ftab[..] == ft;
    MainStart(b, s, ft, bigDone[..]);
    ghost var ord := order[..];
    NoneDone(ord, bigDone[..]);
    budget' := budget;
    ghost var most := Charge(nblock, nblock);
    TimesGrows(most, most, 0, 256);
    EnoughIs(nblock);
    var i := 0;
    while i <= 255
      invariant budget' >= budget - Times(most, i)
      invariant 0 <= i <= 256 && budget' <= budget && block[..] == blk && order[..] == ord
      invariant QuadrantsRight(b, quadrant[..]) && Main(b, ptr[..], ftab[..], bigDone[..]) &&
        DoneSoFar(ord, bigDone[..], i)
    {
      NextBig(ord, bigDone[..], i);
      TimesMore(most, i, i + 1);
      TimesGrows(most, most, i + 1, 256);
      var ss := order[i];
      var abandoned;
      budget', abandoned := ProcessBig(ptr, block, quadrant, ftab, bigDone, nblock, ss, i == 255, budget', b);
      assert block[..nblock] == blk[..nblock];
      if abandoned { return; }
      i := i + 1;
    }
    AllDone(b, ptr[..], ftab[..], ord, bigDone[..]);
  }
}
