/** blocksort.c, mainQSort3: three-way radix quicksort of a stretch of ptr, with an explicit stack. */
module MainQSort {
  import opened Rotations
  import opened RangePermutation
  import opened ThreeWayPartition
  import opened RangeStack
  import opened MainCompare
  import opened MainSimpleSort

  const SMALL_THRESH := 20
  const DEPTH_THRESH := 14
  const STACK_SIZE := 100

  /** The entries of each pending stretch agree as far as its depth says. */
  ghost predicate Deep(b: seq<int>, s: seq<int>, stk: seq<Range>) {
    forall k :: 0 <= k < |stk| ==> 0 <= stk[k].d <= 15 && Agree(b, s, stk[k].lo, stk[k].hi, stk[k].d)
  }

  /** Entries lo..hi are rotations of b. */
  ghost predicate RotationsAt(b: seq<int>, s: seq<int>, lo: int, hi: int) {
    0 <= lo <= hi + 1 <= |s| && forall p :: lo <= p <= hi ==> 0 <= s[p] < |b|
  }

  /** The state between two turns of the main loop. */
  ghost predicate Sorting(b: seq<int>, s: seq<int>, was: seq<int>, stk: seq<Range>, lo0: int, hi0: int) {
    RangePerm(s, was, lo0, hi0) && RotationsAt(b, s, lo0, hi0) && Apart(stk, lo0, hi0) &&
    Ordered(s, RotationOrder(b), stk, lo0, hi0) &&
    Deep(b, s, stk) && Balanced(stk) && Total(stk, 0) <= hi0 - lo0 + 1
  }

  lemma SortingStart(b: seq<int>, s: seq<int>, lo0: int, hi0: int, d: nat)
    requires Agree(b, s, lo0, hi0, d) && d <= 15
    ensures Sorting(b, s, s, [Range(lo0, hi0, d)], lo0, hi0)
  {
    hide Ordered;
    PermRefl(s, lo0, hi0);
    OrderedAll(s, RotationOrder(b), lo0, hi0, d);
    assert Total([Range(lo0, hi0, d)], 1) == 0;
  }

  lemma SortingTop(b: seq<int>, s: seq<int>, was: seq<int>, stk: seq<Range>, x: Range, lo0: int, hi0: int)
    requires Sorting(b, s, was, stk + [x], lo0, hi0)
    ensures 0 <= lo0 <= x.lo <= x.hi + 1 <= hi0 + 1 <= |s| && 0 <= x.d <= 15 && Agree(b, s, x.lo, x.hi, x.d)
    ensures Size(x) == x.hi - x.lo + 1
  {
    hide RangePerm;
    hide Balanced;
    hide Ordered;
    hide Agree;
    assert (stk + [x])[|stk|] == x;
  }

  lemma SortingDepth(b: seq<int>, s: seq<int>, was: seq<int>, stk: seq<Range>, lo0: int, hi0: int)
    requires Sorting(b, s, was, stk, lo0, hi0) && hi0 - lo0 + 1 < 0x8000_0000
    ensures |stk| < 68
  {
    DepthBound(stk);
  }

  /** Stretches apart from x keep their entries. */
  lemma DeepStep(b: seq<int>, s': seq<int>, s: seq<int>, stk: seq<Range>, x: Range, more: seq<Range>, lo0: int,
      hi0: int)
    requires Deep(b, s, stk + [x]) && Deep(b, s', more) && Apart(stk + [x], lo0, hi0) && RangePerm(s', s, x.lo, x.hi)
    ensures Deep(b, s', stk + more)
  {
    var all, new' := stk + [x], stk + more;
    assert all[|stk|] == x;
    forall k | 0 <= k < |new'| ensures 0 <= new'[k].d <= 15 && Agree(b, s', new'[k].lo, new'[k].hi, new'[k].d) {
      if k < |stk| {
        assert new'[k] == all[k];
        assert all[k].hi < x.lo || x.hi < all[k].lo;
        AgreeSame(b, s', s, all[k].lo, all[k].hi, all[k].d);
      } else {
        assert new'[k] == more[k - |stk|];
      }
    }
  }

  lemma AgreeSame(b: seq<int>, s': seq<int>, s: seq<int>, lo: int, hi: int, d: nat)
    requires Agree(b, s, lo, hi, d) && |s'| == |s| && forall p :: lo <= p <= hi ==> s'[p] == s[p]
    ensures Agree(b, s', lo, hi, d)
  {
  }

  /** Replace the top stretch x by `more`, having rearranged x. */
  lemma SortingStep(b: seq<int>, s': seq<int>, s: seq<int>, was: seq<int>, stk: seq<Range>, x: Range,
                    more: seq<Range>, lo0: int, hi0: int)
    requires Sorting(b, s, was, stk + [x], lo0, hi0) && RangePerm(s', s, x.lo, x.hi)
    requires more == [] || (Splits(more, x) && Size(x) >= 1)
    requires Apart(more, x.lo, x.hi) && Deep(b, s', more)
    requires forall p, q :: x.lo <= p < q <= x.hi ==> RotationOrder(b)(s'[p], s'[q]) || Together(more, p, q)
    ensures Sorting(b, s', was, stk + more, lo0, hi0)
  {
    hide RangePerm;
    hide Balanced;
    hide Ordered;
    hide Total;
    hide RotationOrder;
    hide Apart;
    hide Splits;
    hide Together;
    hide Deep;
    hide Agree;
    SortingTop(b, s, was, stk, x, lo0, hi0);
    ApartStep(stk, x, more, lo0, hi0);
    OrderedStep(s', s, RotationOrder(b), stk, x, more, lo0, hi0);
    DeepStep(b, s', s, stk, x, more, lo0, hi0);
    PermWiden(s', s, x.lo, x.hi, lo0, hi0);
    PermTransitive(s', s, was, lo0, hi0);
    RotationsPerm(b, s', s, lo0, hi0);
    if more == [] {
      assert stk + more == stk;
      BalancedPop(stk, x);
    } else {
      BalancedStep(stk, x, more);
    }
  }

  lemma RotationsPerm(b: seq<int>, s: seq<int>, t: seq<int>, lo: int, hi: int)
    requires RangePerm(s, t, lo, hi) && RotationsAt(b, t, lo, hi)
    ensures RotationsAt(b, s, lo, hi)
  {
    forall p | lo <= p <= hi ensures 0 <= s[p] < |b| {
      var q := PermSource(s, t, lo, hi, p);
    }
  }

  /* ---------- one partition ---------- */

  lemma AgreeKeyed(b: seq<int>, blk: seq<int>, s: seq<int>, lo: int, hi: int, d: nat)
    requires Extended(blk, b) && Agree(b, s, lo, hi, d) && d <= 34
    ensures Keyed(s, |blk|, d, lo, hi)
  {
  }

  /** A lesser byte at depth d puts a rotation first; an equal one makes them agree one further. */
  lemma ByteOrder(b: seq<int>, blk: seq<int>, x: int, y: int, d: nat)
    requires Extended(blk, b) && 0 <= x < |b| && 0 <= y < |b| && d <= 33 && Cmp(b, x, y, d) == 0
    ensures blk[x + d] < blk[y + d] ==> RotationOrder(b)(x, y)
    ensures blk[x + d] == blk[y + d] ==> Cmp(b, x, y, d + 1) == 0
  {
    var n := |b|;
    TiedStart(b, x, y, d);
    var x', y' := Wrap(n, x + d), Wrap(n, y + d);
    assert blk[x + d] == b[x'] && blk[y + d] == b[y'];
    if b[x'] == b[y'] {
      assert Cmp(b, x', y', 1) == 0 by { assert Cmp(b, Next(n, x'), Next(n, y'), 0) == 0; }
      assert Cmp(b, x, y, d + 1) == Cmp(b, x', y', 1);
    } else {
      ByteDecides(b, x, y, d, x + d, y + d);
    }
  }

  /** Everything in the stretch has the same byte: it agrees one further. */
  lemma AllEqual(b: seq<int>, j: Job, s: seq<int>, ltLo: int, unLo: int, unHi: int, gtHi: int)
    requires Extended(j.ks, b) && 0 <= j.off <= 14 && Agree(b, s, j.lo, j.hi, j.off)
    requires Scanned(j, s, ltLo, unLo, unHi, gtHi) && unLo == unHi + 1 && gtHi < ltLo
    ensures Agree(b, s, j.lo, j.hi, j.off + 1)
  {
    hide Cmp;
    hide RangePerm;
    forall p, q | j.lo <= p <= j.hi && j.lo <= q <= j.hi ensures Cmp(b, s[p], s[q], j.off + 1) == 0 {
      assert j.ks[s[p] + j.off] == j.med && j.ks[s[q] + j.off] == j.med;
      ByteOrder(b, j.ks, s[p], s[q], j.off);
    }
  }

  /** The three parts left by a partition, the middle one known to agree one further. */
  lemma PartsAgree(b: seq<int>, j: Job, s: seq<int>, n: int, m: int)
    requires Extended(j.ks, b) && 0 <= j.off <= 14 && Agree(b, s, j.lo, j.hi, j.off) && Partitioned(j, s, n, m)
    ensures Agree(b, s, j.lo, n, j.off) && Agree(b, s, m, j.hi, j.off) && Agree(b, s, n + 1, m - 1, j.off + 1)
  {
    hide Cmp;
    hide RangePerm;
    forall p, q | n + 1 <= p <= m - 1 && n + 1 <= q <= m - 1 ensures Cmp(b, s[p], s[q], j.off + 1) == 0 {
      ByteOrder(b, j.ks, s[p], s[q], j.off);
    }
  }

  lemma PartsOrdered(b: seq<int>, j: Job, s: seq<int>, n: int, m: int, more: seq<Range>)
    requires Extended(j.ks, b) && 0 <= j.off <= 14 && Agree(b, s, j.lo, j.hi, j.off) && Partitioned(j, s, n, m)
    requires Together(more, j.lo, n) && Together(more, m, j.hi) && Together(more, n + 1, m - 1)
    ensures forall p, q :: j.lo <= p < q <= j.hi ==> RotationOrder(b)(s[p], s[q]) || Together(more, p, q)
  {
    hide Cmp;
    hide RangePerm;
    hide RotationOrder;
    forall p, q | j.lo <= p < q <= j.hi ensures RotationOrder(b)(s[p], s[q]) || Together(more, p, q) {
      if q <= n {
        TogetherInside(more, j.lo, n, p, q);
      } else if m <= p {
        TogetherInside(more, m, j.hi, p, q);
      } else if n < p && q < m {
        TogetherInside(more, n + 1, m - 1, p, q);
      } else {
        ByteOrder(b, j.ks, s[p], s[q], j.off);
      }
    }
  }

  lemma TogetherInside(stk: seq<Range>, lo: int, hi: int, p: int, q: int)
    requires Together(stk, lo, hi) && lo <= p && q <= hi
    ensures Together(stk, p, q)
  {
    var r :| 0 <= r < |stk| && stk[r].lo <= lo && hi <= stk[r].hi;
    assert stk[r].lo <= p && q <= stk[r].hi;
  }

  /** The pivot occurs in the stretch, so the middle is not empty. */
  lemma PivotCounts(j: Job, s: seq<int>, n: int, m: int, at: int)
    requires Partitioned(j, s, n, m) && j.lo <= at <= j.hi && 0 <= j.was[at] + j.off < |j.ks|
    requires j.ks[j.was[at] + j.off] == j.med
    ensures n + 1 < m
  {
    hide Keyed;
    PermSymmetric(s, j.was, j.lo, j.hi);
    var q := PermSource(j.was, s, j.lo, j.hi, at);
    assert j.ks[s[q] + j.off] == j.med;
  }

  lemma PartitionedBounds(j: Job, s: seq<int>, n: int, m: int)
    requires Partitioned(j, s, n, m)
    ensures RangePerm(s, j.was, j.lo, j.hi) && j.lo <= n + 1 <= m <= j.hi + 1
  {
  }

  lemma ScannedPerm(j: Job, s: seq<int>, ltLo: int, unLo: int, unHi: int, gtHi: int)
    requires Scanned(j, s, ltLo, unLo, unHi, gtHi)
    ensures RangePerm(s, j.was, j.lo, j.hi)
  {
  }

  /* ---------- what is pushed ---------- */

  /** mnextsize. */
  function Spread(r: Range): (n: int) {
    r.hi - r.lo
  }

  /** The three parts in the order they are pushed: largest first. */
  function LargestFirst(r0: Range, r1: Range, r2: Range): (t: (Range, Range, Range)) {
    var a, c := if Spread(r0) < Spread(r1) then r1 else r0, if Spread(r0) < Spread(r1) then r0 else r1;
    var c', e := if Spread(c) < Spread(r2) then r2 else c, if Spread(c) < Spread(r2) then c else r2;
    if Spread(a) < Spread(c') then (c', a, e) else (a, c', e)
  }

  /** The stack entries a partition leaves. */
  ghost function Parts(x: Range, n: int, m: int): (more: seq<Range>) {
    var t := LargestFirst(Range(x.lo, n, x.d), Range(m, x.hi, x.d), Range(n + 1, m - 1, x.d + 1));
    [t.0, t.1, t.2]
  }

  lemma PartsAre(x: Range, n: int, m: int)
    ensures var more, r0, r1, r2 :=
      Parts(x, n, m), Range(x.lo, n, x.d), Range(m, x.hi, x.d), Range(n + 1, m - 1, x.d + 1);
      more == [r0, r1, r2] || more == [r0, r2, r1] || more == [r1, r0, r2] || more == [r1, r2, r0] ||
      more == [r2, r0, r1] || more == [r2, r1, r0]
    ensures var more := Parts(x, n, m); Spread(more[0]) >= Spread(more[1]) >= Spread(more[2])
  {
  }

  lemma PartsSplit(x: Range, n: int, m: int)
    requires x.lo <= n + 1 < m <= x.hi + 1
    ensures Splits(Parts(x, n, m), x) && Apart(Parts(x, n, m), x.lo, x.hi)
  {
    PartsAre(x, n, m);
    var more := Parts(x, n, m);
    hide Parts;
    TotalsOf(more);
  }

  lemma PartsTogether(x: Range, n: int, m: int)
    ensures Together(Parts(x, n, m), x.lo, n) && Together(Parts(x, n, m), m, x.hi) &&
      Together(Parts(x, n, m), n + 1, m - 1)
  {
    PartsAre(x, n, m);
    var more := Parts(x, n, m);
    hide Parts;
    hide Together;
    TogetherSelf(more, 0);
    TogetherSelf(more, 1);
    TogetherSelf(more, 2);
  }

  lemma TogetherSelf(stk: seq<Range>, k: nat)
    requires k < |stk|
    ensures Together(stk, stk[k].lo, stk[k].hi)
  {
  }

  lemma PartsDeep(b: seq<int>, s: seq<int>, x: Range, n: int, m: int)
    requires 0 <= x.d <= 14
    requires Agree(b, s, x.lo, n, x.d) && Agree(b, s, m, x.hi, x.d) && Agree(b, s, n + 1, m - 1, x.d + 1)
    ensures Deep(b, s, Parts(x, n, m))
  {
    PartsAre(x, n, m);
    hide Parts;
    hide Agree;
  }

  /** Replacing a stretch by its three parts is progress: the middle one is not empty, and deeper. */
  lemma PartsProgress(stk: seq<Range>, x: Range, n: int, m: int)
    requires x.lo <= n + 1 < m <= x.hi + 1 && 0 <= x.d <= 14
    ensures Pending(stk + Parts(x, n, m)) < Pending(stk + [x])
  {
    PartsAre(x, n, m);
    var more := Parts(x, n, m);
    hide Parts;
    hide Pending;
    WorkPush(stk, x);
    WorkPush(stk, more[0]);
    WorkPush(stk + [more[0]], more[1]);
    WorkPush(stk + [more[0]] + [more[1]], more[2]);
    assert stk + more == stk + [more[0]] + [more[1]] + [more[2]];
    PartsWeight(x, n, m);
  }

  lemma PartsWeight(x: Range, n: int, m: int)
    requires x.lo <= n + 1 < m <= x.hi + 1 && 0 <= x.d <= 14
    ensures Weight(Range(x.lo, n, x.d)) + Weight(Range(m, x.hi, x.d)) + Weight(Range(n + 1, m - 1, x.d + 1)) < Weight(x)
  {
    var k := 17 - x.d;
    var a, c, e := n - x.lo + 1, x.hi - m + 1, m - 1 - n;
    Distribute(a, c, e, k);
  }

  lemma Distribute(a: nat, c: nat, e: nat, k: nat)
    requires e >= 1 && k >= 1
    ensures 3 + 3 * a * k + 3 * c * k + 3 * e * (k - 1) < 1 + 3 * (a + c + e) * k
  {
    assert 3 * e * (k - 1) == 3 * e * k - 3 * e;
    assert 3 * (a + c + e) * k == 3 * a * k + 3 * c * k + 3 * e * k;
  }

  /** Going one deeper is progress. */
  lemma DeeperProgress(stk: seq<Range>, x: Range)
    requires Size(x) >= 1 && 0 <= x.d <= 14
    ensures Pending(stk + [Range(x.lo, x.hi, x.d + 1)]) < Pending(stk + [x])
  {
    WorkPush(stk, x);
    WorkPush(stk, Range(x.lo, x.hi, x.d + 1));
    assert Size(x) * (17 - (x.d + 1)) == Size(x) * (17 - x.d) - Size(x);
  }

  lemma DeeperSplit(b: seq<int>, s: seq<int>, x: Range)
    requires x.lo <= x.hi && 0 <= x.d <= 14 && Agree(b, s, x.lo, x.hi, x.d + 1)
    ensures var more := [Range(x.lo, x.hi, x.d + 1)];
      Splits(more, x) && Apart(more, x.lo, x.hi) && Deep(b, s, more) &&
      forall p, q :: x.lo <= p < q <= x.hi ==> Together(more, p, q)
  {
    var more := [Range(x.lo, x.hi, x.d + 1)];
    TotalsOf(more);
    forall p, q | x.lo <= p < q <= x.hi ensures Together(more, p, q) {
      assert more[0].lo <= p && q <= more[0].hi;
    }
  }

  /* ---------- the loop ---------- */

  /** mmed3: the median of three bytes. */
  function Median(a: int, b: int, c: int): (r: int)
    ensures r == a || r == b || r == c
    ensures (a <= r <= b || b <= r <= a) || (a <= r <= c || c <= r <= a)
    ensures (b <= r <= c || c <= r <= b) || (a <= r <= b || b <= r <= a)
  {
    var (a', b') := if a > b then (b, a) else (a, b);
    if b' > c then (if a' > c then a' else c) else b'
  }

  method ChoosePivot(ptr: array<int>, block: array<int>, lo: int, hi: int, d: int) returns (med: int, ghost at: int)
    requires lo <= hi && Keyed(ptr[..], block.Length, d, lo, hi)
    ensures lo <= at <= hi && 0 <= at < ptr.Length && 0 <= ptr[at] + d < block.Length && med == block[ptr[at] + d]
  {
    var mid := (lo + hi) / 2;
    med := Median(block[ptr[lo] + d], block[ptr[hi] + d], block[ptr[mid] + d]);
    at := if med == block[ptr[lo] + d] then lo else if med == block[ptr[hi] + d] then hi else mid;
  }

  /** What one turn leaves of the popped stretch x. */
  ghost function Left(x: Range, turn: int, n: int, m: int): (more: seq<Range>) {
    if turn == 0 then [] else if turn == 1 then [Range(x.lo, x.hi, x.d + 1)] else Parts(x, n, m)
  }

  lemma LeftIs(x: Range, n: int, m: int)
    ensures Left(x, 0, n, m) == [] && Left(x, 1, n, m) == [Range(x.lo, x.hi, x.d + 1)] &&
      Left(x, 2, n, m) == Parts(x, n, m)
  {
  }

  lemma NothingLeft(b: seq<int>, s: seq<int>, lo: int, hi: int)
    ensures Apart([], lo, hi) && Deep(b, s, [])
  {
  }

  lemma HeldPairs(b: seq<int>, s: seq<int>, was: seq<int>, lo: int, hi: int, d: nat)
    requires Held(b, s, was, lo, hi, d) && InOrder(b, s, lo, hi)
    ensures RangePerm(s, was, lo, hi) && forall p, q :: lo <= p < q <= hi ==> RotationOrder(b)(s[p], s[q])
  {
    hide RotationOrder;
    hide Agree;
    assert 0 <= lo && hi < |s|;
  }

  lemma HeldOnly(b: seq<int>, s: seq<int>, was: seq<int>, lo: int, hi: int, d: nat)
    requires Held(b, s, was, lo, hi, d)
    ensures RangePerm(s, was, lo, hi)
  {
  }

  /** When the sort is abandoned only the rearrangement is known. */
  lemma SortingPerm(b: seq<int>, s': seq<int>, s: seq<int>, was: seq<int>, stk: seq<Range>, x: Range, lo0: int,
      hi0: int)
    requires Sorting(b, s, was, stk + [x], lo0, hi0) && RangePerm(s', s, x.lo, x.hi)
    ensures RangePerm(s', was, lo0, hi0)
  {
    hide Balanced;
    hide Ordered;
    hide Deep;
    SortingTop(b, s, was, stk, x, lo0, hi0);
    PermWiden(s', s, x.lo, x.hi, lo0, hi0);
    PermTransitive(s', s, was, lo0, hi0);
  }

  /** One partition of the popped stretch. */
  method Partition(ptr: array<int>, block: array<int>, lo: int, hi: int, d: nat, ghost b: seq<int>)
      returns (turn: int, n: int, m: int)
    requires ptr != block && Extended(block[..], b) && d <= 14 && lo < hi && Agree(b, ptr[..], lo, hi, d)
    modifies ptr
    ensures RangePerm(ptr[..], old(ptr[..]), lo, hi) && 1 <= turn <= 2
    ensures var x := Range(lo, hi, d); var more := Left(x, turn, n, m);
      Splits(more, x) && Apart(more, lo, hi) && Deep(b, ptr[..], more) &&
      forall p, q :: lo <= p < q <= hi ==> RotationOrder(b)(ptr[..][p], ptr[..][q]) || Together(more, p, q)
    ensures turn == 2 ==> lo <= n + 1 < m <= hi + 1
  {
    hide *;
    ghost var s, blk, x := ptr[..], block[..], Range(lo, hi, d);
    AgreeKeyed(b, blk, s, lo, hi, d);
    var med;
    ghost var at;
    med, at := ChoosePivot(ptr, block, lo, hi, d);
    ghost var j := Job(s, blk, d, lo, hi, med);
    n, m := 0, 0;
    var ltLo, unLo, unHi, gtHi := Scan(ptr, block, d, lo, hi, med);
    ScannedPerm(j, ptr[..], ltLo, unLo, unHi, gtHi);
    AgreePerm(b, ptr[..], s, lo, hi, d);
    LeftIs(x, n, m);
    if gtHi < ltLo {
      AllEqual(b, j, ptr[..], ltLo, unLo, unHi, gtHi);
      DeeperSplit(b, ptr[..], x);
      turn := 1;
      return;
    }
    n, m := GatherEqual(ptr, j, lo, hi, ltLo, unLo, unHi, gtHi);
    turn := 2;
    LeftIs(x, n, m);
    PartitionedBounds(j, ptr[..], n, m);
    PivotCounts(j, ptr[..], n, m, at);
    AgreePerm(b, ptr[..], s, lo, hi, d);
    PartsAgree(b, j, ptr[..], n, m);
    PartsSplit(x, n, m);
    PartsDeep(b, ptr[..], x, n, m);
    PartsTogether(x, n, m);
    PartsOrdered(b, j, ptr[..], n, m, Parts(x, n, m));
  }

  /** One turn of the main loop on the popped stretch: sort it outright, or partition it and say
      what is left. */
  method SortTop(ptr: array<int>, block: array<int>, quadrant: array<int>, nblock: nat, lo: int, hi: int, d: int,
      budget: int,
                 ghost b: seq<int>, ghost stk: seq<Range>, ghost was: seq<int>, ghost loSt: int, ghost hiSt: int,
                 ghost budget0: int, ghost size: nat)
    returns (turn: int, n: int, m: int, budget': int)
    requires Paid(nblock, budget0, budget, size, Sizes(stk + [Range(lo, hi, d)]))
    requires ptr != block && ptr != quadrant && |b| == nblock && Comparable(b, block[..], quadrant[..])
    requires Sorting(b, ptr[..], was, stk + [Range(lo, hi, d)], loSt, hiSt) && hiSt - loSt < 2391484
    modifies ptr
    ensures 0 <= turn <= 2 && budget' <= budget && (turn != 0 ==> lo < hi && 0 <= d <= 14)
    ensures turn == 2 ==> lo <= n + 1 < m <= hi + 1
    ensures turn != 0 || budget' >= 0 ==> Sorting(b, ptr[..], was, stk + Left(Range(lo, hi, d), turn, n, m), loSt, hiSt)
    ensures turn == 0 && budget' < 0 ==> RangePerm(ptr[..], was, loSt, hiSt)
    ensures Paid(nblock, budget0, budget', size, Sizes(stk + Left(Range(lo, hi, d), turn, n, m)))
  {
    hide *;
    LimitsAre();
    ComparableParts(b, block[..], quadrant[..]);
    ghost var s, x := ptr[..], Range(lo, hi, d);
    SortingTop(b, s, was, stk, x, loSt, hiSt);
    turn, n, m, budget' := 0, 0, 0, budget;
    LeftIs(x, n, m);
    SizesPush(stk, x);
    SizesLeft(stk, x, 0, n, m);
    if hi - lo < SMALL_THRESH || d > DEPTH_THRESH {
      budget' := SimpleSort(ptr, block, quadrant, nblock, lo, hi, d, budget, b);
      HeldOnly(b, ptr[..], s, lo, hi, d);
      PaidTurn(nblock, budget0, budget, budget', size, Sizes(stk), Len(lo, hi), 0, Sizes(stk));
      if budget' < 0 {
        SortingPerm(b, ptr[..], s, was, stk, x, loSt, hiSt);
        return;
      }
      HeldPairs(b, ptr[..], s, lo, hi, d);
      NothingLeft(b, ptr[..], lo, hi);
      SortingStep(b, ptr[..], s, was, stk, x, [], loSt, hiSt);
      return;
    }
    turn, n, m := Partition(ptr, block, lo, hi, d, b);
    SizeOf(x);
    SizesLeft(stk, x, turn, n, m);
    SortingStep(b, ptr[..], s, was, stk, x, Left(x, turn, n, m), loSt, hiSt);
  }

  lemma LimitsAre()
    ensures SMALL_THRESH == 20 && DEPTH_THRESH == 14 && STACK_SIZE == 100
  {
  }

  lemma ComparableParts(b: seq<int>, blk: seq<int>, q: seq<int>)
    requires Comparable(b, blk, q)
    ensures Extended(blk, b)
  {
    hide Extended;
    hide QuadrantsRight;
  }

  lemma SizeOf(x: Range)
    requires x.lo <= x.hi
    ensures Size(x) >= 1
  {
  }

  /* ---------- the budget ---------- */

  /** How many entries the stretches on the stack have. */
  ghost function Sizes(stk: seq<Range>): nat {
    if stk == [] then 0 else Sizes(stk[..|stk| - 1]) + Len(stk[|stk| - 1].lo, stk[|stk| - 1].hi)
  }

  lemma SizesPush(stk: seq<Range>, x: Range)
    ensures Sizes(stk + [x]) == Sizes(stk) + Len(x.lo, x.hi) && Sizes([]) == 0
  {
    assert (stk + [x])[..|stk|] == stk;
  }

  /** A turn leaves as many as there were, or none. */
  lemma SizesLeft(stk: seq<Range>, x: Range, turn: int, n: int, m: int)
    requires 0 <= turn <= 2 && (turn != 0 ==> x.lo < x.hi) && (turn == 2 ==> x.lo <= n + 1 < m <= x.hi + 1)
    ensures Sizes(stk + Left(x, turn, n, m)) == Sizes(stk) + if turn == 0 then 0 else Len(x.lo, x.hi)
  {
    hide Sizes;
    hide LargestFirst;
    if turn == 0 {
      assert stk + [] == stk;
    } else if turn == 1 {
      SizesPush(stk, Range(x.lo, x.hi, x.d + 1));
    } else {
      var a, b, c := Range(x.lo, n, x.d), Range(m, x.hi, x.d), Range(n + 1, m - 1, x.d + 1);
      var t := LargestFirst(a, b, c);
      SizesPush(stk, t.0);
      SizesPush(stk + [t.0], t.1);
      SizesPush(stk + [t.0] + [t.1], t.2);
      assert stk + Left(x, turn, n, m) == stk + [t.0] + [t.1] + [t.2];
      SameThree(a, b, c);
    }
  }

  lemma SameThree(a: Range, b: Range, c: Range)
    ensures var t := LargestFirst(a, b, c);
      Len(t.0.lo, t.0.hi) + Len(t.1.lo, t.1.hi) + Len(t.2.lo, t.2.hi) ==
      Len(a.lo, a.hi) + Len(b.lo, b.hi) + Len(c.lo, c.hi)
  {
  }

  lemma ChargeAdds(n: nat, a: nat, b: nat)
    ensures Charge(n, a) + Charge(n, b) == Charge(n, a + b) && Charge(n, 0) == 0
  {
    hide Step;
    var w := Times(Times(Step(n), n), 13);
    assert w * a + w * b == w * (a + b);
  }

  /** With left of size entries still to be sorted, what has been taken is at most what the others may take. */
  ghost predicate Paid(n: nat, budget: int, budget': int, size: nat, left: nat) {
    size <= n ==> left <= size && budget' >= budget - Charge(n, size - left)
  }

  lemma PaidStart(n: nat, budget: int, size: nat)
    ensures Paid(n, budget, budget, size, size)
  {
    ChargeAdds(n, 0, 0);
  }

  lemma PaidNext(n: nat, budget: int, budget1: int, budget2: int, size: nat, left1: nat, left2: nat)
    requires Paid(n, budget, budget1, size, left1) && Paid(n, budget1, budget2, left1, left2)
    ensures Paid(n, budget, budget2, size, left2)
  {
    hide Charge;
    if size <= n { ChargeAdds(n, size - left1, left1 - left2); }
  }

  /** A stretch of len entries on top of rest: it has been sorted, or divided. */
  lemma PaidTurn(n: nat, budget0: int, budget: int, budget': int, size: nat, rest: nat, len: nat, turn: int, left: nat)
    requires Paid(n, budget0, budget, size, rest + len) && left == (if turn == 0 then rest else rest + len)
    requires len <= n ==> budget' >= budget - if turn == 0 then Charge(n, len) else 0
    ensures Paid(n, budget0, budget', size, left)
  {
    hide Charge;
    ChargeAdds(n, 0, 0);
    PaidNext(n, budget0, budget, budget', size, rest + len, left);
  }

  lemma PaidAll(n: nat, budget: int, budget': int, size: nat, left: nat)
    requires Paid(n, budget, budget', size, left)
    ensures size <= n ==> budget' >= budget - Charge(n, size)
  {
    hide Charge;
    if size <= n { ChargeAdds(n, size - left, left); }
  }

  /* ---------- the stack arrays ---------- */

  /** The three stack arrays hold the stack. */
  ghost predicate Mirrors(stk: seq<Range>, los: seq<int>, his: seq<int>, ds: seq<int>, sp: int) {
    sp == |stk| <= |los| == |his| == |ds| &&
    forall k :: 0 <= k < |stk| ==> stk[k] == Range(los[k], his[k], ds[k])
  }

  method Push(stackLo: array<int>, stackHi: array<int>, stackD: array<int>, sp: int, r: Range, ghost stk: seq<Range>)
      returns (sp': int)
    requires stackLo != stackHi && stackLo != stackD && stackHi != stackD
    requires stackLo.Length == stackHi.Length == stackD.Length && 0 <= sp < stackLo.Length
    requires Mirrors(stk, stackLo[..], stackHi[..], stackD[..], sp)
    modifies stackLo, stackHi, stackD
    ensures sp' == sp + 1 && Mirrors(stk + [r], stackLo[..], stackHi[..], stackD[..], sp')
  {
    stackLo[sp], stackHi[sp], stackD[sp] := r.lo, r.hi, r.d;
    sp' := sp + 1;
  }

  method Pop(stackLo: array<int>, stackHi: array<int>, stackD: array<int>, sp: int, ghost stk: seq<Range>)
    returns (sp': int, r: Range, ghost rest: seq<Range>)
    requires stackLo.Length == stackHi.Length == stackD.Length && sp > 0
    requires Mirrors(stk, stackLo[..], stackHi[..], stackD[..], sp)
    ensures stk == rest + [r] && sp' == sp - 1 && |stk| == sp
    ensures Mirrors(rest, stackLo[..], stackHi[..], stackD[..], sp')
  {
    sp' := sp - 1;
    r, rest := Range(stackLo[sp'], stackHi[sp'], stackD[sp']), stk[..sp'];
  }

  /** Push what one turn has left of x. */
  method PushLeft(stackLo: array<int>, stackHi: array<int>, stackD: array<int>, sp: int, x: Range, turn: int, n: int,
      m: int, ghost stk: seq<Range>)
    returns (sp': int)
    requires stackLo != stackHi && stackLo != stackD && stackHi != stackD && 0 <= turn <= 2
    requires stackLo.Length == stackHi.Length == stackD.Length && 0 <= sp < stackLo.Length - 2
    requires Mirrors(stk, stackLo[..], stackHi[..], stackD[..], sp)
    modifies stackLo, stackHi, stackD
    ensures sp <= sp' && Mirrors(stk + Left(x, turn, n, m), stackLo[..], stackHi[..], stackD[..], sp')
  {
    hide Mirrors;
    hide LargestFirst;
    sp' := sp;
    if turn == 0 {
      assert stk + Left(x, turn, n, m) == stk;
    } else if turn == 1 {
      sp' := Push(stackLo, stackHi, stackD, sp, Range(x.lo, x.hi, x.d + 1), stk);
    } else {
      var t := LargestFirst(Range(x.lo, n, x.d), Range(m, x.hi, x.d), Range(n + 1, m - 1, x.d + 1));
      sp' := Push(stackLo, stackHi, stackD, sp, t.0, stk);
      sp' := Push(stackLo, stackHi, stackD, sp', t.1, stk + [t.0]);
      sp' := Push(stackLo, stackHi, stackD, sp', t.2, stk + [t.0] + [t.1]);
      assert stk + Left(x, turn, n, m) == stk + [t.0] + [t.1] + [t.2];
    }
  }

  lemma LeftProgress(stk: seq<Range>, x: Range, turn: int, n: int, m: int)
    requires 0 <= turn <= 2 && (turn != 0 ==> x.lo < x.hi && 0 <= x.d <= 14)
    requires turn == 2 ==> x.lo <= n + 1 < m <= x.hi + 1
    ensures Pending(stk + Left(x, turn, n, m)) < Pending(stk + [x])
  {
    hide Parts;
    LeftIs(x, n, m);
    if turn == 0 {
      assert stk + [] == stk;
      WorkPush(stk, x);
    } else if turn == 1 {
      DeeperProgress(stk, x);
    } else {
      PartsProgress(stk, x, n, m);
    }
  }

  lemma MirrorsEmpty(los: seq<int>, his: seq<int>, ds: seq<int>)
    requires |los| == |his| == |ds|
    ensures Mirrors([], los, his, ds, 0)
  {
  }

  lemma StackEmpty(stk: seq<Range>, los: seq<int>, his: seq<int>, ds: seq<int>, sp: int)
    requires Mirrors(stk, los, his, ds, sp) && sp <= 0
    ensures stk == []
  {
  }

  lemma SortingDone(b: seq<int>, s: seq<int>, was: seq<int>, lo0: int, hi0: int)
    requires Sorting(b, s, was, [], lo0, hi0)
    ensures RangePerm(s, was, lo0, hi0) && InOrder(b, s, lo0, hi0)
  {
    OrderedDone(s, RotationOrder(b), lo0, hi0);
  }

  /** Between two turns of the main loop: what is sorted, and the stack. */
  ghost predicate Loop(b: seq<int>, s: seq<int>, was: seq<int>, stk: seq<Range>, los: seq<int>, his: seq<int>,
      ds: seq<int>, sp: int,
                       lo0: int, hi0: int) {
    Mirrors(stk, los, his, ds, sp) && Sorting(b, s, was, stk, lo0, hi0) && |los| == STACK_SIZE && hi0 - lo0 < 2391484
  }

  lemma LoopParts(b: seq<int>, s: seq<int>, was: seq<int>, stk: seq<Range>, los: seq<int>, his: seq<int>, ds: seq<int>,
      sp: int,
                  lo0: int, hi0: int)
    requires Loop(b, s, was, stk, los, his, ds, sp, lo0, hi0)
    ensures Mirrors(stk, los, his, ds, sp) && Sorting(b, s, was, stk, lo0, hi0) && |los| == STACK_SIZE &&
      hi0 - lo0 < 2391484
    ensures |stk| < 68
  {
    SortingDepth(b, s, was, stk, lo0, hi0);
  }

  lemma LoopIntro(b: seq<int>, s: seq<int>, was: seq<int>, stk: seq<Range>, los: seq<int>, his: seq<int>, ds: seq<int>,
      sp: int,
                  lo0: int, hi0: int)
    requires Mirrors(stk, los, his, ds, sp) && Sorting(b, s, was, stk, lo0, hi0) && |los| == STACK_SIZE &&
      hi0 - lo0 < 2391484
    ensures Loop(b, s, was, stk, los, his, ds, sp, lo0, hi0)
  {
  }

  /** One turn: pop a stretch, deal with it, push what is left. */
  method Turn(ptr: array<int>, block: array<int>, quadrant: array<int>, nblock: nat, stackLo: array<int>,
      stackHi: array<int>,
              stackD: array<int>, sp: int, budget: int,
              ghost b: seq<int>, ghost stk: seq<Range>, ghost was: seq<int>, ghost loSt: int, ghost hiSt: int,
              ghost budget0: int, ghost size: nat)
    returns (sp': int, budget': int, abandoned: bool, ghost stk': seq<Range>)
    requires ptr != block && ptr != quadrant && |b| == nblock && Comparable(b, block[..], quadrant[..])
    requires {ptr, block, quadrant} !! {stackLo, stackHi, stackD} && stackLo != stackHi && stackLo != stackD &&
      stackHi != stackD
    requires stackLo.Length == stackHi.Length == stackD.Length
    requires sp > 0 && Loop(b, ptr[..], was, stk, stackLo[..], stackHi[..], stackD[..], sp, loSt, hiSt)
    requires Paid(nblock, budget0, budget, size, Sizes(stk))
    modifies ptr, stackLo, stackHi, stackD
    ensures budget' <= budget
    ensures abandoned ==> budget' < 0 && RangePerm(ptr[..], was, loSt, hiSt)
    ensures !abandoned ==> Loop(b, ptr[..], was, stk', stackLo[..], stackHi[..], stackD[..], sp', loSt, hiSt)
    ensures !abandoned ==> 0 <= sp' && Pending(stk') < Pending(stk)
    ensures Paid(nblock, budget0, budget', size, Sizes(stk'))
  {
    hide *;
    LimitsAre();
    LoopParts(b, ptr[..], was, stk, stackLo[..], stackHi[..], stackD[..], sp, loSt, hiSt);
    var x;
    ghost var rest;
    sp', x, rest := Pop(stackLo, stackHi, stackD, sp, stk);
    assert sp < STACK_SIZE - 2;
    stk', abandoned := rest, false;
    ghost var los, his, ds := stackLo[..], stackHi[..], stackD[..];
    var turn, n, m;
    turn, n, m, budget' := SortTop(ptr, block, quadrant, nblock, x.lo, x.hi, x.d, budget, b, rest, was, loSt, hiSt,
      budget0, size);
    stk' := rest + Left(x, turn, n, m);
    if turn == 0 && budget' < 0 { abandoned := true; return; }
    assert stackLo[..] == los && stackHi[..] == his && stackD[..] == ds;
    ghost var s := ptr[..];
    LeftProgress(rest, x, turn, n, m);
    sp' := PushLeft(stackLo, stackHi, stackD, sp', x, turn, n, m, rest);
    assert ptr[..] == s;
    LoopIntro(b, ptr[..], was, stk', stackLo[..], stackHi[..], stackD[..], sp', loSt, hiSt);
  }

  /** mainQSort3. At least three stack slots are free whenever a stretch is popped. Unless the budget
      has run out, the stretch ends up in rotation order. */
  method QSort3(ptr: array<int>, block: array<int>, quadrant: array<int>, nblock: nat, loSt: int, hiSt: int, dSt: nat,
      budget: int,
                ghost b: seq<int>) returns (budget': int)
    requires ptr != block && ptr != quadrant && |b| == nblock && Comparable(b, block[..], quadrant[..])
    requires dSt <= 15 && Agree(b, ptr[..], loSt, hiSt, dSt) && hiSt - loSt < 2391484
    modifies ptr
    ensures RangePerm(ptr[..], old(ptr[..]), loSt, hiSt) && budget' <= budget
    ensures budget' >= 0 ==> InOrder(b, ptr[..], loSt, hiSt)
    ensures Len(loSt, hiSt) <= nblock ==> budget' >= budget - Charge(nblock, Len(loSt, hiSt))
  {
    hide *;
    LimitsAre();
    ghost var was, blk, qd := ptr[..], block[..], quadrant[..];
    budget' := budget;
    var stackLo, stackHi, stackD := new int[STACK_SIZE], new int[STACK_SIZE], new int[STACK_SIZE];
    MirrorsEmpty(stackLo[..], stackHi[..], stackD[..]);
    var sp := Push(stackLo, stackHi, stackD, 0, Range(loSt, hiSt, dSt), []);
    ghost var stk := [Range(loSt, hiSt, dSt)];
    SortingStart(b, was, loSt, hiSt, dSt);
    assert [] + [Range(loSt, hiSt, dSt)] == stk;
    SizesPush([], Range(loSt, hiSt, dSt));
    ghost var size := Len(loSt, hiSt);
    PaidStart(nblock, budget, size);
    LoopIntro(b, ptr[..], was, stk, stackLo[..], stackHi[..], stackD[..], sp, loSt, hiSt);
    while sp > 0
      invariant 0 <= sp && budget' <= budget && block[..] == blk && quadrant[..] == qd
      invariant Loop(b, ptr[..], was, stk, stackLo[..], stackHi[..], stackD[..], sp, loSt, hiSt)
      invariant Paid(nblock, budget, budget', size, Sizes(stk))
      decreases Pending(stk)
    {
      var abandoned;
      sp, budget', abandoned, stk :=
        Turn(ptr, block, quadrant, nblock, stackLo, stackHi, stackD, sp, budget', b, stk, was, loSt, hiSt, budget,
          size);
      PaidAll(nblock, budget, budget', size, Sizes(stk));
      if abandoned { return; }
    }
    LoopParts(b, ptr[..], was, stk, stackLo[..], stackHi[..], stackD[..], sp, loSt, hiSt);
    StackEmpty(stk, stackLo[..], stackHi[..], stackD[..], sp);
    PaidAll(nblock, budget, budget', size, Sizes(stk));
    SortingDone(b, ptr[..], was, loSt, hiSt);
  }
}
