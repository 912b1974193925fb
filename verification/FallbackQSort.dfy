/** fallbackSimpleSort and fallbackQSort3: sorting a stretch of fmap by the class of each entry. */
module FallbackQSort {
  import opened RangePermutation
  import opened ThreeWayPartition
  import opened RangeStack

  const SMALL_THRESH := 10
  const STACK_SIZE := 100

  /** x comes no later than y by class. */
  ghost function ClassOrder(ks: seq<int>): (int, int) -> bool {
    (x, y) => 0 <= x < |ks| && 0 <= y < |ks| && ks[x] <= ks[y]
  }

  /** Entries lo..hi are in class order. */
  ghost predicate SortedByClass(s: seq<int>, ks: seq<int>, lo: int, hi: int) {
    forall p, q :: 0 <= lo <= p < q <= hi < |s| ==> ClassOrder(ks)(s[p], s[q])
  }

  /** What the sort keeps: only lo..hi rearranged, every entry there has a class. */
  ghost predicate Kept(s: seq<int>, was: seq<int>, ks: seq<int>, lo: int, hi: int) {
    RangePerm(s, was, lo, hi) && Keyed(s, |ks|, 0, lo, hi)
  }

  lemma KeptStart(s: seq<int>, ks: seq<int>, lo: int, hi: int)
    requires Keyed(s, |ks|, 0, lo, hi)
    ensures Kept(s, s, ks, lo, hi)
  {
  }

  lemma KeptAt(s: seq<int>, was: seq<int>, ks: seq<int>, lo: int, hi: int, p: int)
    requires Kept(s, was, ks, lo, hi) && lo <= p <= hi
    ensures 0 <= p < |s| && 0 <= s[p] < |ks|
  {
  }

  lemma KeptBounds(s: seq<int>, was: seq<int>, ks: seq<int>, lo: int, hi: int)
    requires Kept(s, was, ks, lo, hi)
    ensures 0 <= lo <= hi + 1 <= |s| == |was|
    ensures RangePerm(s, was, lo, hi) && Keyed(s, |ks|, 0, lo, hi)
  {
  }

  lemma KeptSwap(s: seq<int>, was: seq<int>, ks: seq<int>, lo: int, hi: int, i: int, k: int)
    requires Kept(s, was, ks, lo, hi) && lo <= i <= hi && lo <= k <= hi
    ensures Kept(Swapped(s, i, k), was, ks, lo, hi)
  {
    WorkIntro(Job(was, ks, 0, lo, hi, 0), s);
    WorkSwap(Job(was, ks, 0, lo, hi, 0), s, i, k);
  }

  /** While the entry taken from i is being inserted and the hole is at `hole`: the others are
      sorted, and those already passed have a lesser class. Only claimed for step 1. */
  ghost predicate Inserting(v: seq<int>, ks: seq<int>, h: int, i: int, hole: int, hi: int) {
    h == 1 ==>
      0 <= i <= hole <= hi < |v| && (forall p :: i <= p <= hi ==> 0 <= v[p] < |ks|) &&
      (forall p, q :: i <= p < q <= hi && p != hole && q != hole ==> ks[v[p]] <= ks[v[q]]) &&
      (forall p :: i <= p < hole ==> ks[v[p]] < ks[v[hole]])
  }

  /** Entries from i+1 up are sorted already, when the step is 1. */
  ghost predicate Tail(s: seq<int>, ks: seq<int>, h: int, i: int, hi: int) {
    h == 1 ==> SortedByClass(s, ks, i, hi)
  }

  lemma InsertStart(s: seq<int>, was: seq<int>, ks: seq<int>, h: int, lo: int, i: int, hi: int)
    requires Kept(s, was, ks, lo, hi) && Tail(s, ks, h, i + 1, hi) && lo <= i <= hi
    ensures Inserting(s, ks, h, i, i, hi)
  {
    hide RangePerm;
    if h == 1 {
      forall p, q | i <= p < q <= hi && p != i && q != i ensures ks[s[p]] <= ks[s[q]] {
        assert ClassOrder(ks)(s[p], s[q]);
      }
    }
  }

  lemma InsertStep(v: seq<int>, was: seq<int>, ks: seq<int>, h: int, lo: int, i: int, hole: int, hi: int)
    requires Kept(v, was, ks, lo, hi) && Inserting(v, ks, h, i, hole, hi)
    requires lo <= i <= hole && h >= 1 && hole + h <= hi && ks[v[hole]] > ks[v[hole + h]]
    ensures Inserting(Swapped(v, hole, hole + h), ks, h, i, hole + h, hi)
  {
    hide RangePerm;
  }

  lemma InsertEnd(v: seq<int>, was: seq<int>, ks: seq<int>, h: int, lo: int, i: int, hole: int, hi: int)
    requires Kept(v, was, ks, lo, hi) && Inserting(v, ks, h, i, hole, hi)
    requires lo <= i <= hole <= hi && h >= 1 && (hole + h <= hi ==> ks[v[hole]] <= ks[v[hole + h]])
    ensures Tail(v, ks, h, i, hi)
  {
    hide RangePerm;
    if h == 1 {
      forall p, q | 0 <= i <= p < q <= hi ensures ClassOrder(ks)(v[p], v[q]) {
        if p == hole && q != hole + 1 {
          assert ks[v[hole + 1]] <= ks[v[q]];
        }
      }
    }
  }

  /** One insertion pass with step h (4, then 1). With step 1 the stretch ends up sorted. */
  method InsertionPass(fmap: array<int>, eclass: array<int>, lo: int, hi: int, h: int)
    requires fmap != eclass && h >= 1 && lo <= hi && Keyed(fmap[..], eclass.Length, 0, lo, hi)
    modifies fmap
    ensures Kept(fmap[..], old(fmap[..]), eclass[..], lo, hi)
    ensures h == 1 ==> SortedByClass(fmap[..], eclass[..], lo, hi)
  {
    hide *;
    ghost var ks, was := eclass[..], fmap[..];
    KeptStart(fmap[..], ks, lo, hi);
    KeptBounds(fmap[..], was, ks, lo, hi);
    var i := hi - h;
    TailStart(fmap[..], ks, h, hi - h, hi);
    while i >= lo
      invariant i <= hi - h && (h == 1 ==> lo - 1 <= i)
      invariant Kept(fmap[..], was, ks, lo, hi) && Tail(fmap[..], ks, h, i + 1, hi)
    {
      i := Insert(fmap, eclass, lo, hi, h, i, was);
    }
    TailDone(fmap[..], ks, h, i + 1, lo, hi);
  }

  lemma TailStart(s: seq<int>, ks: seq<int>, h: int, i: int, hi: int)
    requires h >= 1 && i == hi - h
    ensures Tail(s, ks, h, i + 1, hi)
  {
  }

  lemma TailDone(s: seq<int>, ks: seq<int>, h: int, i: int, lo: int, hi: int)
    requires Tail(s, ks, h, i, hi) && (h == 1 ==> i == lo)
    ensures h == 1 ==> SortedByClass(s, ks, lo, hi)
  {
  }

  /** Insert the entry at i among those h apart above it. */
  method Insert(fmap: array<int>, eclass: array<int>, lo: int, hi: int, h: int, i: int, ghost was: seq<int>)
    returns (i': int)
    requires fmap != eclass && h >= 1 && lo <= i <= hi - h && Kept(fmap[..], was, eclass[..], lo, hi)
    requires Tail(fmap[..], eclass[..], h, i + 1, hi)
    modifies fmap
    ensures i' == i - 1 && Kept(fmap[..], was, eclass[..], lo, hi) && Tail(fmap[..], eclass[..], h, i, hi)
  {
    hide *;
    ghost var ks := eclass[..];
    KeptBounds(fmap[..], was, ks, lo, hi);
    KeptAt(fmap[..], was, ks, lo, hi, i);
    InsertStart(fmap[..], was, ks, h, lo, i, hi);
    var tmp := fmap[i];
    var ecTmp := eclass[tmp];
    var j := i + h;
    ghost var v := fmap[..];
    while j <= hi
      invariant i <= j - h <= hi && |v| == fmap.Length && 0 <= j - h < fmap.Length
      invariant v == fmap[..][j - h := tmp]
      invariant Kept(v, was, ks, lo, hi) && Inserting(v, ks, h, i, j - h, hi)
    {
      KeptAt(v, was, ks, lo, hi, j);
      assert fmap[j] == v[j];
      if !(ecTmp > eclass[fmap[j]]) {
        break;
      }
      InsertStep(v, was, ks, h, lo, i, j - h, hi);
      KeptSwap(v, was, ks, lo, hi, j - h, j);
      ghost var s := fmap[..];
      fmap[j - h] := fmap[j];
      assert fmap[..] == s[j - h := s[j]];
      v := HoleMoves(s, v, j - h, j, tmp);
      j := j + h;
    }
    InsertEnd(v, was, ks, h, lo, i, j - h, hi);
    fmap[j - h] := tmp;
    assert fmap[..] == v;
    i' := i - 1;
  }

  /** Filling the hole at p with the entry at q moves the hole to q. */
  ghost function HoleMoves(s: seq<int>, v: seq<int>, p: int, q: int, tmp: int): (v': seq<int>)
    requires 0 <= p < |s| && 0 <= q < |s| && p != q && v == s[p := tmp]
    ensures v' == Swapped(v, p, q) == s[p := s[q]][q := tmp]
  {
    assert Swapped(v, p, q) == s[p := s[q]][q := tmp];
    Swapped(v, p, q)
  }

  /** fallbackSimpleSort: a pass with step 4 over stretches longer than four, then one with step 1. */
  method SimpleSort(fmap: array<int>, eclass: array<int>, lo: int, hi: int)
    requires fmap != eclass && Keyed(fmap[..], eclass.Length, 0, lo, hi)
    modifies fmap
    ensures Kept(fmap[..], old(fmap[..]), eclass[..], lo, hi)
    ensures SortedByClass(fmap[..], eclass[..], lo, hi)
  {
    hide *;
    ghost var ks, was := eclass[..], fmap[..];
    KeptStart(fmap[..], ks, lo, hi);
    if lo >= hi {
      SortedTrivially(fmap[..], ks, lo, hi);
      return;
    }
    if hi - lo > 3 {
      InsertionPass(fmap, eclass, lo, hi, 4);
    }
    ghost var mid := fmap[..];
    KeptBounds(mid, was, ks, lo, hi);
    InsertionPass(fmap, eclass, lo, hi, 1);
    KeptTransitive(fmap[..], mid, was, ks, lo, hi);
  }

  lemma SortedTrivially(s: seq<int>, ks: seq<int>, lo: int, hi: int)
    requires lo >= hi
    ensures SortedByClass(s, ks, lo, hi)
  {
  }

  lemma KeptTransitive(s: seq<int>, t: seq<int>, was: seq<int>, ks: seq<int>, lo: int, hi: int)
    requires Kept(s, t, ks, lo, hi) && Kept(t, was, ks, lo, hi)
    ensures Kept(s, was, ks, lo, hi)
  {
  }

  /* ---------- the quicksort ---------- */

  /** The state between two turns of the main loop. */
  ghost predicate Sorting(s: seq<int>, was: seq<int>, ks: seq<int>, stk: seq<Range>, lo0: int, hi0: int) {
    Kept(s, was, ks, lo0, hi0) && Apart(stk, lo0, hi0) && Ordered(s, ClassOrder(ks), stk, lo0, hi0) &&
    Balanced(stk) && Total(stk, 0) <= hi0 - lo0 + 1
  }

  /** The two stack arrays hold the stack. */
  ghost predicate Mirrors(stk: seq<Range>, los: seq<int>, his: seq<int>, sp: int) {
    sp == |stk| <= |los| == |his| &&
    forall k :: 0 <= k < |stk| ==> los[k] == stk[k].lo && his[k] == stk[k].hi && stk[k].d == 0
  }

  lemma MirrorsPush(stk: seq<Range>, los: seq<int>, his: seq<int>, sp: int, lo: int, hi: int)
    requires Mirrors(stk, los, his, sp) && sp < |los|
    ensures 0 <= sp && Mirrors(stk + [Range(lo, hi, 0)], los[sp := lo], his[sp := hi], sp + 1)
  {
  }

  lemma MirrorsPop(stk: seq<Range>, los: seq<int>, his: seq<int>, sp: int)
    requires Mirrors(stk, los, his, sp) && sp > 0
    ensures sp - 1 < |los| == |his| && stk == stk[..sp - 1] + [Range(los[sp - 1], his[sp - 1], 0)]
    ensures Mirrors(stk[..sp - 1], los, his, sp - 1)
  {
  }

  lemma SortingStart(s: seq<int>, ks: seq<int>, lo0: int, hi0: int)
    requires Keyed(s, |ks|, 0, lo0, hi0)
    ensures Sorting(s, s, ks, [Range(lo0, hi0, 0)], lo0, hi0)
  {
    hide RangePerm;
    hide Ordered;
    PermRefl(s, lo0, hi0);
    OrderedAll(s, ClassOrder(ks), lo0, hi0, 0);
    var stk := [Range(lo0, hi0, 0)];
    assert Total(stk, 1) == 0;
  }

  lemma SortingTop(s: seq<int>, was: seq<int>, ks: seq<int>, stk: seq<Range>, x: Range, lo0: int, hi0: int)
    requires Sorting(s, was, ks, stk + [x], lo0, hi0)
    ensures 0 <= lo0 <= x.lo <= x.hi + 1 <= hi0 + 1 <= |s| && Keyed(s, |ks|, 0, x.lo, x.hi)
    ensures Size(x) == x.hi - x.lo + 1
  {
    hide RangePerm;
    hide Balanced;
    hide Ordered;
    assert (stk + [x])[|stk|] == x;
  }

  lemma SortingDepth(s: seq<int>, was: seq<int>, ks: seq<int>, stk: seq<Range>, lo0: int, hi0: int)
    requires Sorting(s, was, ks, stk, lo0, hi0) && hi0 - lo0 + 1 < 0x8000_0000
    ensures |stk| < 68
  {
    DepthBound(stk);
  }

  /** Replace the top stretch x by `more`, having rearranged x. */
  lemma SortingStep(s': seq<int>, s: seq<int>, was: seq<int>, ks: seq<int>, stk: seq<Range>, x: Range,
                    more: seq<Range>, lo0: int, hi0: int)
    requires Sorting(s, was, ks, stk + [x], lo0, hi0) && Kept(s', s, ks, x.lo, x.hi)
    requires more == [] || (Splits(more, x) && Size(x) >= 1)
    requires Apart(more, x.lo, x.hi)
    requires forall p, q :: x.lo <= p < q <= x.hi ==> ClassOrder(ks)(s'[p], s'[q]) || Together(more, p, q)
    ensures Sorting(s', was, ks, stk + more, lo0, hi0)
  {
    hide RangePerm;
    hide Balanced;
    hide Ordered;
    hide Total;
    hide ClassOrder;
    hide Apart;
    hide Splits;
    hide Keyed;
    hide Together;
    SortingTop(s, was, ks, stk, x, lo0, hi0);
    ApartStep(stk, x, more, lo0, hi0);
    OrderedStep(s', s, ClassOrder(ks), stk, x, more, lo0, hi0);
    PermWiden(s', s, x.lo, x.hi, lo0, hi0);
    PermTransitive(s', s, was, lo0, hi0);
    KeyedPerm(s', was, |ks|, 0, lo0, hi0) by { KeptOrigin(s, was, ks, lo0, hi0); }
    if more == [] {
      assert stk + more == stk;
      BalancedPop(stk, x);
    } else {
      BalancedStep(stk, x, more);
    }
  }

  lemma KeptOrigin(s: seq<int>, was: seq<int>, ks: seq<int>, lo: int, hi: int)
    requires Kept(s, was, ks, lo, hi)
    ensures Keyed(was, |ks|, 0, lo, hi)
  {
    PermSymmetric(s, was, lo, hi);
    KeyedPerm(was, s, |ks|, 0, lo, hi);
  }

  /** A partition whose middle is equal leaves only its two sides pending. */
  lemma PartitionOrdered(j: Job, s: seq<int>, n: int, m: int, more: seq<Range>)
    requires Partitioned(j, s, n, m) && j.off == 0
    requires Together(more, j.lo, n) || n <= j.lo
    requires Together(more, m, j.hi) || j.hi <= m
    ensures forall p, q :: j.lo <= p < q <= j.hi ==> ClassOrder(j.ks)(s[p], s[q]) || Together(more, p, q)
  {
    hide RangePerm;
    forall p, q | j.lo <= p < q <= j.hi ensures ClassOrder(j.ks)(s[p], s[q]) || Together(more, p, q) {
      if q <= n {
        var r :| 0 <= r < |more| && more[r].lo <= j.lo && n <= more[r].hi;
        assert more[r].lo <= p && q <= more[r].hi;
      } else if m <= p {
        var r :| 0 <= r < |more| && more[r].lo <= m && j.hi <= more[r].hi;
        assert more[r].lo <= p && q <= more[r].hi;
      }
    }
  }

  /** The pivot occurs in the stretch, so the middle is not empty. */
  lemma PivotCounts(j: Job, s: seq<int>, n: int, m: int, at: int)
    requires Partitioned(j, s, n, m) && j.lo <= at <= j.hi && 0 <= j.was[at] + j.off < |j.ks|
    requires j.ks[j.was[at] + j.off] == j.med
    ensures n + 1 < m
  {
    hide Keyed;
    PermSymmetric(s, j.was, j.lo, j.hi);
    var q := PermSource(j.was, s, j.lo, j.hi, at);
    assert j.ks[s[q] + j.off] == j.med;
  }

  /** A scan that finds only the pivot's class leaves nothing to do. */
  lemma AllEqual(j: Job, s: seq<int>, ltLo: int, unLo: int, unHi: int, gtHi: int)
    requires Scanned(j, s, ltLo, unLo, unHi, gtHi) && unLo == unHi + 1 && gtHi < ltLo && j.off == 0
    ensures forall p, q :: j.lo <= p < q <= j.hi ==> ClassOrder(j.ks)(s[p], s[q])
  {
    hide RangePerm;
  }

  lemma KeptFromWork(j: Job, s: seq<int>)
    requires Work(j, s) && j.off == 0
    ensures Kept(s, j.was, j.ks, j.lo, j.hi)
  {
  }

  lemma PartitionedBounds(j: Job, s: seq<int>, n: int, m: int)
    requires Partitioned(j, s, n, m)
    ensures Work(j, s) && j.lo <= n + 1 <= m <= j.hi + 1
  {
  }

  /** The two sides in the order they are pushed: the larger first. */
  ghost function Sides(lo: int, hi: int, n: int, m: int): seq<Range> {
    if n - lo > hi - m then [Range(lo, n, 0), Range(m, hi, 0)] else [Range(m, hi, 0), Range(lo, n, 0)]
  }

  lemma SidesSplit(x: Range, n: int, m: int)
    requires x.lo <= n + 1 < m <= x.hi + 1 && x.d == 0
    ensures var more := Sides(x.lo, x.hi, n, m);
      Splits(more, x) && Apart(more, x.lo, x.hi) && Together(more, x.lo, n) && Together(more, m, x.hi)
  {
    var more := Sides(x.lo, x.hi, n, m);
    TotalsOf(more);
    assert more[0].lo == x.lo || more[0].hi == x.hi;
    assert more[1].lo == x.lo || more[1].hi == x.hi;
  }

  /** Replacing a stretch by its two sides is progress, since the middle is not empty. */
  lemma SidesProgress(stk: seq<Range>, x: Range, n: int, m: int)
    requires x.lo <= n + 1 < m <= x.hi + 1 && x.d == 0
    ensures Pending(stk + Sides(x.lo, x.hi, n, m)) < Pending(stk + [x])
  {
    hide Weight;
    hide Pending;
    var more := Sides(x.lo, x.hi, n, m);
    WorkPush(stk, x);
    WorkPush(stk, more[0]);
    WorkPush(stk + [more[0]], more[1]);
    assert stk + more == stk + [more[0]] + [more[1]];
    WeightAtTop(x);
    WeightAtTop(more[0]);
    WeightAtTop(more[1]);
  }

  lemma WeightAtTop(x: Range)
    requires x.d == 0
    ensures Weight(x) == 1 + 51 * Size(x)
  {
  }

  lemma PopProgress(stk: seq<Range>, x: Range)
    ensures Pending(stk) < Pending(stk + [x])
  {
    WorkPush(stk, x);
  }

  /** Pivot choice: the class at the low end, the middle or the high end, by a small generator. */
  method ChoosePivot(fmap: array<int>, eclass: array<int>, lo: int, hi: int, r: int)
    returns (r': int, med: int, ghost at: int)
    requires 0 <= r && lo <= hi && Keyed(fmap[..], eclass.Length, 0, lo, hi)
    ensures r' == (r * 7621 + 1) % 32768 && lo <= at <= hi && at < fmap.Length && 0 <= at
    ensures 0 <= fmap[at] < eclass.Length && med == eclass[fmap[at]]
  {
    r' := (r * 7621 + 1) % 32768;
    var r3 := r' % 3;
    if r3 == 0 {
      med, at := eclass[fmap[lo]], lo;
    } else if r3 == 1 {
      med, at := eclass[fmap[(lo + hi) / 2]], (lo + hi) / 2;
    } else {
      med, at := eclass[fmap[hi]], hi;
    }
  }

  /** One turn of the main loop on the popped stretch lo..hi: sort it outright, or partition it
      and say which two sides are left. */
  method SortTop(fmap: array<int>, eclass: array<int>, lo: int, hi: int, r: int,
                 ghost stk: seq<Range>, ghost was: seq<int>, ghost loSt: int, ghost hiSt: int)
    returns (r': int, split: bool, n: int, m: int)
    requires fmap != eclass && 0 <= r
    requires Sorting(fmap[..], was, eclass[..], stk + [Range(lo, hi, 0)], loSt, hiSt)
    modifies fmap
    ensures 0 <= r'
    ensures split ==> lo <= n + 1 < m <= hi + 1
    ensures !split ==> Sorting(fmap[..], was, eclass[..], stk, loSt, hiSt)
    ensures split ==> Sorting(fmap[..], was, eclass[..], stk + Sides(lo, hi, n, m), loSt, hiSt)
  {
    assert SMALL_THRESH == 10;
    hide *;
    ghost var ks, s, x := eclass[..], fmap[..], Range(lo, hi, 0);
    SortingTop(s, was, ks, stk, x, loSt, hiSt);
    ApartNone(lo, hi);
    assert stk + [] == stk;
    r', split, n, m := r, false, lo, hi;
    if hi - lo < SMALL_THRESH {
      SimpleSort(fmap, eclass, lo, hi);
      SortedPairs(fmap[..], ks, lo, hi);
      SortingStep(fmap[..], s, was, ks, stk, x, [], loSt, hiSt);
      return;
    }
    var med;
    ghost var at;
    r', med, at := ChoosePivot(fmap, eclass, lo, hi, r);
    ghost var j := Job(s, ks, 0, lo, hi, med);
    var ltLo, unLo, unHi, gtHi := Scan(fmap, eclass, 0, lo, hi, med);
    if gtHi < ltLo {
      AllEqual(j, fmap[..], ltLo, unLo, unHi, gtHi);
      ScanWork(j, fmap[..], ltLo, unLo, unHi, gtHi);
      KeptFromWork(j, fmap[..]);
      SortingStep(fmap[..], s, was, ks, stk, x, [], loSt, hiSt);
      return;
    }
    n, m := GatherEqual(fmap, j, lo, hi, ltLo, unLo, unHi, gtHi);
    split := true;
    PartitionedBounds(j, fmap[..], n, m);
    PivotCounts(j, fmap[..], n, m, at);
    KeptFromWork(j, fmap[..]);
    SidesSplit(x, n, m);
    PartitionOrdered(j, fmap[..], n, m, Sides(lo, hi, n, m));
    SortingStep(fmap[..], s, was, ks, stk, x, Sides(lo, hi, n, m), loSt, hiSt);
  }

  lemma ApartNone(lo: int, hi: int)
    ensures Apart([], lo, hi)
  {
  }

  lemma SortedPairs(s: seq<int>, ks: seq<int>, lo: int, hi: int)
    requires SortedByClass(s, ks, lo, hi) && 0 <= lo && hi < |s|
    ensures forall p, q :: lo <= p < q <= hi ==> ClassOrder(ks)(s[p], s[q])
  {
  }

  lemma MirrorsOne(los: seq<int>, his: seq<int>, lo: int, hi: int)
    requires |los| == |his| && |los| > 0 && los[0] == lo && his[0] == hi
    ensures Mirrors([Range(lo, hi, 0)], los, his, 1)
  {
  }

  lemma SortingDone(s: seq<int>, was: seq<int>, ks: seq<int>, lo0: int, hi0: int)
    requires Sorting(s, was, ks, [], lo0, hi0)
    ensures Kept(s, was, ks, lo0, hi0) && SortedByClass(s, ks, lo0, hi0)
  {
    OrderedDone(s, ClassOrder(ks), lo0, hi0);
  }

  method Push(stackLo: array<int>, stackHi: array<int>, sp: int, lo: int, hi: int, ghost stk: seq<Range>)
    returns (sp': int)
    requires stackLo != stackHi && stackLo.Length == stackHi.Length && 0 <= sp < stackLo.Length
    requires Mirrors(stk, stackLo[..], stackHi[..], sp)
    modifies stackLo, stackHi
    ensures sp' == sp + 1 && Mirrors(stk + [Range(lo, hi, 0)], stackLo[..], stackHi[..], sp')
  {
    hide *;
    MirrorsPush(stk, stackLo[..], stackHi[..], sp, lo, hi);
    stackLo[sp], stackHi[sp] := lo, hi;
    sp' := sp + 1;
  }

  /** Push both sides, the larger first. */
  method PushSides(stackLo: array<int>, stackHi: array<int>, sp: int, lo: int, hi: int, n: int, m: int,
      ghost stk: seq<Range>)
    returns (sp': int)
    requires stackLo != stackHi && stackLo.Length == stackHi.Length && 0 <= sp < stackLo.Length - 1
    requires Mirrors(stk, stackLo[..], stackHi[..], sp)
    modifies stackLo, stackHi
    ensures sp' == sp + 2 && Mirrors(stk + Sides(lo, hi, n, m), stackLo[..], stackHi[..], sp')
  {
    hide Mirrors;
    if n - lo > hi - m {
      sp' := Push(stackLo, stackHi, sp, lo, n, stk);
      sp' := Push(stackLo, stackHi, sp', m, hi, stk + [Range(lo, n, 0)]);
      assert stk + [Range(lo, n, 0)] + [Range(m, hi, 0)] == stk + Sides(lo, hi, n, m);
    } else {
      sp' := Push(stackLo, stackHi, sp, m, hi, stk);
      sp' := Push(stackLo, stackHi, sp', lo, n, stk + [Range(m, hi, 0)]);
      assert stk + [Range(m, hi, 0)] + [Range(lo, n, 0)] == stk + Sides(lo, hi, n, m);
    }
  }

  method Pop(stackLo: array<int>, stackHi: array<int>, sp: int, ghost stk: seq<Range>)
    returns (sp': int, lo: int, hi: int, ghost rest: seq<Range>)
    requires stackLo.Length == stackHi.Length && sp > 0 && Mirrors(stk, stackLo[..], stackHi[..], sp)
    ensures stk == rest + [Range(lo, hi, 0)] && sp' == sp - 1 && |stk| == sp
    ensures Mirrors(rest, stackLo[..], stackHi[..], sp')
  {
    MirrorsPop(stk, stackLo[..], stackHi[..], sp);
    sp' := sp - 1;
    lo, hi, rest := stackLo[sp'], stackHi[sp'], stk[..sp'];
  }

  /** fallbackQSort3. Two stack slots are always free when a stretch is popped. */
  method QSort3(fmap: array<int>, eclass: array<int>, loSt: int, hiSt: int)
    requires fmap != eclass && Keyed(fmap[..], eclass.Length, 0, loSt, hiSt)
    requires hiSt - loSt + 1 < 0x8000_0000
    modifies fmap
    ensures Kept(fmap[..], old(fmap[..]), eclass[..], loSt, hiSt)
    ensures SortedByClass(fmap[..], eclass[..], loSt, hiSt)
  {
    assert STACK_SIZE == 100;
    hide *;
    ghost var ks, was := eclass[..], fmap[..];
    var stackLo, stackHi := new int[STACK_SIZE], new int[STACK_SIZE];
    var r, sp := 0, 0;
    stackLo[sp], stackHi[sp], sp := loSt, hiSt, sp + 1;
    ghost var stk := [Range(loSt, hiSt, 0)];
    MirrorsOne(stackLo[..], stackHi[..], loSt, hiSt);
    SortingStart(was, ks, loSt, hiSt);
    while sp > 0
      invariant 0 <= r && 0 <= sp
      invariant Mirrors(stk, stackLo[..], stackHi[..], sp)
      invariant Sorting(fmap[..], was, ks, stk, loSt, hiSt)
      decreases Pending(stk)
    {
      SortingDepth(fmap[..], was, ks, stk, loSt, hiSt);
      var lo, hi, split, n, m;
      ghost var rest;
      sp, lo, hi, rest := Pop(stackLo, stackHi, sp, stk);
      assert sp + 1 < STACK_SIZE - 1;
      PopProgress(rest, Range(lo, hi, 0));
      ghost var los, his := stackLo[..], stackHi[..];
      r, split, n, m := SortTop(fmap, eclass, lo, hi, r, rest, was, loSt, hiSt);
      assert stackLo[..] == los && stackHi[..] == his;
      stk := rest;
      if split {
        SidesProgress(rest, Range(lo, hi, 0), n, m);
        ghost var s := fmap[..];
        sp := PushSides(stackLo, stackHi, sp, lo, hi, n, m, rest);
        assert fmap[..] == s;
        stk := rest + Sides(lo, hi, n, m);
      }
    }
    StackEmpty(stk, stackLo[..], stackHi[..], sp);
    SortingDone(fmap[..], was, ks, loSt, hiSt);
  }

  lemma StackEmpty(stk: seq<Range>, los: seq<int>, his: seq<int>, sp: int)
    requires Mirrors(stk, los, his, sp) && sp <= 0
    ensures stk == []
  {
  }
}
